/** What holds in every reachable state, and between any two states of one run. */
module SmsTheorems {
  import opened Basics
  import opened SmsStatus
  import opened SmsStore
  import opened SmsTransactions
  import opened SmsProtocol
  import opened SmsSafety
  import opened SmsReconciliation
  import opened SmsServices

  ghost predicate Kept(s: State, s': State, settled: Option<Token>) { Inv(s') && Evolves(s.db, s'.db, settled) }

  lemma StutterKept(s: State)
    requires Inv(s)
    ensures Kept(s, s, None)
  {
  }

  lemma PrepareKept(s: State, step: Step)
    requires Inv(s) && step.Prepare?
    ensures Kept(s, Next(s, step), None)
  {
    StutterKept(s);
    if step.job in s.leases && PrepareTx(s.db, step.job, step.t, step.usable, step.policy).Ok? {
      var (db', token) := PrepareTx(s.db, step.job, step.t, step.usable, step.policy).value;
      PrepareSound(s.db, step.job, step.t, step.usable, step.policy);
      SoundKeepsInv(s, db');
      if token.Some? {
        PrepareOnlyAfterRejection(s.db, step.job, step.t, step.usable, step.policy);
        assert !HasAttempt(s.db, token.value);
        LaunchKeepsInv(s.(db := db'), token.value, Flight(Ready, Some(step.job)));
      }
    }
  }

  /** A renewed lease clears its process for dispatch, or ends it when the lease is too short. */
  lemma RenewalKept(s: State, token: Token, db': Db)
    requires Inv(s) && token in s.flights && s.flights[token].phase.Ready? && Sound(s.db, db', None)
    ensures Kept(s, s.(db := db', flights := s.flights[token := s.flights[token].(phase := Cleared)]), None)
    ensures Kept(s, s.(db := db', flights := s.flights - {token}), None)
  {
    SoundKeepsInv(s, db');
    ClearedKeepsInv(s.(db := db'), token);
    CrashKeepsInv(s.(db := db'), token);
  }

  lemma CrashKept(s: State, token: Token)
    requires Inv(s)
    ensures Kept(s, s.(flights := s.flights - {token}), None)
  {
    CrashKeepsInv(s, token);
  }

  predicate Clears(s: State, token: Token, t: Timing) {
    token in s.flights && s.flights[token].phase.Ready? && s.flights[token].job.Some? && ClearTx(s.db, s.flights[token].job.value, t).Ok?
  }

  lemma ClearCases(s: State, token: Token, t: Timing)
    ensures var s' := Next(s, Clear(token, t));
            if Clears(s, token, t) then
              var db' := ClearTx(s.db, s.flights[token].job.value, t).value;
              || s' == s.(db := db', flights := s.flights[token := s.flights[token].(phase := Cleared)])
              || s' == s.(db := db', flights := s.flights - {token})
            else s' == s || s' == s.(flights := s.flights - {token})
  {
  }

  lemma ClearKept(s: State, step: Step)
    requires Inv(s) && step.Clear?
    ensures Kept(s, Next(s, step), None)
  {
    ClearCases(s, step.token, step.t);
    if Clears(s, step.token, step.t) {
      ClearStepSound(s.db, s.flights[step.token].job.value, step.t);
      RenewalKept(s, step.token, ClearTx(s.db, s.flights[step.token].job.value, step.t).value);
    } else {
      StutterKept(s);
      CrashKept(s, step.token);
    }
  }

  lemma CompleteKept(s: State, step: Step)
    requires Inv(s) && step.Complete?
    ensures Kept(s, Next(s, step), Some(step.token))
  {
    var token := step.token;
    if token in s.flights && s.flights[token].phase.Dispatched? {
      CompleteSound(s.db, token, s.flights[token].job, step.result, step.at);
      LandKeepsInv(s, Next(s, step).db, token);
    } else {
      forall k | k in s.db.rows ensures RowEvolves(s.db.rows[k], s.db.rows[k], if token.key == k then Some(token.no) else None) { }
    }
  }

  lemma DirectPrepareKept(s: State, step: Step)
    requires Inv(s) && step.DirectPrepare?
    ensures Kept(s, Next(s, step), None)
  {
    StutterKept(s);
    DirectPrepareSound(s.db, step.key, step.usable, step.policy, step.withinPhoneLimits, step.now);
    var r := DirectPrepareTx(s.db, step.key, step.usable, step.policy, step.withinPhoneLimits, step.now);
    if r.Ok? && r.value.1.Some? {
      SoundKeepsInv(s, r.value.0);
      assert !HasAttempt(s.db, r.value.1.value);
      LaunchKeepsInv(s.(db := r.value.0), r.value.1.value, Flight(Ready, None));
    }
  }

  lemma LeaseKept(s: State, step: Step)
    requires Inv(s) && step.LeaseSend?
    ensures Kept(s, Next(s, step), None)
  {
    StutterKept(s);
    if LeaseTx(s.db, step.key, step.now, step.leaseMs).Some? {
      var (db', job) := LeaseTx(s.db, step.key, step.now, step.leaseMs).value;
      LeaseStepSound(s, step.key, step.now, step.leaseMs);
      SoundKeepsInv(s, db');
      GrantKeepsInv(s.(db := db'), job);
    }
  }

  lemma ProcessStepKept(s: State, step: Step)
    requires Inv(s) && (step.Send? || step.Crash? || step.ReadDone?)
    ensures Kept(s, Next(s, step), None)
  {
    StutterKept(s);
    match step
    case Send(token) => if token in s.flights && CanDispatch(s.flights[token]) { SendKeepsInv(s, token); }
    case Crash(token) => CrashKeepsInv(s, token);
    case ReadDone(key) => if Next(s, step) != s { assert RowInv(s.db.rows[key]); SeenKeepsInv(s, key); }
    case _ =>
  }

  lemma RecoverKept(s: State, step: Step)
    requires Inv(s) && step.Recover?
    ensures Kept(s, Next(s, step), None)
  {
    StutterKept(s);
    if ValidSelection(s.db, step.sel, step.before, step.limit) {
      RecoverSound(s.db, step.sel, step.before, step.limit, step.at);
      SoundKeepsInv(s, RecoverTx(s.db, step.sel, step.before, step.limit, step.at).value);
    }
  }

  lemma StepKeepsInv(s: State, step: Step)
    requires Inv(s)
    ensures Kept(s, Next(s, step), if step.Complete? then Some(step.token) else None)
  {
    if step.Prepare? { PrepareKept(s, step); }
    else if step.Clear? { ClearKept(s, step); }
    else if step.Complete? { CompleteKept(s, step); }
    else if step.DirectPrepare? { DirectPrepareKept(s, step); }
    else if step.LeaseSend? { LeaseKept(s, step); }
    else if step.Send? || step.Crash? || step.ReadDone? { ProcessStepKept(s, step); }
    else if step.Recover? { RecoverKept(s, step); }
    else if step.Enqueue? {
      StutterKept(s);
      if step.maxAttempts > 0 {
        EnqueueSound(s.db, step.key, step.maxAttempts, step.now);
        SoundKeepsInv(s, Next(s, step).db);
      }
    } else {
      ReconcileStepSound(s, step);
      SoundKeepsInv(s, Next(s, step).db);
    }
  }

  // ----- reachable states -----

  lemma {:induction false} ReachableInv(steps: seq<Step>)
    ensures Inv(Run(INIT, steps))
    decreases |steps|
  {
    if steps == [] {
      forall day: int ensures HeldOn(INIT.db, day) == |HeldKeys(INIT.db.rows, day)| { assert HeldKeys(INIT.db.rows, day) == {}; }
    } else {
      ReachableInv(steps[..|steps| - 1]);
      StepKeepsInv(Run(INIT, steps[..|steps| - 1]), steps[|steps| - 1]);
    }
  }

  /** Whatever is in flight, at most the newest attempt of a message is not definitively rejected. */
  lemma AtMostOneLiveAttempt(steps: seq<Step>, key: Key, i: nat, j: nat)
    requires key in Run(INIT, steps).db.rows && i < j < |Run(INIT, steps).db.rows[key].attempts|
    ensures Run(INIT, steps).db.rows[key].attempts[i].status.AttemptRejected?
  {
    ReachableInv(steps);
  }

  /** The provider is asked again about a message only after every earlier request was definitively rejected. */
  lemma NoUncertainResend(steps: seq<Step>, token: Token, earlier: Token)
    requires Next(Run(INIT, steps), Send(token)).sends != Run(INIT, steps).sends
    requires earlier in Run(INIT, steps).sends && earlier.key == token.key
    ensures earlier.no < token.no && HasAttempt(Run(INIT, steps).db, earlier)
    ensures Run(INIT, steps).db.rows[token.key].attempts[earlier.no].status.AttemptRejected?
  {
    var s := Run(INIT, steps);
    ReachableInv(steps);
    assert FlightFits(s.db, token, s.flights[token]) && HasAttempt(s.db, earlier) && earlier != token;
    assert RowInv(s.db.rows[token.key]);
  }

  ghost function Requests(s: State, key: Key): set<Token> { set t | t in s.sends && t.key == key }

  function TokensBelow(key: Key, n: nat): (tokens: set<Token>)
    ensures |tokens| == n
    ensures forall t :: t in tokens <==> t.key == key && t.no < n
  {
    if n == 0 then {} else TokensBelow(key, n - 1) + {Token(key, n - 1)}
  }

  lemma SubsetSize<T>(a: set<T>, b: set<T>)
    requires a <= b
    ensures |a| <= |b|
  {
    assert b == a + (b - a);
  }

  /** No token is ever sent twice, and a queued message costs at most its job's attempt allowance. */
  lemma RequestsBounded(steps: seq<Step>, key: Key)
    requires HasJob(Run(INIT, steps).db, key)
    ensures Distinct(Run(INIT, steps).sends)
    ensures |Requests(Run(INIT, steps), key)| <= Run(INIT, steps).db.rows[key].sendJob.value.maxAttempts
  {
    var s := Run(INIT, steps);
    ReachableInv(steps);
    var r := s.db.rows[key];
    assert RowInv(r);
    forall t | t in Requests(s, key) ensures t in TokensBelow(key, |r.attempts|) { assert HasAttempt(s.db, t); }
    SubsetSize(Requests(s, key), TokensBelow(key, |r.attempts|));
  }

  /** A direct message is dispatched at most once, whatever happens to it. */
  lemma DirectSentOnce(steps: seq<Step>, key: Key)
    requires key in Run(INIT, steps).db.rows && Run(INIT, steps).db.rows[key].sendJob.None?
    ensures |Requests(Run(INIT, steps), key)| <= 1
  {
    var s := Run(INIT, steps);
    ReachableInv(steps);
    assert RowInv(s.db.rows[key]);
    forall t | t in Requests(s, key) ensures t in TokensBelow(key, 1) { assert HasAttempt(s.db, t); }
    SubsetSize(Requests(s, key), TokensBelow(key, 1));
  }

  /** A reservation is held exactly while a dispatched message is not rejected, and each day's counter is exact. */
  lemma BudgetConserved(steps: seq<Step>)
    ensures var db := Run(INIT, steps).db;
            && (forall k | k in db.rows ::
                  db.rows[k].reservation.Held? <==> |db.rows[k].attempts| > 0 && !db.rows[k].acceptance.Rejected?)
            && (forall day: int :: HeldOn(db, day) == |HeldKeys(db.rows, day)|)
  {
    ReachableInv(steps);
    var db := Run(INIT, steps).db;
    forall k | k in db.rows
      ensures db.rows[k].reservation.Held? <==> |db.rows[k].attempts| > 0 && !db.rows[k].acceptance.Rejected?
    {
      assert RowInv(db.rows[k]);
    }
  }

  /** A pending message can always still move, and a waiting one is always still queried. */
  lemma NeverStranded(steps: seq<Step>, key: Key)
    requires key in Run(INIT, steps).db.rows
    ensures var r := Run(INIT, steps).db.rows[key];
            && (r.acceptance.Pending? && r.sendJob.Some? ==> r.sendJob.value.Open())
            && (r.acceptance.Pending? && r.sendJob.None? ==> StartedIn(r, Direct))
            && (Reconcilable(r) ==> r.reconcileJob.Some? && r.reconcileJob.value.Open())
  {
    ReachableInv(steps);
    var r := Run(INIT, steps).db.rows[key];
    assert RowInv(r);
    if r.acceptance.Pending? && r.sendJob.None? { assert r.attempts[0] in r.attempts; }
  }

  /** A waiting message always agrees with its last attempt, so a query is put off only while the clock lags its marker. */
  lemma QueriesAreNeverBlocked(steps: seq<Step>, key: Key, now: int)
    requires key in Run(INIT, steps).db.rows && Reconcilable(Run(INIT, steps).db.rows[key])
    ensures var r := Run(INIT, steps).db.rows[key];
            |r.attempts| > 0 && (PlanFor(r, now).Defer? <==> r.attempts[|r.attempts| - 1].markedAt > now)
  {
    ReachableInv(steps);
    WaitingAgrees(Run(INIT, steps).db.rows[key], now);
  }

  lemma WaitingAgrees(r: Row, now: int)
    requires RowInv(r) && Reconcilable(r)
    ensures |r.attempts| > 0 && (PlanFor(r, now).Defer? <==> r.attempts[|r.attempts| - 1].markedAt > now)
  {
  }

  // ----- two states of one run -----

  /** Statuses only move forward: accepted and rejected absorb, deliveries never return, attempts are kept. */
  lemma {:induction false} StatusesOnlyAdvance(steps: seq<Step>, more: seq<Step>, key: Key)
    requires key in Run(INIT, steps).db.rows
    ensures var s := Run(INIT, steps);
            var s' := Run(s, more);
            && Inv(s') && key in s'.db.rows
            && var r, r' := s.db.rows[key], s'.db.rows[key];
               && StatusMove(r.acceptance, r.delivery, r'.acceptance, r'.delivery)
               && |r.attempts| <= |r'.attempts|
               && forall i | 0 <= i < |r.attempts| && r.attempts[i].status.AttemptRejected? :: r'.attempts[i].status.AttemptRejected?
    decreases |more|
  {
    var s := Run(INIT, steps);
    if more == [] {
      ReachableInv(steps);
    } else {
      var mid := Run(s, more[..|more| - 1]);
      var step := more[|more| - 1];
      StatusesOnlyAdvance(steps, more[..|more| - 1], key);
      StepKeepsInv(mid, step);
      var r, r1, r2 := s.db.rows[key], mid.db.rows[key], Next(mid, step).db.rows[key];
      StatusMoveTransitive(r.acceptance, r.delivery, r1.acceptance, r1.delivery, r2.acceptance, r2.delivery);
      forall i | 0 <= i < |r.attempts| && r.attempts[i].status.AttemptRejected? ensures r2.attempts[i].status.AttemptRejected? {
        assert AttemptEvolves(r1.attempts[i], r2.attempts[i], step.Complete? && step.token == Token(key, i));
      }
    }
  }

  // ----- late results -----

  /** In any database at all, a worker whose lease is gone changes no send job and gets past no fence. */
  lemma StaleLeaseChangesNoJob(db: Db, job: Snapshot, token: Token, result: ProviderResult, t: Timing, usable: bool, policy: Policy)
    requires token.key == job.key && HasJob(db, job.key) && !db.rows[job.key].sendJob.value.Owned(job.lease)
    ensures PrepareTx(db, job, t, usable, policy).Err? && ClearTx(db, job, t).Err?
    ensures var r := CompleteTx(db, job, token, result, t.now);
            r.Ok? ==> r.value.rows.Keys == db.rows.Keys && forall k | k in db.rows :: r.value.rows[k].sendJob == db.rows[k].sendJob
  {
  }

  /**
   * In a reachable state no queued completion rolls back, so no provider answer is ever lost. A direct one
   * commits exactly while its message is pending, or unknown and the answer is not once more unknown.
   */
  lemma LateResultIsRecorded(steps: seq<Step>, token: Token, result: ProviderResult, at: int)
    requires token in Run(INIT, steps).flights
    ensures var s := Run(INIT, steps);
            && token.key in s.db.rows
            && if s.flights[token].job.Some? then CompleteTx(s.db, s.flights[token].job.value, token, result, at).Ok?
               else DirectCompleteTx(s.db, token, result, at).Ok?
                    <==> s.db.rows[token.key].acceptance.Pending? || (s.db.rows[token.key].acceptance.Unknown? && !result.ProviderUnknown?)
  {
    var s := Run(INIT, steps);
    FlightInRun(steps, token);
    CompleteSound(s.db, token, s.flights[token].job, result, at);
    if s.flights[token].job.None? { DirectCommitsIff(s.db, token, s.flights[token], result, at); }
  }

  lemma DirectCommitsIff(db: Db, token: Token, f: Flight, result: ProviderResult, at: int)
    requires FlightFits(db, token, f) && f.job.None? && RowInv(db.rows[token.key])
    ensures DirectCompleteTx(db, token, result, at).Ok?
            <==> db.rows[token.key].acceptance.Pending? || (db.rows[token.key].acceptance.Unknown? && !result.ProviderUnknown?)
  {
  }

  /** A rejection the worker would retry, had its message not been recovered. */
  predicate WouldRetry(f: Flight, result: ProviderResult) {
    f.job.Some? && result.ProviderRejected? && result.retryable && !f.job.value.Exhausted()
  }

  /** Where a provider result takes the acceptance and the reservation of its message. */
  predicate Outcome(before: Row, after: Row, f: Flight, result: ProviderResult) {
    match result
    case ProviderAccepted(_) => after.acceptance.Accepted? && after.reservation == before.reservation
    case ProviderUnknown => after.acceptance.Unknown? && after.reservation == before.reservation
    case ProviderRejected(_) =>
      if before.acceptance.Pending? && WouldRetry(f, result)
      then after.acceptance.Pending? && after.reservation == before.reservation
      else after.acceptance.Rejected? && before.reservation.Held? && after.reservation == Released(before.reservation.day)
  }

  lemma SettleOutcome(db: Db, token: Token, f: Flight, result: ProviderResult, at: int)
    requires FlightFits(db, token, f) && (f.job.Some? ==> LeaseFits(db, f.job.value)) && RowInv(db.rows[token.key])
    requires var r := db.rows[token.key]; Marker(r) || r.acceptance.Unknown?
    ensures token.key in Settle(db, token, f.job, result, at).rows
    ensures Outcome(db.rows[token.key], Settle(db, token, f.job, result, at).rows[token.key], f, result)
  {
    assert token.no == |db.rows[token.key].attempts| - 1;
  }

  lemma AbandonedKeepsToken(db: Db, token: Token, f: Flight, sel: Selection, before: int, limit: nat, at: int)
    requires RowsInv(db) && BudgetInv(db) && FlightFits(db, token, f) && (f.job.Some? ==> LeaseFits(db, f.job.value))
    requires ValidSelection(db, sel, before, limit) && sel.Marks(token.key)
    ensures RecoverTx(db, sel, before, limit, at).Ok? && Marker(db.rows[token.key])
    ensures var db' := RecoverTx(db, sel, before, limit, at).value;
            && FlightFits(db', token, f) && (f.job.Some? ==> LeaseFits(db', f.job.value))
            && RowInv(db'.rows[token.key]) && db'.rows[token.key].acceptance.Unknown?
            && db'.rows[token.key].reservation == db.rows[token.key].reservation
  {
    RecoverSound(db, sel, before, limit, at);
    var db' := RecoverTx(db, sel, before, limit, at).value;
    if f.job.Some? { EvolvesKeepsLease(db, db', None, f.job.value); }
    assert StartedNo(db.rows[token.key].attempts) == |db.rows[token.key].attempts| - 1;
  }

  predicate SameFate(a: Row, b: Row) { a.acceptance == b.acceptance && a.reservation == b.reservation }

  lemma CommutesInDb(db: Db, token: Token, f: Flight, result: ProviderResult, at: int, sel: Selection, before: int, limit: nat)
    requires RowsInv(db) && BudgetInv(db) && FlightFits(db, token, f) && (f.job.Some? ==> LeaseFits(db, f.job.value))
    requires ValidSelection(db, sel, before, limit) && sel.Marks(token.key)
    ensures RecoverTx(db, sel, before, limit, at).Ok?
    ensures var a := Settle(RecoverTx(db, sel, before, limit, at).value, token, f.job, result, at);
            var b := Settle(db, token, f.job, result, at);
            && token.key in a.rows && token.key in b.rows
            && (SameFate(a.rows[token.key], b.rows[token.key]) <==> !WouldRetry(f, result))
  {
    AbandonedKeepsToken(db, token, f, sel, before, limit, at);
    SettleOutcome(db, token, f, result, at);
    SettleOutcome(RecoverTx(db, sel, before, limit, at).value, token, f, result, at);
  }

  /** What a live process may rely on in a reachable state. */
  lemma FlightInRun(steps: seq<Step>, token: Token)
    requires token in Run(INIT, steps).flights
    ensures var s := Run(INIT, steps);
            && RowsInv(s.db) && BudgetInv(s.db) && FlightFits(s.db, token, s.flights[token])
            && (s.flights[token].job.Some? ==> LeaseFits(s.db, s.flights[token].job.value))
  {
    ReachableInv(steps);
  }

  /**
   * Recovery before or after the late completion of the same marker gives the message the same
   * acceptance and budget, except for a retryable rejection: recovered first it ends the message,
   * completed first it is retried.
   */
  lemma RecoveryCommutes(steps: seq<Step>, token: Token, result: ProviderResult, at: int, sel: Selection, before: int, limit: nat)
    requires token in Run(INIT, steps).flights
    requires ValidSelection(Run(INIT, steps).db, sel, before, limit) && sel.Marks(token.key)
    ensures var db, f := Run(INIT, steps).db, Run(INIT, steps).flights[token];
            && RecoverTx(db, sel, before, limit, at).Ok?
            && var a := Settle(RecoverTx(db, sel, before, limit, at).value, token, f.job, result, at);
               var b := Settle(db, token, f.job, result, at);
               && token.key in a.rows && token.key in b.rows
               && (SameFate(a.rows[token.key], b.rows[token.key]) <==> !WouldRetry(f, result))
  {
    FlightInRun(steps, token);
    CommutesInDb(Run(INIT, steps).db, token, Run(INIT, steps).flights[token], result, at, sel, before, limit);
  }

  /** After the completion, recovery finds nothing of this message. */
  lemma NothingLeftToRecover(steps: seq<Step>, token: Token, result: ProviderResult, at: int, sel: Selection, before: int, limit: nat)
    requires token in Run(INIT, steps).flights
    requires ValidSelection(Settle(Run(INIT, steps).db, token, Run(INIT, steps).flights[token].job, result, at), sel, before, limit)
    ensures !sel.Marks(token.key) && token.key !in sel.expired
  {
    FlightInRun(steps, token);
    CompleteSound(Run(INIT, steps).db, token, Run(INIT, steps).flights[token].job, result, at);
    SettledLeavesNoMarker(Run(INIT, steps).db, token, Run(INIT, steps).flights[token], result, at);
  }

  lemma SettledLeavesNoMarker(db: Db, token: Token, f: Flight, result: ProviderResult, at: int)
    requires FlightFits(db, token, f) && (f.job.Some? ==> LeaseFits(db, f.job.value)) && RowInv(db.rows[token.key])
    requires token.key in Settle(db, token, f.job, result, at).rows && RowInv(Settle(db, token, f.job, result, at).rows[token.key])
    ensures var r := Settle(db, token, f.job, result, at).rows[token.key];
            !HasStarted(r) && (r.sendJob.Some? ==> !r.sendJob.value.state.Leased?)
  {
    var r := db.rows[token.key];
    assert token.no == |r.attempts| - 1;
  }
}
