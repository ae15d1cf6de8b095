/** Every step of the sms-kit protocol keeps its invariant; the theorems over whole runs follow. */
module SmsSafety {
  import opened Basics
  import opened SmsStatus
  import opened SmsStore
  import opened SmsTransactions
  import opened SmsProtocol

  // ----- what a step may do to a row, whoever else is in flight -----

  predicate AttemptEvolves(a: Attempt, a': Attempt, settled: bool) {
    && a.mode == a'.mode
    && (a.status.AttemptRejected? ==> a'.status.AttemptRejected?)
    && (!settled && (a.status.Started? || a.status.AttemptUnknown?) ==> a'.status.Started? || a'.status.AttemptUnknown?)
  }

  predicate JobEvolves(j: Option<Job>, j': Option<Job>) {
    j.Some? ==>
      && j'.Some?
      && j.value.generation <= j'.value.generation
      && (j'.value.state.Leased? && j'.value.state.token <= j.value.generation ==>
            j.value.Owned(j'.value.state.token)
            && j'.value.attemptCount == j.value.attemptCount && j'.value.maxAttempts == j.value.maxAttempts)
  }

  predicate RowEvolves(r: Row, r': Row, settled: Option<nat>) {
    && StatusMove(r.acceptance, r.delivery, r'.acceptance, r'.delivery)
    && |r.attempts| <= |r'.attempts|
    && (forall i | 0 <= i < |r.attempts| :: AttemptEvolves(r.attempts[i], r'.attempts[i], settled == Some(i)))
    && JobEvolves(r.sendJob, r'.sendJob)
  }

  predicate Evolves(db: Db, db': Db, settled: Option<Token>) {
    forall k | k in db.rows :: k in db'.rows &&
      RowEvolves(db.rows[k], db'.rows[k], if settled.Some? && settled.value.key == k then Some(settled.value.no) else None)
  }

  ghost predicate Sound(db: Db, db': Db, settled: Option<Token>) { RowsInv(db') && BudgetInv(db') && Evolves(db, db', settled) }

  lemma EvolvesKeepsLease(db: Db, db': Db, settled: Option<Token>, job: Snapshot)
    requires Evolves(db, db', settled) && LeaseFits(db, job)
    ensures LeaseFits(db', job)
  {
    assert JobEvolves(db.rows[job.key].sendJob, db'.rows[job.key].sendJob);
  }

  lemma EvolvesKeepsDone(db: Db, db': Db, settled: Option<Token>, key: Key)
    requires Evolves(db, db', settled) && DoneFits(db, key) && RowInv(db.rows[key])
    ensures DoneFits(db', key)
  {
  }

  lemma EvolvesKeepsProcesses(s: State, db': Db, flights': map<Token, Flight>, settled: Option<Token>)
    requires Inv(s) && Evolves(s.db, db', settled) && (settled.Some? ==> settled.value !in flights')
    requires forall t | t in flights' :: t in s.flights && flights'[t] == s.flights[t]
    ensures ProcessInv(s.(db := db', flights := flights')) && SendsInv(s.(db := db', flights := flights'))
  {
    forall t | t in flights' ensures FlightFits(db', t, flights'[t]) { assert FlightFits(s.db, t, s.flights[t]); }
    forall job | job in s.leases ensures LeaseFits(db', job) { EvolvesKeepsLease(s.db, db', settled, job); }
    forall k | k in s.seenDone ensures DoneFits(db', k) { EvolvesKeepsDone(s.db, db', settled, k); }
  }

  /** A transaction that settles nobody keeps the system's invariant. */
  lemma SoundKeepsInv(s: State, db': Db)
    requires Inv(s) && Sound(s.db, db', None)
    ensures Inv(s.(db := db'))
  {
    EvolvesKeepsProcesses(s, db', s.flights, None);
  }

  /** So does one that ends the process it settles. */
  lemma LandKeepsInv(s: State, db': Db, token: Token)
    requires Inv(s) && Sound(s.db, db', Some(token))
    ensures Inv(s.(db := db', flights := s.flights - {token}))
  {
    EvolvesKeepsProcesses(s, db', s.flights - {token}, Some(token));
  }

  /** A new marker puts a new process in flight; nobody has sent under its token yet. */
  lemma LaunchKeepsInv(s: State, token: Token, f: Flight)
    requires Inv(s) && token !in s.sends && FlightFits(s.db, token, f) && f.phase.Ready?
    requires f.job.Some? ==> f.job.value in s.leases
    ensures Inv(s.(flights := s.flights[token := f]))
  {
  }

  lemma GrantKeepsInv(s: State, job: Snapshot)
    requires Inv(s) && LeaseFits(s.db, job)
    ensures Inv(s.(leases := s.leases + {job}))
  {
  }

  /** Dropping a process, clearing it, or sending its one request leaves the database alone. */
  lemma CrashKeepsInv(s: State, token: Token)
    requires Inv(s)
    ensures Inv(s.(flights := s.flights - {token}))
  {
  }

  lemma ClearedKeepsInv(s: State, token: Token)
    requires Inv(s) && token in s.flights && s.flights[token].phase.Ready?
    ensures Inv(s.(flights := s.flights[token := s.flights[token].(phase := Cleared)]))
  {
  }

  lemma SendKeepsInv(s: State, token: Token)
    requires Inv(s) && token in s.flights && !s.flights[token].phase.Dispatched?
    ensures Inv(s.(flights := s.flights[token := s.flights[token].(phase := Dispatched)], sends := s.sends + [token]))
  {
  }

  lemma SeenKeepsInv(s: State, key: Key)
    requires Inv(s) && DoneFits(s.db, key)
    ensures Inv(s.(seenDone := s.seenDone + {key}))
  {
  }

  // ----- budget bookkeeping -----

  lemma SameReservations(db: Db, db': Db)
    requires BudgetInv(db) && db.held == db'.held
    requires forall k | k in db.rows :: k in db'.rows && db'.rows[k].reservation == db.rows[k].reservation
    requires forall k | k in db'.rows && k !in db.rows :: db'.rows[k].reservation.NoReservation?
    ensures BudgetInv(db')
  {
    forall day: int ensures HeldOn(db', day) == |HeldKeys(db'.rows, day)| {
      assert HeldKeys(db.rows, day) == HeldKeys(db'.rows, day);
      assert HeldOn(db, day) == |HeldKeys(db.rows, day)|;
    }
  }

  lemma HoldKeepsBudget(db: Db, key: Key, r: Row, day: int)
    requires BudgetInv(db) && r.reservation == Held(day)
    requires key in db.rows ==> db.rows[key].reservation.NoReservation?
    ensures BudgetInv(Db(db.rows[key := r], db.held[day := HeldOn(db, day) + 1]))
  {
    var db' := Db(db.rows[key := r], db.held[day := HeldOn(db, day) + 1]);
    forall d: int ensures HeldOn(db', d) == |HeldKeys(db'.rows, d)| {
      assert HeldOn(db, d) == |HeldKeys(db.rows, d)|;
      if d == day {
        assert HeldKeys(db'.rows, d) == HeldKeys(db.rows, d) + {key};
      } else {
        assert HeldKeys(db'.rows, d) == HeldKeys(db.rows, d);
      }
    }
  }

  lemma ReleaseKeepsBudget(db: Db, key: Key)
    requires BudgetInv(db) && key in db.rows
    ensures BudgetInv(ReleaseBudget(db, key))
  {
    if db.rows[key].reservation.Held? {
      var day := db.rows[key].reservation.day;
      var db' := ReleaseBudget(db, key);
      assert HeldOn(db, day) == |HeldKeys(db.rows, day)|;
      assert key in HeldKeys(db.rows, day);
      forall d: int ensures HeldOn(db', d) == |HeldKeys(db'.rows, d)| {
        assert HeldOn(db, d) == |HeldKeys(db.rows, d)|;
        if d == day {
          assert HeldKeys(db'.rows, d) == HeldKeys(db.rows, d) - {key};
        } else {
          assert HeldKeys(db'.rows, d) == HeldKeys(db.rows, d);
        }
      }
    }
  }

  // ----- one lemma per transaction -----

  /** A transaction that rewrites one row and leaves its reservation alone. */
  lemma PutSound(db: Db, key: Key, r': Row, settled: Option<Token>)
    requires RowsInv(db) && BudgetInv(db) && key in db.rows && RowInv(r') && r'.reservation == db.rows[key].reservation
    requires settled.Some? ==> settled.value.key == key
    requires RowEvolves(db.rows[key], r', if settled.Some? then Some(settled.value.no) else None)
    ensures Sound(db, Put(db, key, r'), settled)
  {
    SameReservations(db, Put(db, key, r'));
    forall k | k in db.rows && k != key ensures RowEvolves(db.rows[k], db.rows[k], None) { }
  }

  lemma EnqueueSound(db: Db, key: Key, maxAttempts: nat, now: int)
    requires RowsInv(db) && BudgetInv(db) && maxAttempts > 0
    ensures Sound(db, EnqueueTx(db, key, maxAttempts, now), None)
  {
    SameReservations(db, EnqueueTx(db, key, maxAttempts, now));
  }

  /** A pending message with no started attempt has only rejected ones, so a new marker is safe. */
  lemma MarkedRowSound(r: Row, lease: nat, t: Timing, reservation: Reservation)
    requires RowInv(r) && r.acceptance.Pending? && r.sendJob.Some? && r.sendJob.value.Owned(lease) && !HasStarted(r)
    requires reservation.Held? && (r.reservation.NoReservation? || r.reservation == reservation)
    ensures RowInv(MarkedRow(r, lease, t, reservation)) && RowEvolves(r, MarkedRow(r, lease, t, reservation), None)
    ensures AllRejected(r.attempts)
  {
    assert |r.attempts| > 0 ==> r.attempts[|r.attempts| - 1] in r.attempts;
  }

  /** A transaction that rewrites one row and takes its first reservation. */
  lemma HoldSound(db: Db, key: Key, r': Row, day: int)
    requires RowsInv(db) && BudgetInv(db) && r'.reservation == Held(day) && RowInv(r')
    requires key in db.rows ==> db.rows[key].reservation.NoReservation? && RowEvolves(db.rows[key], r', None)
    ensures Sound(db, Db(db.rows[key := r'], db.held[day := HeldOn(db, day) + 1]), None)
  {
    HoldKeepsBudget(db, key, r', day);
    forall k | k in db.rows && k != key ensures RowEvolves(db.rows[k], db.rows[k], None) { }
  }

  lemma RejectedRowSound(r: Row)
    requires RowInv(r) && r.sendJob.Some? && r.acceptance.Pending? && AllRejected(r.attempts)
    ensures var r' := RejectedRow(r); RowInv(if r'.reservation.Held? then r'.(reservation := Released(r'.reservation.day)) else r')
    ensures RowEvolves(r, RejectedRow(r), None)
  {
  }

  lemma MarkedDbSound(db: Db, job: Snapshot, t: Timing)
    requires RowsInv(db) && BudgetInv(db) && HasJob(db, job.key)
    requires var r := db.rows[job.key]; r.acceptance.Pending? && r.sendJob.value.Owned(job.lease) && !HasStarted(r)
    ensures Sound(db, MarkedDb(db, job, t), None)
  {
    var r := db.rows[job.key];
    var reservation := if r.reservation.NoReservation? then Held(UtcDay(t.later)) else r.reservation;
    MarkedRowSound(r, job.lease, t, reservation);
    if r.reservation.NoReservation? {
      HoldSound(db, job.key, MarkedRow(r, job.lease, t, reservation), UtcDay(t.later));
    } else {
      PutSound(db, job.key, MarkedRow(r, job.lease, t, reservation), None);
    }
  }

  lemma RejectedDbSound(db: Db, key: Key)
    requires RowsInv(db) && BudgetInv(db) && HasJob(db, key)
    requires var r := db.rows[key]; r.acceptance.Pending? && forall a | a in r.attempts :: a.status.AttemptRejected?
    ensures Sound(db, ReleaseBudget(Put(db, key, RejectedRow(db.rows[key])), key), None)
  {
    var r := db.rows[key];
    forall i | 0 <= i < |r.attempts| ensures r.attempts[i].status.AttemptRejected? { assert r.attempts[i] in r.attempts; }
    RejectedRowSound(r);
    FinishSettle(db, key, None, RejectedRow(r), Reject);
  }

  lemma PrepareSound(db: Db, job: Snapshot, t: Timing, usable: bool, policy: Policy)
    requires RowsInv(db) && BudgetInv(db) && PrepareTx(db, job, t, usable, policy).Ok?
    ensures Sound(db, PrepareTx(db, job, t, usable, policy).value.0, None)
  {
    if usable { MarkedDbSound(db, job, t); } else { RejectedDbSound(db, job.key); }
  }

  /** The new marker is the message's next attempt, and every earlier attempt was definitively rejected. */
  lemma PrepareOnlyAfterRejection(db: Db, job: Snapshot, t: Timing, usable: bool, policy: Policy)
    requires RowsInv(db) && PrepareTx(db, job, t, usable, policy).Ok? && PrepareTx(db, job, t, usable, policy).value.1.Some?
    ensures var (db', token) := PrepareTx(db, job, t, usable, policy).value;
            token.value == Token(job.key, |db.rows[job.key].attempts|) && FlightFits(db', token.value, Flight(Ready, Some(job)))
    ensures AllRejected(db.rows[job.key].attempts)
  {
    var r := db.rows[job.key];
    assert |r.attempts| > 0 ==> r.attempts[|r.attempts| - 1] in r.attempts;
  }

  lemma DirectPrepareSound(db: Db, key: Key, usable: bool, policy: Policy, within: bool, now: int)
    requires RowsInv(db) && BudgetInv(db)
    ensures var r := DirectPrepareTx(db, key, usable, policy, within, now);
            r.Ok? ==> Sound(db, r.value.0, None)
                      && (r.value.1.Some? ==> r.value.1.value == Token(key, 0) && key !in db.rows
                                              && FlightFits(r.value.0, r.value.1.value, Flight(Ready, None)))
  {
    var r := DirectPrepareTx(db, key, usable, policy, within, now);
    if r.Ok? && r.value.1.Some? {
      HoldKeepsBudget(db, key, r.value.0.rows[key], UtcDay(now));
    }
  }

  /** A process in flight answers for the newest attempt, so settling it keeps the row's invariant. */
  lemma SettledSound(r: Row, no: nat, job: Snapshot, v: Verdict, at: int)
    requires RowInv(r) && no < |r.attempts| && (r.attempts[no].status.Started? || r.attempts[no].status.AttemptUnknown?)
    requires v.Uncertain? ==> r.acceptance.Pending?
    requires v.Accept? || v.Uncertain? || v.Reject? ==> r.acceptance.Pending? || r.acceptance.Unknown?
    requires r.acceptance.Pending? && r.sendJob.Some? ==>
               r.attempts[no].mode.Queued? && r.attempts[no].mode.lease == job.lease
               && r.sendJob.value.attemptCount == job.attemptCount && r.sendJob.value.maxAttempts == job.maxAttempts
    requires v.Retry? ==> r.acceptance.Pending? && r.sendJob.Some? && !job.Exhausted()
    ensures var r' := Settled(r, no, job, v, at);
            RowInv(if v.Reject? && r'.reservation.Held? then r'.(reservation := Released(r'.reservation.day)) else r')
    ensures RowEvolves(r, Settled(r, no, job, v, at), Some(no))
  {
    assert no == |r.attempts| - 1;
  }

  lemma QueuedCompleteSound(db: Db, token: Token, job: Snapshot, result: ProviderResult, at: int)
    requires RowsInv(db) && BudgetInv(db) && FlightFits(db, token, Flight(Dispatched, Some(job))) && LeaseFits(db, job)
    ensures CompleteTx(db, job, token, result, at).Ok?
    ensures Sound(db, CompleteTx(db, job, token, result, at).value, Some(token))
  {
    var r := db.rows[token.key];
    assert RowInv(r) && token.no == |r.attempts| - 1;
    var v := Judge(r, token.no, job, result);
    assert !AttemptRefuses(r.attempts[token.no].status, v);
    SettledSound(r, token.no, job, v, at);
    FinishSettle(db, token.key, Some(token.no), Settled(r, token.no, job, v, at), v);
    assert CompleteTx(db, job, token, result, at).value == Finished(db, token.key, Settled(r, token.no, job, v, at), v);
  }

  lemma DirectCompleteSound(db: Db, token: Token, result: ProviderResult, at: int)
    requires RowsInv(db) && BudgetInv(db) && FlightFits(db, token, Flight(Dispatched, None))
    requires DirectCompleteTx(db, token, result, at).Ok?
    ensures Sound(db, DirectCompleteTx(db, token, result, at).value, Some(token))
  {
    var r := db.rows[token.key];
    assert RowInv(r) && token.no == |r.attempts| - 1;
    var v := DirectVerdict(result);
    var snapshot := Snapshot(token.key, 0, 0, 0);
    SettledSound(r, token.no, snapshot, v, at);
    FinishSettle(db, token.key, Some(token.no), Settled(r, token.no, snapshot, v, at), v);
    assert DirectCompleteTx(db, token, result, at).value == Finished(db, token.key, Settled(r, token.no, snapshot, v, at), v);
  }

  lemma CompleteSound(db: Db, token: Token, job: Option<Snapshot>, result: ProviderResult, at: int)
    requires RowsInv(db) && BudgetInv(db)
    requires FlightFits(db, token, Flight(Dispatched, job)) && (job.Some? ==> LeaseFits(db, job.value))
    ensures Sound(db, Settle(db, token, job, result, at), Some(token))
    ensures job.Some? ==> CompleteTx(db, job.value, token, result, at).Ok?
  {
    if job.Some? {
      QueuedCompleteSound(db, token, job.value, result, at);
    } else if DirectCompleteTx(db, token, result, at).Ok? {
      DirectCompleteSound(db, token, result, at);
    } else {
      forall k | k in db.rows
        ensures RowEvolves(db.rows[k], db.rows[k], if token.key == k then Some(token.no) else None)
      { }
    }
  }

  function Finished(db: Db, key: Key, r': Row, v: Verdict): Db {
    if v.Reject? then ReleaseBudget(Put(db, key, r'), key) else Put(db, key, r')
  }

  lemma FinishSettle(db: Db, key: Key, no: Option<nat>, r': Row, v: Verdict)
    requires RowsInv(db) && BudgetInv(db) && key in db.rows && r'.reservation == db.rows[key].reservation
    requires RowInv(if v.Reject? && r'.reservation.Held? then r'.(reservation := Released(r'.reservation.day)) else r')
    requires RowEvolves(db.rows[key], r', no)
    ensures Sound(db, Finished(db, key, r', v), if no.Some? then Some(Token(key, no.value)) else None)
  {
    SameReservations(db, Put(db, key, r'));
    ReleaseKeepsBudget(Put(db, key, r'), key);
    forall k | k in db.rows && k != key ensures RowEvolves(db.rows[k], db.rows[k], None) { }
  }

  /** A recovery batch never rolls back: a started marker is always on a pending message. */
  lemma RecoverSound(db: Db, sel: Selection, before: int, limit: nat, at: int)
    requires RowsInv(db) && BudgetInv(db) && ValidSelection(db, sel, before, limit)
    ensures RecoverTx(db, sel, before, limit, at).Ok? && Sound(db, RecoverTx(db, sel, before, limit, at).value, None)
  {
    forall k | k in db.rows
      ensures RowInv(RecoveredRow(db.rows[k], k, sel, at)) && RowEvolves(db.rows[k], RecoveredRow(db.rows[k], k, sel, at), None)
      ensures RecoveredRow(db.rows[k], k, sel, at).reservation == db.rows[k].reservation
      ensures sel.Marks(k) ==> db.rows[k].acceptance.Pending?
    {
    }
    SameReservations(db, RecoverTx(db, sel, before, limit, at).value);
  }

  lemma LeasedRowSound(r: Row, now: int, leaseMs: int)
    requires RowInv(r) && r.sendJob.Some? && r.sendJob.value.state.JobPending?
    ensures RowInv(r.(sendJob := Some(GrantLease(r.sendJob.value, now, leaseMs))))
    ensures RowEvolves(r, r.(sendJob := Some(GrantLease(r.sendJob.value, now, leaseMs))), None)
  {
  }

  /** Reconciliation and receipts touch only the delivery, a query promotion, and the reconcile job. */
  lemma ReconciledRowSound(r: Row, a: Acceptance, d: Delivery, j: Option<Job>)
    requires RowInv(r) && (a == r.acceptance || (r.acceptance.Unknown? && a.Accepted? && !d.Waiting?))
    requires d == r.delivery || (DeliveryTransition(r.delivery, d) && !d.Waiting? && !r.acceptance.Pending?)
    requires j == r.reconcileJob || (r.reconcileJob.Some? && j.Some? && (j.value.Open() || !Reconcilable(r.(acceptance := a, delivery := d))))
    ensures RowInv(r.(acceptance := a, delivery := d, reconcileJob := j))
    ensures RowEvolves(r, r.(acceptance := a, delivery := d, reconcileJob := j), None)
  {
  }

  lemma ReconcileStepSound(s: State, step: Step)
    requires Inv(s) && (step.LeaseReconcile? || step.Retire? || step.Reschedule? || step.Record? || step.Finalize? || step.Callback?)
    ensures Sound(s.db, Next(s, step).db, None)
  {
    var db' := Next(s, step).db;
    if db' != s.db {
      var r, r' := s.db.rows[step.key], db'.rows[step.key];
      assert r' == r.(acceptance := r'.acceptance, delivery := r'.delivery, reconcileJob := r'.reconcileJob);
      ReconciledRowSound(r, r'.acceptance, r'.delivery, r'.reconcileJob);
      PutSound(s.db, step.key, r', None);
      assert db' == Put(s.db, step.key, r');
    }
  }

  lemma LeaseStepSound(s: State, key: Key, now: int, leaseMs: int)
    requires Inv(s) && LeaseTx(s.db, key, now, leaseMs).Some?
    ensures Sound(s.db, LeaseTx(s.db, key, now, leaseMs).value.0, None)
    ensures LeaseFits(LeaseTx(s.db, key, now, leaseMs).value.0, LeaseTx(s.db, key, now, leaseMs).value.1)
  {
    var r := s.db.rows[key];
    LeasedRowSound(r, now, leaseMs);
    PutSound(s.db, key, r.(sendJob := Some(GrantLease(r.sendJob.value, now, leaseMs))), None);
  }

  lemma ClearStepSound(db: Db, job: Snapshot, t: Timing)
    requires RowsInv(db) && BudgetInv(db) && ClearTx(db, job, t).Ok?
    ensures Sound(db, ClearTx(db, job, t).value, None)
  {
    var r := db.rows[job.key];
    var r' := RenewedRow(r, job.lease, t.now + t.leaseMs);
    assert RowInv(r) && r.sendJob.Some? && r.sendJob.value.Owned(job.lease);
    assert ClearTx(db, job, t).value == Put(db, job.key, r');
    assert r'.reservation == r.reservation;
    PutSound(db, job.key, r', None);
  }
}
