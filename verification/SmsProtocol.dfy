/**
 * Workers, direct senders, recovery, reconcilers and receipt callbacks acting concurrently on one database.
 * A process that passed its marker is named by its dispatch token; every step below is one transaction,
 * one provider call, or a crash.
 */
module SmsProtocol {
  import opened Basics
  import opened SmsStatus
  import opened SmsStore
  import opened SmsTransactions

  /** Where the process holding a dispatch token stands. */
  datatype Phase = Ready | Cleared | Dispatched
  datatype Flight = Flight(phase: Phase, job: Option<Snapshot>)

  datatype State = State(
    db: Db,
    flights: map<Token, Flight>,  // processes between their marker and their completion
    sends: seq<Token>,            // every provider request ever made, oldest first
    leases: set<Snapshot>,        // every send lease ever handed out
    seenDone: set<Key>)           // reconcile jobs whose worker read a message with nothing left to query

  datatype Step =
    | Enqueue(key: Key, maxAttempts: nat, now: int)
    | LeaseSend(key: Key, now: int, leaseMs: int)
    | Prepare(job: Snapshot, t: Timing, usable: bool, policy: Policy)
    | Clear(token: Token, t: Timing)
    | Send(token: Token)
    | Complete(token: Token, result: ProviderResult, at: int)
    | Crash(token: Token)
    | DirectPrepare(key: Key, usable: bool, policy: Policy, withinPhoneLimits: bool, now: int)
    | Recover(sel: Selection, before: int, limit: nat, at: int)
    | LeaseReconcile(key: Key, now: int, leaseMs: int)
    | ReadDone(key: Key)
    | Retire(key: Key, lease: nat)
    | Reschedule(key: Key, lease: nat, availableAt: int)
    | Record(key: Key, lease: nat, status: Delivery, now: int)
    | Finalize(key: Key, lease: nat, now: int)
    | Callback(key: Key, biz: string, status: Delivery)

  const INIT := State(Db(map[], map[]), map[], [], {}, {})

  /** Steps whose guard fails, and transactions that roll back, leave the database as it was. */
  function Next(s: State, step: Step): State {
    match step
    case Enqueue(key, maxAttempts, now) => if maxAttempts == 0 then s else s.(db := EnqueueTx(s.db, key, maxAttempts, now))
    case LeaseSend(key, now, leaseMs) =>
      (match LeaseTx(s.db, key, now, leaseMs)
       case Some((db, job)) => s.(db := db, leases := s.leases + {job})
       case None => s)
    case Prepare(job, t, usable, policy) =>
      if job !in s.leases then s
      else (match PrepareTx(s.db, job, t, usable, policy)
            case Ok((db, Some(token))) => s.(db := db, flights := s.flights[token := Flight(Ready, Some(job))])
            case Ok((db, None)) => s.(db := db)
            case Err(_) => s)
    case Clear(token, t) =>
      if token !in s.flights || !s.flights[token].phase.Ready? || s.flights[token].job.None? then s
      else (match ClearTx(s.db, s.flights[token].job.value, t)
            case Ok(db) => if t.Outlasts() then s.(db := db, flights := s.flights[token := s.flights[token].(phase := Cleared)])
                           else s.(db := db, flights := s.flights - {token})
            case Err(_) => s.(flights := s.flights - {token}))
    case Send(token) =>
      if token in s.flights && CanDispatch(s.flights[token])
      then s.(flights := s.flights[token := s.flights[token].(phase := Dispatched)], sends := s.sends + [token]) else s
    case Complete(token, result, at) =>
      if token !in s.flights || !s.flights[token].phase.Dispatched? then s
      else s.(db := Settle(s.db, token, s.flights[token].job, result, at), flights := s.flights - {token})
    case Crash(token) => s.(flights := s.flights - {token})
    case DirectPrepare(key, usable, policy, withinPhoneLimits, now) =>
      (match DirectPrepareTx(s.db, key, usable, policy, withinPhoneLimits, now)
       case Ok((db, Some(token))) => s.(db := db, flights := s.flights[token := Flight(Ready, None)])
       case _ => s)
    case Recover(sel, before, limit, at) =>
      if ValidSelection(s.db, sel, before, limit) && RecoverTx(s.db, sel, before, limit, at).Ok?
      then s.(db := RecoverTx(s.db, sel, before, limit, at).value) else s
    case LeaseReconcile(key, now, leaseMs) =>
      (match ReconcileLeaseTx(s.db, key, now, leaseMs) case Some((db, _)) => s.(db := db) case None => s)
    case ReadDone(key) =>
      if key in s.db.rows && s.db.rows[key].reconcileJob.Some? && s.db.rows[key].reconcileJob.value.generation > 0
         && !Reconcilable(s.db.rows[key])
      then s.(seenDone := s.seenDone + {key}) else s
    case Retire(key, lease) => if key in s.seenDone then s.(db := RetireTx(s.db, key, lease)) else s
    case Reschedule(key, lease, availableAt) => s.(db := RescheduleTx(s.db, key, lease, availableAt))
    case Record(key, lease, status, now) =>
      if (status.Delivered? || status.Failed?) && RecordTx(s.db, key, lease, status, now).Ok?
      then s.(db := RecordTx(s.db, key, lease, status, now).value) else s
    case Finalize(key, lease, now) =>
      if FinalizeTx(s.db, key, lease, now).Ok? then s.(db := FinalizeTx(s.db, key, lease, now).value) else s
    case Callback(key, biz, status) =>
      if status.Delivered? || status.Failed? then s.(db := CallbackTx(s.db, key, biz, status)) else s
  }

  /** A queued worker renews its lease before it dispatches; a direct sender dispatches straight away. */
  predicate CanDispatch(f: Flight) { if f.job.Some? then f.phase.Cleared? else f.phase.Ready? }

  function Settle(db: Db, token: Token, job: Option<Snapshot>, result: ProviderResult, at: int): Db {
    var r := if job.Some? then CompleteTx(db, job.value, token, result, at) else DirectCompleteTx(db, token, result, at);
    if r.Ok? then r.value else db
  }

  function Run(s: State, steps: seq<Step>): State
    decreases |steps|
  {
    if steps == [] then s else Next(Run(s, steps[..|steps| - 1]), steps[|steps| - 1])
  }

  // ----- the invariant of one message -----

  predicate AllRejected(attempts: seq<Attempt>) {
    forall i | 0 <= i < |attempts| :: attempts[i].status.AttemptRejected?
  }

  /** Only the newest attempt may be anything but rejected, and it fits the acceptance of its message. */
  predicate AttemptsFit(r: Row) {
    var n := |r.attempts|;
    && (forall i | 0 <= i < n - 1 :: r.attempts[i].status.AttemptRejected?)
    && match r.acceptance
       case Pending => n == 0 || r.attempts[n - 1].status.AttemptRejected? || r.attempts[n - 1].status.Started?
       case Unknown => n > 0 && r.attempts[n - 1].status.AttemptUnknown?
       case Accepted => n > 0 && (r.attempts[n - 1].status.AttemptAccepted? || r.attempts[n - 1].status.AttemptUnknown?)
       case Rejected => n == 0 || r.attempts[n - 1].status.AttemptRejected?
  }

  predicate Marker(r: Row) { |r.attempts| > 0 && r.attempts[|r.attempts| - 1].status.Started? }

  /** A queued message waits on its job exactly while it is pending, and a marker belongs to the current lease. */
  predicate JobFits(r: Row) {
    match r.sendJob
    case None => |r.attempts| == 1 && r.attempts[0].mode.Direct? && (r.acceptance.Pending? ==> Marker(r))
    case Some(j) =>
      && (forall i | 0 <= i < |r.attempts| :: r.attempts[i].mode.Queued?)
      && (r.acceptance.Pending? <==> j.Open())
      && (j.state.Leased? ==> j.state.token == j.generation)
      && |r.attempts| <= j.maxAttempts
      && (r.acceptance.Pending? ==> |r.attempts| == j.attemptCount + (if Marker(r) then 1 else 0) && j.attemptCount < j.maxAttempts)
      && (Marker(r) ==> j.Owned(r.attempts[|r.attempts| - 1].mode.lease))
  }

  predicate BudgetFits(r: Row) {
    && (r.reservation.Held? <==> |r.attempts| > 0 && !r.acceptance.Rejected?)
    && (r.reservation.Released? ==> r.acceptance.Rejected?)
  }

  predicate DeliveryFits(r: Row) {
    && (r.acceptance.Pending? ==> r.delivery.NotApplicable? && r.reconcileJob.None?)
    && (r.acceptance.Accepted? || r.acceptance.Unknown? ==> !r.delivery.NotApplicable?)
    && (Reconcilable(r) ==> r.reconcileJob.Some? && r.reconcileJob.value.Open())
    && (r.acceptance.Accepted? && r.delivery.Waiting? ==> |r.attempts| > 0 && r.attempts[|r.attempts| - 1].status.AttemptAccepted?)
    && (r.bizId.Some? ==> r.acceptance.Accepted?)
    && (!r.acceptance.Pending? || r.sendJob.None? ==> !r.renderParams)
  }

  predicate RowInv(r: Row) { AttemptsFit(r) && JobFits(r) && BudgetFits(r) && DeliveryFits(r) }

  // ----- the invariant of the whole system -----

  ghost function HeldKeys(rows: map<Key, Row>, day: int): set<Key> { set k | k in rows && rows[k].reservation == Held(day) }

  ghost predicate BudgetInv(db: Db) { forall day: int :: HeldOn(db, day) == |HeldKeys(db.rows, day)| }

  predicate RowsInv(db: Db) { forall k | k in db.rows :: RowInv(db.rows[k]) }

  predicate HasAttempt(db: Db, t: Token) { t.key in db.rows && t.no < |db.rows[t.key].attempts| }

  /** The attempt a live process still answers for. */
  predicate FlightFits(db: Db, t: Token, f: Flight) {
    && HasAttempt(db, t)
    && var a := db.rows[t.key].attempts[t.no];
       && (a.status.Started? || a.status.AttemptUnknown?)
       && (f.job.Some? <==> a.mode.Queued?)
       && (f.job.Some? ==> f.job.value.key == t.key && f.job.value.lease == a.mode.lease)
  }

  predicate LeaseFits(db: Db, job: Snapshot) {
    && HasJob(db, job.key)
    && var j := db.rows[job.key].sendJob.value;
       && job.lease <= j.generation
       && (j.Owned(job.lease) ==> j.attemptCount == job.attemptCount && j.maxAttempts == job.maxAttempts)
  }

  predicate DoneFits(db: Db, key: Key) {
    key in db.rows && !db.rows[key].acceptance.Pending? && !Reconcilable(db.rows[key])
  }

  predicate ProcessInv(s: State) {
    && (forall t | t in s.flights :: FlightFits(s.db, t, s.flights[t]))
    && (forall t | t in s.flights && s.flights[t].job.Some? :: s.flights[t].job.value in s.leases)
    && (forall job | job in s.leases :: LeaseFits(s.db, job))
    && (forall k | k in s.seenDone :: DoneFits(s.db, k))
  }

  predicate SendsInv(s: State) {
    && Distinct(s.sends)
    && (forall t | t in s.sends :: HasAttempt(s.db, t))
    && (forall t | t in s.flights :: t in s.sends <==> s.flights[t].phase.Dispatched?)
  }

  ghost predicate Inv(s: State) { RowsInv(s.db) && BudgetInv(s.db) && ProcessInv(s) && SendsInv(s) }
}
