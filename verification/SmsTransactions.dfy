/**
 * What each sms-kit transaction does to the database, stated as one outcome per case.
 * The services in SmsServices reach these outcomes statement by statement.
 */
module SmsTransactions {
  import opened Basics
  import opened SmsStatus
  import opened SmsStore

  /** A send job as its worker saw it when it took the lease. */
  datatype Snapshot = Snapshot(key: Key, lease: nat, attemptCount: nat, maxAttempts: nat) {
    predicate Exhausted() { attemptCount + 1 >= maxAttempts }
  }

  datatype ProviderResult = ProviderAccepted(bizId: string) | ProviderUnknown | ProviderRejected(retryable: bool)

  /** Clock readings and settings of one worker call; `later` is read after `now`. */
  datatype Timing = Timing(now: int, later: int, leaseMs: int, timeoutMs: int) {
    /** A lease renewed at `now` outlasts a provider call started at `later`. */
    predicate Outlasts() { now + leaseMs > later + timeoutMs }
  }

  function Pow2(n: nat): (p: nat)
    ensures p >= 1
  {
    if n == 0 then 1 else 2 * Pow2(n - 1)
  }

  function Backoff(attemptCount: nat): int {
    var delay := 1_000 * Pow2(attemptCount);
    if delay < 60_000 then delay else 60_000
  }

  predicate HasJob(db: Db, key: Key) { key in db.rows && db.rows[key].sendJob.Some? }

  // ----- enqueue and lease -----

  /** An existing message of the same idempotency key is returned unchanged. */
  function EnqueueTx(db: Db, key: Key, maxAttempts: nat, now: int): Db {
    if key in db.rows then db else Put(db, key, NewRow(true, Some(NewJob(now, maxAttempts))))
  }

  function LeaseTx(db: Db, key: Key, now: int, leaseMs: int): Option<(Db, Snapshot)> {
    if HasJob(db, key) && Leasable(db.rows[key].sendJob.value, now) then
      var j := GrantLease(db.rows[key].sendJob.value, now, leaseMs);
      Some((Put(db, key, db.rows[key].(sendJob := Some(j))), Snapshot(key, j.generation, j.attemptCount, j.maxAttempts)))
    else None
  }

  // ----- the queued worker -----

  /** The marker transaction: it either starts one attempt, rejects unusable work, or changes nothing. */
  function PrepareTx(db: Db, job: Snapshot, t: Timing, usable: bool, policy: Policy): Result<(Db, Option<Token>)> {
    if !HasJob(db, job.key) || Renew(db.rows[job.key].sendJob, job.lease, t.leaseMs, t.now).Err?
       || !t.Outlasts() || !db.rows[job.key].acceptance.Pending?
    then Err(ConcurrentModification)
    else
      var r := db.rows[job.key];
      var j := r.sendJob.value;
      if !usable then
        if exists a | a in r.attempts :: !a.status.AttemptRejected? then Err(ConcurrentModification)
        else Ok((ReleaseBudget(Put(db, job.key, RejectedRow(r)), job.key), None))
      else if policy.circuitOpen then Err(CircuitOpen)
      else if r.reservation.NoReservation? && policy.dailyBudget.Some? && HeldOn(db, UtcDay(t.later)) >= policy.dailyBudget.value
      then Err(BudgetExceeded)
      else if HasStarted(r) then Err(ConcurrentModification)
      else Ok((MarkedDb(db, job, t), Some(Token(job.key, |r.attempts|))))
  }

  /** Work whose template or signature is no longer usable ends before any provider request. */
  function RejectedRow(r: Row): Row
    requires r.sendJob.Some?
  {
    r.(acceptance := Rejected, delivery := NotApplicable, renderParams := false, sendJob := Some(r.sendJob.value.(state := Dead)))
  }

  function MarkedRow(r: Row, lease: nat, t: Timing, reservation: Reservation): Row
    requires r.sendJob.Some?
  {
    r.(attempts := r.attempts + [Attempt(Started, Queued(lease), t.later)],
       sendJob := Some(r.sendJob.value.(state := Leased(lease, t.now + t.leaseMs))), reservation := reservation)
  }

  /** The marker is charged to the budget once per message. */
  function MarkedDb(db: Db, job: Snapshot, t: Timing): Db
    requires HasJob(db, job.key)
  {
    var r := db.rows[job.key];
    var day := UtcDay(t.later);
    if r.reservation.NoReservation?
    then Db(db.rows[job.key := MarkedRow(r, job.lease, t, Held(day))], db.held[day := HeldOn(db, day) + 1])
    else Put(db, job.key, MarkedRow(r, job.lease, t, r.reservation))
  }

  /** Outside any transaction: the lease must still be current just before the provider call. */
  function ClearTx(db: Db, job: Snapshot, t: Timing): Result<Db> {
    if !HasJob(db, job.key) || Renew(db.rows[job.key].sendJob, job.lease, t.leaseMs, t.now).Err? then Err(ConcurrentModification)
    else Ok(Put(db, job.key, RenewedRow(db.rows[job.key], job.lease, t.now + t.leaseMs)))
  }

  function RenewedRow(r: Row, lease: nat, until: int): Row
    requires r.sendJob.Some?
  {
    r.(sendJob := Some(r.sendJob.value.(state := Leased(lease, until))))
  }

  datatype Verdict = Ignore | Accept(biz: string) | Uncertain | Reject | Retry

  /** How a late provider result is judged against the state it finds. */
  function Judge(r: Row, no: nat, job: Snapshot, result: ProviderResult): Verdict
    requires no < |r.attempts|
  {
    if r.acceptance.Accepted? || r.acceptance.Rejected? then Ignore
    else match result
      case ProviderAccepted(biz) => Accept(biz)
      case ProviderUnknown => if r.acceptance.Pending? && r.attempts[no].status.Started? then Uncertain else Ignore
      case ProviderRejected(retryable) =>
        if retryable && !job.Exhausted() && r.acceptance.Pending? && r.sendJob.Some? && r.sendJob.value.Owned(job.lease)
        then Retry else Reject
  }

  function Marked(r: Row, no: nat, status: AttemptStatus): seq<Attempt>
    requires no < |r.attempts|
  {
    r.attempts[no := r.attempts[no].(status := status)]
  }

  function Opened(d: Delivery): Delivery { if d.NotApplicable? then Waiting else d }

  function Settled(r: Row, no: nat, job: Snapshot, v: Verdict, at: int): Row
    requires no < |r.attempts|
  {
    match v
    case Ignore => r
    case Accept(biz) =>
      EnsureReconcile(r.(acceptance := Accepted, delivery := Opened(r.delivery), bizId := Some(biz), renderParams := false,
                         attempts := Marked(r, no, AttemptAccepted), sendJob := TrySucceed(r.sendJob, job.lease)), at)
    case Uncertain =>
      EnsureReconcile(r.(acceptance := Unknown, delivery := Opened(r.delivery), renderParams := false,
                         attempts := Marked(r, no, AttemptUnknown), sendJob := TrySucceed(r.sendJob, job.lease)), at)
    case Reject =>
      r.(acceptance := Rejected, renderParams := false, attempts := Marked(r, no, AttemptRejected),
         sendJob := TryFail(r.sendJob, job.lease))
    case Retry =>
      r.(attempts := Marked(r, no, AttemptRejected), sendJob := TryReschedule(r.sendJob, job.lease, at + Backoff(job.attemptCount)))
  }

  /** The attempt row refuses to move backward; the transaction then rolls back. */
  predicate AttemptRefuses(s: AttemptStatus, v: Verdict) {
    match v
    case Accept(_) => s.AttemptRejected?
    case Reject => s.AttemptAccepted?
    case Retry => s.AttemptAccepted? || s.AttemptRejected?
    case _ => false
  }

  function CompleteTx(db: Db, job: Snapshot, token: Token, result: ProviderResult, at: int): Result<Db> {
    if token.key !in db.rows || token.no >= |db.rows[token.key].attempts| then Ok(db)
    else
      var r := db.rows[token.key];
      var v := Judge(r, token.no, job, result);
      if AttemptRefuses(r.attempts[token.no].status, v) then Err(ConcurrentModification)
      else
        var db' := Put(db, token.key, Settled(r, token.no, job, v, at));
        Ok(if v.Reject? then ReleaseBudget(db', token.key) else db')
  }

  // ----- direct sends -----

  /** An existing direct message is authoritative and is never dispatched again. */
  function DirectPrepareTx(db: Db, key: Key, usable: bool, policy: Policy, withinPhoneLimits: bool, now: int): Result<(Db, Option<Token>)> {
    if !usable then Err(TemplateUnavailable)
    else if policy.circuitOpen then Err(CircuitOpen)
    else if key in db.rows then Ok((db, None))
    else if !withinPhoneLimits then Err(RateLimited)
    else if policy.dailyBudget.Some? && HeldOn(db, UtcDay(now)) >= policy.dailyBudget.value then Err(BudgetExceeded)
    else
      var r := NewRow(false, None).(attempts := [Attempt(Started, Direct, now)], reservation := Held(UtcDay(now)));
      Ok((Db(db.rows[key := r], db.held[UtcDay(now) := HeldOn(db, UtcDay(now)) + 1]), Some(Token(key, 0))))
  }

  function DirectVerdict(result: ProviderResult): Verdict {
    match result
    case ProviderAccepted(biz) => Accept(biz)
    case ProviderUnknown => Uncertain
    case ProviderRejected(_) => Reject
  }

  function VerdictStatus(v: Verdict): Acceptance
    requires v.Accept? || v.Uncertain? || v.Reject?
  {
    match v case Accept(_) => Accepted case Uncertain => Unknown case Reject => Rejected
  }

  /** No special case for late results: an illegal transition throws and rolls back. */
  function DirectCompleteTx(db: Db, token: Token, result: ProviderResult, at: int): Result<Db> {
    if token.key !in db.rows || token.no >= |db.rows[token.key].attempts| then Err(ConcurrentModification)
    else
      var r := db.rows[token.key];
      var v := DirectVerdict(result);
      var s := r.attempts[token.no].status;
      if !AcceptanceTransition(r.acceptance, VerdictStatus(v), SameDispatchResponse)
         || !(s.Started? || (s.AttemptUnknown? && !v.Uncertain?))
      then Err(ConcurrentModification)
      else
        // No send job is touched: a direct message has none, and the direct service never names one.
        var r' := Settled(r.(sendJob := None), token.no, Snapshot(token.key, 0, 0, 0), v, at)
                    .(sendJob := r.sendJob, renderParams := r.renderParams);
        var db' := Put(db, token.key, r');
        Ok(if v.Reject? then ReleaseBudget(db', token.key) else db')
  }

  // ----- recovery -----

  function StartedNo(attempts: seq<Attempt>): (no: nat)
    requires exists a | a in attempts :: a.status.Started?
    ensures no < |attempts| && attempts[no].status.Started?
  {
    if attempts[0].status.Started? then 0 else 1 + StartedNo(attempts[1..])
  }

  predicate Distinct<T(==)>(s: seq<T>) { forall i, j | 0 <= i < j < |s| :: s[i] != s[j] }

  /** The rows the database handed to one recovery batch; rows locked elsewhere may be missing from it. */
  datatype Selection = Selection(expired: seq<Key>, direct: seq<Key>, queued: seq<Key>) {
    predicate Marks(key: Key) { key in direct || key in queued }
  }

  predicate StartedIn(r: Row, mode: DispatchMode) { HasStarted(r) && r.attempts[StartedNo(r.attempts)].mode == mode }

  predicate ValidSelection(db: Db, sel: Selection, before: int, limit: nat) {
    && Distinct(sel.expired) && Distinct(sel.direct) && Distinct(sel.queued)
    && |sel.expired| <= limit && |sel.direct| <= limit && |sel.queued| <= limit - |sel.direct|
    && (forall k | k in sel.expired :: HasJob(db, k) && ExpiredLease(db.rows[k].sendJob, before))
    && (forall k | k in sel.direct ::
          k in db.rows && StartedIn(db.rows[k], Direct) && db.rows[k].attempts[StartedNo(db.rows[k].attempts)].markedAt < before)
    && (forall k | k in sel.queued :: k in sel.expired && StartedIn(db.rows[k], Queued(db.rows[k].sendJob.value.state.token)))
  }

  function ReturnUnmarked(r: Row): Row {
    if r.sendJob.Some? && r.sendJob.value.state.Leased? && !HasStarted(r)
    then r.(sendJob := Some(r.sendJob.value.(state := JobPending))) else r
  }

  /** An abandoned marker becomes acceptance-unknown; its job is finished, never resent. */
  function Abandoned(r: Row, at: int): Row
    requires HasStarted(r)
  {
    var no := StartedNo(r.attempts);
    var finished := match r.attempts[no].mode case Queued(t) => TrySucceed(r.sendJob, t) case Direct => r.sendJob;
    EnsureReconcile(r.(acceptance := Unknown, delivery := Opened(r.delivery), renderParams := false,
                       attempts := Marked(r, no, AttemptUnknown), sendJob := finished), at)
  }

  /** The whole batch, row by row; one marker whose message already left pending rolls it all back. */
  function RecoverTx(db: Db, sel: Selection, before: int, limit: nat, at: int): Result<Db>
    requires ValidSelection(db, sel, before, limit)
  {
    if exists k | k in db.rows && sel.Marks(k) :: !db.rows[k].acceptance.Pending? then Err(ConcurrentModification)
    else Ok(db.(rows := map k | k in db.rows :: RecoveredRow(db.rows[k], k, sel, at)))
  }

  function RecoveredRow(r: Row, k: Key, sel: Selection, at: int): Row
    requires sel.Marks(k) ==> HasStarted(r)
  {
    if sel.Marks(k) then Abandoned(r, at) else if k in sel.expired then ReturnUnmarked(r) else r
  }

  // ----- reconciliation and receipts -----

  predicate ReconcileOwned(db: Db, key: Key, token: nat) {
    key in db.rows && db.rows[key].reconcileJob.Some? && db.rows[key].reconcileJob.value.Owned(token)
  }

  function ReconcileLeaseTx(db: Db, key: Key, now: int, leaseMs: int): Option<(Db, nat)> {
    if key in db.rows && db.rows[key].reconcileJob.Some?
       && (Leasable(db.rows[key].reconcileJob.value, now) || ExpiredLease(db.rows[key].reconcileJob, now))
       && (db.rows[key].acceptance.Accepted? || db.rows[key].acceptance.Unknown?) && !db.rows[key].delivery.NotApplicable?
    then
      var j := GrantLease(db.rows[key].reconcileJob.value, now, leaseMs);
      Some((Put(db, key, db.rows[key].(reconcileJob := Some(j))), j.generation))
    else None
  }

  predicate Reconcilable(r: Row) { r.delivery.Waiting? && (r.acceptance.Accepted? || r.acceptance.Unknown?) }

  function RetireTx(db: Db, key: Key, token: nat): Db {
    if key in db.rows then Put(db, key, db.rows[key].(reconcileJob := TrySucceed(db.rows[key].reconcileJob, token))) else db
  }

  function RescheduleTx(db: Db, key: Key, token: nat, availableAt: int): Db {
    if key in db.rows then Put(db, key, db.rows[key].(reconcileJob := TryReschedule(db.rows[key].reconcileJob, token, availableAt))) else db
  }

  /** The lease is fenced before the receipt, the delivery and the job change together. */
  function RecordTx(db: Db, key: Key, token: nat, status: Delivery, now: int): Result<Db> {
    if !ReconcileOwned(db, key, token) || db.rows[key].reconcileJob.value.state.until <= now || !Reconcilable(db.rows[key])
    then Err(ConcurrentModification)
    else Ok(Put(db, key, db.rows[key].(acceptance := Accepted, delivery := status,
                                       reconcileJob := Some(db.rows[key].reconcileJob.value.(state := Succeeded)))))
  }

  function FinalizeTx(db: Db, key: Key, token: nat, now: int): Result<Db> {
    if !ReconcileOwned(db, key, token) || db.rows[key].reconcileJob.value.state.until <= now
       || !DeliveryTransition(db.rows[key].delivery, UnknownFinal)
    then Err(ConcurrentModification)
    else Ok(Put(db, key, db.rows[key].(delivery := UnknownFinal,
                                       reconcileJob := Some(db.rows[key].reconcileJob.value.(state := Succeeded)))))
  }

  /** A callback names a message by the provider reference stored at acceptance; a late one is only recorded. */
  function CallbackTx(db: Db, key: Key, biz: string, status: Delivery): Db {
    if key in db.rows && db.rows[key].bizId == Some(biz) && DeliveryTransition(db.rows[key].delivery, status)
    then Put(db, key, db.rows[key].(delivery := status)) else db
  }
}
