/**
 * The durable rows of sms-kit and the repository statements that update them.
 * A message is named by its idempotency key; a dispatch token is the message
 * and the attempt number; a lease token is the job's lease generation.
 */
module SmsStore {
  import opened Basics
  import opened SmsStatus

  datatype SmsError = ConcurrentModification | CircuitOpen | BudgetExceeded | TemplateUnavailable | RateLimited | NotDispatchable

  datatype Result<+T> = Ok(value: T) | Err(error: SmsError) {
    predicate IsFailure() { Err? }
    function PropagateFailure<U>(): Result<U> requires Err? { Err(error) }
    function Extract(): T requires Ok? { value }
  }

  type Key = string

  datatype AttemptStatus = Started | AttemptAccepted | AttemptRejected | AttemptUnknown
  datatype DispatchMode = Direct | Queued(lease: nat)
  datatype Attempt = Attempt(status: AttemptStatus, mode: DispatchMode, markedAt: int)

  datatype JobState = JobPending | Leased(token: nat, until: int) | Succeeded | Dead
  datatype Job = Job(state: JobState, availableAt: int, generation: nat, attemptCount: nat, maxAttempts: nat) {
    predicate Owned(token: nat) { state.Leased? && state.token == token }
    predicate Open() { state.JobPending? || state.Leased? }
  }

  datatype Reservation = NoReservation | Held(day: int) | Released(day: int)

  datatype Row = Row(
    acceptance: Acceptance, delivery: Delivery, bizId: Option<string>, renderParams: bool,
    attempts: seq<Attempt>, sendJob: Option<Job>, reconcileJob: Option<Job>, reservation: Reservation)

  datatype Token = Token(key: Key, no: nat)
  datatype Policy = Policy(circuitOpen: bool, dailyBudget: Option<nat>)
  datatype Db = Db(rows: map<Key, Row>, held: map<int, nat>)

  const MS_PER_DAY := 86_400_000

  /** Calendar day of a UTC instant, as the budget books it. */
  function UtcDay(now: int): int { now / MS_PER_DAY }

  // ----- message statements -----

  function NewRow(renderParams: bool, sendJob: Option<Job>): Row {
    Row(Pending, NotApplicable, None, renderParams, [], sendJob, None, NoReservation)
  }

  function CompleteAcceptance(r: Row, status: Acceptance, biz: Option<string>): Result<Row> {
    if !AcceptanceTransition(r.acceptance, status, SameDispatchResponse) then Err(ConcurrentModification)
    else Ok(r.(acceptance := status,
               delivery := if r.delivery.NotApplicable? && !status.Rejected? then Waiting else r.delivery,
               bizId := if biz.Some? then biz else r.bizId))
  }

  function RejectUndispatched(r: Row): Result<Row> {
    if r.acceptance.Pending? && forall a | a in r.attempts :: a.status.AttemptRejected?
    then Ok(r.(acceptance := Rejected, delivery := NotApplicable, renderParams := false))
    else Err(ConcurrentModification)
  }

  function CompleteDelivery(r: Row, status: Delivery): Result<Row> {
    if DeliveryTransition(r.delivery, status) then Ok(r.(delivery := status)) else Err(ConcurrentModification)
  }

  /** Query evidence promotes an unknown acceptance without touching the attempt. */
  function CompleteQueryDelivery(r: Row, status: Delivery): Result<Row> {
    if r.delivery.Waiting? && (r.acceptance.Accepted? || r.acceptance.Unknown?)
    then Ok(r.(acceptance := Accepted, delivery := status))
    else Err(ConcurrentModification)
  }

  // ----- attempt statements -----

  predicate HasStarted(r: Row) { exists a | a in r.attempts :: a.status.Started? }

  /** The marker: one started attempt per message, and queued work must still own enough lease. */
  function CreateStarted(r: Row, mode: DispatchMode, markedAt: int, minimumLeaseUntil: int): Result<Row> {
    var eligible := match mode
      case Direct => true
      case Queued(token) => r.sendJob.Some? && r.sendJob.value.Owned(token) && r.sendJob.value.state.until > minimumLeaseUntil;
    if !eligible || HasStarted(r) then Err(ConcurrentModification)
    else Ok(r.(attempts := r.attempts + [Attempt(Started, mode, markedAt)]))
  }

  function CompleteAttempt(r: Row, no: nat, status: AttemptStatus): Result<Row>
    requires no < |r.attempts|
  {
    var a := r.attempts[no];
    if a.status.Started? || (a.status.AttemptUnknown? && !status.AttemptUnknown?)
    then Ok(r.(attempts := r.attempts[no := a.(status := status)]))
    else Err(ConcurrentModification)
  }

  // ----- job statements -----

  function NewJob(availableAt: int, maxAttempts: nat): Job { Job(JobPending, availableAt, 0, 0, maxAttempts) }

  function GrantLease(j: Job, now: int, leaseMs: int): Job {
    j.(state := Leased(j.generation + 1, now + leaseMs), generation := j.generation + 1)
  }

  predicate Leasable(j: Job, now: int) { j.state.JobPending? && j.availableAt <= now }

  function Renew(job: Option<Job>, token: nat, leaseMs: int, now: int): Result<Job> {
    if job.Some? && job.value.Owned(token) && job.value.state.until > now
    then Ok(job.value.(state := Leased(token, now + leaseMs)))
    else Err(ConcurrentModification)
  }

  /** The fenced updates: a job that is not leased under this token is left alone. */
  function TrySucceed(job: Option<Job>, token: nat): Option<Job> {
    if job.Some? && job.value.Owned(token) then Some(job.value.(state := Succeeded)) else job
  }

  function TryFail(job: Option<Job>, token: nat): Option<Job> {
    if job.Some? && job.value.Owned(token) then Some(job.value.(state := Dead)) else job
  }

  function TryReschedule(job: Option<Job>, token: nat, availableAt: int): Option<Job> {
    if job.Some? && job.value.Owned(token)
    then Some(job.value.(state := JobPending, availableAt := availableAt, attemptCount := job.value.attemptCount + 1))
    else job
  }

  predicate ExpiredLease(job: Option<Job>, before: int) {
    job.Some? && job.value.state.Leased? && job.value.state.until < before
  }

  function EnsureReconcile(r: Row, availableAt: int): Row {
    if r.reconcileJob.Some? then r else r.(reconcileJob := Some(NewJob(availableAt, 1)))
  }

  // ----- budget statements -----

  function HeldOn(db: Db, day: int): nat { if day in db.held then db.held[day] else 0 }

  /** Idempotent per message: an existing reservation is returned whatever its state. */
  function HoldBudget(db: Db, key: Key, policy: Policy, now: int): Result<Db>
    requires key in db.rows
  {
    var day := UtcDay(now);
    if policy.circuitOpen then Err(CircuitOpen)
    else if !db.rows[key].reservation.NoReservation? then Ok(db)
    else if policy.dailyBudget.Some? && HeldOn(db, day) >= policy.dailyBudget.value then Err(BudgetExceeded)
    else Ok(Db(db.rows[key := db.rows[key].(reservation := Held(day))], db.held[day := HeldOn(db, day) + 1]))
  }

  function ReleaseBudget(db: Db, key: Key): Db
    requires key in db.rows
  {
    match db.rows[key].reservation
    case Held(day) =>
      Db(db.rows[key := db.rows[key].(reservation := Released(day))],
         if HeldOn(db, day) > 0 then db.held[day := HeldOn(db, day) - 1] else db.held)
    case _ => db
  }

  function Put(db: Db, key: Key, r: Row): Db { db.(rows := db.rows[key := r]) }

  /** The database a service writes to. A transaction works on a copy and publishes it once. */
  class Store {
    var db: Db
    constructor ()
      ensures db == Db(map[], map[])
    {
      db := Db(map[], map[]);
    }
  }
}
