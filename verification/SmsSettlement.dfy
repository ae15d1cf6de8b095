/** What leasing, clearing, completing and recovering do to a message, told from its rows and the clock alone. */
module SmsSettlement {
  import opened Basics
  import opened SmsStatus
  import opened SmsStore
  import opened SmsTransactions

  /** Leased under this token, whether or not the lease has run out. */
  predicate HeldBy(r: Row, lease: nat) {
    r.sendJob.Some? && match r.sendJob.value.state case Leased(token, _) => token == lease case _ => false
  }

  predicate CurrentlyHeldBy(r: Row, lease: nat, now: int) {
    r.sendJob.Some? && match r.sendJob.value.state case Leased(token, until) => token == lease && until > now case _ => false
  }

  predicate OnlyRow(db: Db, after: Db, key: Key, r: Row) { after.rows == db.rows[key := r] && after.held == db.held }

  // ----- a new message and its lease -----

  predicate IsEnqueued(db: Db, after: Db, key: Key, maxAttempts: nat, now: int) {
    if key in db.rows then after == db
    else OnlyRow(db, after, key, Row(Pending, NotApplicable, None, true, [], Some(Job(JobPending, now, 0, 0, maxAttempts)), None, NoReservation))
  }

  predicate IsDue(db: Db, key: Key, now: int) {
    key in db.rows && db.rows[key].sendJob.Some? && db.rows[key].sendJob.value.state.JobPending? && db.rows[key].sendJob.value.availableAt <= now
  }

  /** A pending job that is due is handed out under its next generation; no other job is. */
  predicate LeasesAsPromised(db: Db, after: Db, job: Option<Snapshot>, key: Key, now: int, leaseMs: int) {
    if !IsDue(db, key, now) then after == db && job == None
    else
      var j := db.rows[key].sendJob.value;
      && OnlyRow(db, after, key, db.rows[key].(sendJob := Some(j.(state := Leased(j.generation + 1, now + leaseMs), generation := j.generation + 1))))
      && job == Some(Snapshot(key, j.generation + 1, j.attemptCount, j.maxAttempts))
  }

  lemma LeaseKeepsPromise(db: Db, key: Key, now: int, leaseMs: int)
    ensures match LeaseTx(db, key, now, leaseMs)
            case Some((after, job)) => LeasesAsPromised(db, after, Some(job), key, now, leaseMs)
            case None => LeasesAsPromised(db, db, None, key, now, leaseMs)
  {
  }

  lemma EnqueueKeepsPromise(db: Db, key: Key, maxAttempts: nat, now: int)
    ensures IsEnqueued(db, EnqueueTx(db, key, maxAttempts, now), key, maxAttempts, now)
  {
  }

  // ----- the last look before the provider call -----

  predicate ClearsAsPromised(db: Db, after: Db, r: Result<()>, job: Snapshot, t: Timing) {
    if job.key in db.rows && CurrentlyHeldBy(db.rows[job.key], job.lease, t.now) then
      && OnlyRow(db, after, job.key, db.rows[job.key].(sendJob := Some(db.rows[job.key].sendJob.value.(state := Leased(job.lease, t.now + t.leaseMs)))))
      && r == if t.now + t.leaseMs > t.later + t.timeoutMs then Ok(()) else Err(ConcurrentModification)
    else after == db && r == Err(ConcurrentModification)
  }

  lemma ClearKeepsPromise(db: Db, job: Snapshot, t: Timing)
    ensures match ClearTx(db, job, t)
            case Ok(after) => ClearsAsPromised(db, after, if t.Outlasts() then Ok(()) else Err(ConcurrentModification), job, t)
            case Err(e) => ClearsAsPromised(db, db, Err(e), job, t)
  {
  }

  // ----- the provider's answer -----

  /** A second, doubled each time, and a minute at most. */
  function RetryDelay(attempts: nat): int { if attempts <= 5 then [1_000, 2_000, 4_000, 8_000, 16_000, 32_000][attempts] else 60_000 }

  lemma {:induction false} BackoffIsDelay(n: nat)
    ensures Backoff(n) == RetryDelay(n)
    ensures n >= 6 ==> Pow2(n) >= 64
  {
    if n > 6 { BackoffIsDelay(n - 1); }
    assert Pow2(0) == 1 && Pow2(1) == 2 && Pow2(2) == 4 && Pow2(3) == 8 && Pow2(4) == 16 && Pow2(5) == 32 && Pow2(6) == 64;
  }

  predicate Known(db: Db, token: Token) { token.key in db.rows && token.no < |db.rows[token.key].attempts| }

  predicate Undecided(r: Row) { r.acceptance.Pending? || r.acceptance.Unknown? }

  /** The attempt gets this status, and nothing else of it changes. */
  function WithStatus(r: Row, no: nat, status: AttemptStatus): seq<Attempt>
    requires no < |r.attempts|
  {
    r.attempts[no := Attempt(status, r.attempts[no].mode, r.attempts[no].markedAt)]
  }

  /** A job leased under this token changes its state, any other stays. */
  function JobIfHeld(r: Row, lease: nat, state: JobState): Option<Job> {
    if HeldBy(r, lease) then Some(r.sendJob.value.(state := state)) else r.sendJob
  }

  function FirstQuery(r: Row, at: int): Option<Job> { if r.reconcileJob.Some? then r.reconcileJob else Some(Job(JobPending, at, 0, 0, 1)) }

  function StartedWaiting(d: Delivery): Delivery { if d.NotApplicable? then Waiting else d }

  /** Accepted: the provider's reference is stored, and from now on the delivery is asked for. */
  predicate IsAccepted(r: Row, after: Row, no: nat, lease: nat, biz: string, at: int)
    requires no < |r.attempts|
  {
    after == r.(acceptance := Accepted, delivery := StartedWaiting(r.delivery), bizId := Some(biz), renderParams := false,
                attempts := WithStatus(r, no, AttemptAccepted), reconcileJob := FirstQuery(r, at), sendJob := JobIfHeld(r, lease, Succeeded))
  }

  /** Unknown: never sent again, but asked for. */
  predicate IsUncertain(r: Row, after: Row, no: nat, lease: nat, at: int)
    requires no < |r.attempts|
  {
    after == r.(acceptance := Unknown, delivery := StartedWaiting(r.delivery), renderParams := false,
                attempts := WithStatus(r, no, AttemptUnknown), reconcileJob := FirstQuery(r, at), sendJob := JobIfHeld(r, lease, Succeeded))
  }

  /** Put off: only the attempt ends, and the job is due again after its delay. */
  predicate IsPutOff(r: Row, after: Row, no: nat, attemptCount: nat, at: int)
    requires no < |r.attempts| && r.sendJob.Some?
  {
    var j := r.sendJob.value;
    after == r.(attempts := WithStatus(r, no, AttemptRejected),
                sendJob := Some(j.(state := JobPending, availableAt := at + RetryDelay(attemptCount), attemptCount := j.attemptCount + 1)))
  }

  /** Rejected for good: message, attempt and job end, and the reservation is given back. */
  predicate IsFinished(db: Db, after: Db, key: Key, no: nat, lease: nat)
    requires key in db.rows && no < |db.rows[key].attempts|
  {
    var r := db.rows[key];
    && after.rows == db.rows[key := r.(acceptance := Rejected, renderParams := false, attempts := WithStatus(r, no, AttemptRejected),
                                       sendJob := JobIfHeld(r, lease, Dead),
                                       reservation := if r.reservation.Held? then Released(r.reservation.day) else r.reservation)]
    && after.held == if r.reservation.Held? && HeldOn(db, r.reservation.day) > 0
                     then db.held[r.reservation.day := HeldOn(db, r.reservation.day) - 1] else db.held
  }

  predicate WillRetry(r: Row, job: Snapshot, retryable: bool) {
    retryable && job.attemptCount + 1 < job.maxAttempts && r.acceptance.Pending? && HeldBy(r, job.lease)
  }

  /** The result of a queued dispatch, however late it comes. A decided message keeps its decision. */
  predicate CompletesAsPromised(db: Db, after: Db, r: Result<()>, job: Snapshot, token: Token, result: ProviderResult, at: int) {
    if !Known(db, token) || !Undecided(db.rows[token.key]) then after == db && r == Ok(())
    else
      var row, status := db.rows[token.key], db.rows[token.key].attempts[token.no].status;
      match result
      case ProviderAccepted(biz) =>
        if status.AttemptRejected? then after == db && r.Err?
        else r == Ok(()) && token.key in after.rows && OnlyRow(db, after, token.key, after.rows[token.key])
             && IsAccepted(row, after.rows[token.key], token.no, job.lease, biz, at)
      case ProviderUnknown =>
        if row.acceptance.Unknown? || !status.Started? then after == db && r == Ok(())
        else r == Ok(()) && token.key in after.rows && OnlyRow(db, after, token.key, after.rows[token.key])
             && IsUncertain(row, after.rows[token.key], token.no, job.lease, at)
      case ProviderRejected(retryable) =>
        if status.AttemptAccepted? || (WillRetry(row, job, retryable) && status.AttemptRejected?) then after == db && r.Err?
        else if WillRetry(row, job, retryable) then
          r == Ok(()) && token.key in after.rows && OnlyRow(db, after, token.key, after.rows[token.key])
          && IsPutOff(row, after.rows[token.key], token.no, job.attemptCount, at)
        else r == Ok(()) && IsFinished(db, after, token.key, token.no, job.lease)
  }

  function Outcome(db: Db, r: Result<Db>): (Db, Result<()>) { match r case Ok(after) => (after, Ok(())) case Err(e) => (db, Err(e)) }

  lemma CompleteKeepsPromise(db: Db, job: Snapshot, token: Token, result: ProviderResult, at: int)
    ensures var (after, r) := Outcome(db, CompleteTx(db, job, token, result, at)); CompletesAsPromised(db, after, r, job, token, result, at)
  {
    BackoffIsDelay(job.attemptCount);
    if Known(db, token) { assert Put(db, token.key, db.rows[token.key]) == db by { assert db.rows[token.key := db.rows[token.key]] == db.rows; } }
  }

  /** The result of a direct send, whose transaction rolls back when the message no longer waits for it. */
  predicate CompletesDirectlyAsPromised(db: Db, after: Db, r: Result<()>, token: Token, result: ProviderResult, at: int) {
    if !Known(db, token) then after == db && r.Err?
    else
      var row, status := db.rows[token.key], db.rows[token.key].attempts[token.no].status;
      if !Undecided(row) || (row.acceptance.Unknown? && result.ProviderUnknown?)
         || !(status.Started? || (status.AttemptUnknown? && !result.ProviderUnknown?))
      then after == db && r.Err?
      else
        && r == Ok(()) && after.rows.Keys == db.rows.Keys
        && match result
           case ProviderAccepted(biz) =>
             OnlyRow(db, after, token.key, row.(acceptance := Accepted, delivery := StartedWaiting(row.delivery), bizId := Some(biz),
                                                attempts := WithStatus(row, token.no, AttemptAccepted), reconcileJob := FirstQuery(row, at)))
           case ProviderUnknown =>
             OnlyRow(db, after, token.key, row.(acceptance := Unknown, delivery := StartedWaiting(row.delivery),
                                                attempts := WithStatus(row, token.no, AttemptUnknown), reconcileJob := FirstQuery(row, at)))
           case ProviderRejected(_) =>
             && after.rows == db.rows[token.key := row.(acceptance := Rejected, attempts := WithStatus(row, token.no, AttemptRejected),
                                                        reservation := if row.reservation.Held? then Released(row.reservation.day) else row.reservation)]
             && after.held == if row.reservation.Held? && HeldOn(db, row.reservation.day) > 0
                              then db.held[row.reservation.day := HeldOn(db, row.reservation.day) - 1] else db.held
  }

  lemma DirectCompleteKeepsPromise(db: Db, token: Token, result: ProviderResult, at: int)
    ensures var (after, r) := Outcome(db, DirectCompleteTx(db, token, result, at)); CompletesDirectlyAsPromised(db, after, r, token, result, at)
  {
  }

  // ----- recovery -----

  /** The newest started attempt becomes unknown, and with it the message; its job ends and its delivery is asked for. */
  predicate IsAbandoned(r: Row, after: Row, no: nat, at: int)
    requires no < |r.attempts|
  {
    after == r.(acceptance := Unknown, delivery := StartedWaiting(r.delivery), renderParams := false,
                attempts := WithStatus(r, no, AttemptUnknown), reconcileJob := FirstQuery(r, at),
                sendJob := match r.attempts[no].mode case Queued(lease) => JobIfHeld(r, lease, Succeeded) case Direct => r.sendJob)
  }

  predicate FirstStarted(r: Row, no: nat) {
    no < |r.attempts| && r.attempts[no].status.Started? && forall i | 0 <= i < no :: !r.attempts[i].status.Started?
  }

  predicate RecoversRow(r: Row, after: Row, marked: bool, expired: bool, at: int) {
    if marked then exists no :: 0 <= no < |r.attempts| && FirstStarted(r, no) && IsAbandoned(r, after, no, at)
    else if expired && r.sendJob.Some? && r.sendJob.value.state.Leased? && forall i | 0 <= i < |r.attempts| :: !r.attempts[i].status.Started?
    then after == r.(sendJob := Some(r.sendJob.value.(state := JobPending)))
    else after == r
  }

  /** All of the batch, or nothing of it when one marked message is no longer pending. */
  predicate RecoversAsPromised(db: Db, after: Db, r: Result<()>, sel: Selection, at: int) {
    if exists k | k in db.rows && (k in sel.direct || k in sel.queued) :: !db.rows[k].acceptance.Pending? then after == db && r.Err?
    else
      && r == Ok(()) && after.held == db.held && after.rows.Keys == db.rows.Keys
      && forall k | k in db.rows :: RecoversRow(db.rows[k], after.rows[k], k in sel.direct || k in sel.queued, k in sel.expired, at)
  }

  lemma {:induction false} FirstIsStarted(attempts: seq<Attempt>)
    requires exists a | a in attempts :: a.status.Started?
    ensures forall i | 0 <= i < StartedNo(attempts) :: !attempts[i].status.Started?
  {
    if !attempts[0].status.Started? {
      FirstIsStarted(attempts[1..]);
      forall i | 0 <= i < StartedNo(attempts) ensures !attempts[i].status.Started? {
        if i > 0 { assert attempts[i] == attempts[1..][i - 1]; }
      }
    }
  }

  lemma RowRecovers(r: Row, k: Key, sel: Selection, at: int)
    requires sel.Marks(k) ==> HasStarted(r)
    ensures RecoversRow(r, RecoveredRow(r, k, sel, at), k in sel.direct || k in sel.queued, k in sel.expired, at)
  {
    if sel.Marks(k) {
      FirstIsStarted(r.attempts);
      assert FirstStarted(r, StartedNo(r.attempts)) && IsAbandoned(r, RecoveredRow(r, k, sel, at), StartedNo(r.attempts), at);
    } else if forall i | 0 <= i < |r.attempts| :: !r.attempts[i].status.Started? {
      assert !HasStarted(r);
    } else {
      var i :| 0 <= i < |r.attempts| && r.attempts[i].status.Started?;
      assert r.attempts[i] in r.attempts;
    }
  }

  lemma RecoverKeepsPromise(db: Db, sel: Selection, before: int, limit: nat, at: int)
    requires ValidSelection(db, sel, before, limit)
    ensures var (after, r) := Outcome(db, RecoverTx(db, sel, before, limit, at)); RecoversAsPromised(db, after, r, sel, at)
  {
    forall k | k in db.rows
      ensures RecoversRow(db.rows[k], RecoveredRow(db.rows[k], k, sel, at), k in sel.direct || k in sel.queued, k in sel.expired, at)
    {
      RowRecovers(db.rows[k], k, sel, at);
    }
  }
}
