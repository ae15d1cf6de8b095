/** When a message may be marked for dispatch, told from its rows, the clock and the policy alone. */
module SmsMarkers {
  import opened Basics
  import opened SmsStatus
  import opened SmsStore
  import opened SmsTransactions

  /** The UTC day an instant falls on. */
  predicate OnDay(at: int, day: int) { day * 86_400_000 <= at < (day + 1) * 86_400_000 }

  /** The policy lets one more message through on a day with this many reservations held. */
  predicate LetsThrough(policy: Policy, held: nat) { !policy.circuitOpen && (policy.dailyBudget.None? || held < policy.dailyBudget.value) }

  predicate NothingStarted(r: Row) { forall i | 0 <= i < |r.attempts| :: !r.attempts[i].status.Started? }

  /** The message waits under this current lease, and a lease renewed now outlasts the provider call. */
  predicate Waits(db: Db, job: Snapshot, t: Timing) {
    && job.key in db.rows && db.rows[job.key].acceptance.Pending? && db.rows[job.key].sendJob.Some?
    && (match db.rows[job.key].sendJob.value.state case Leased(token, until) => token == job.lease && until > t.now case _ => false)
    && t.now + t.leaseMs > t.later + t.timeoutMs
  }

  /** A message that holds a reservation is not charged again, but an open circuit stops it all the same. */
  predicate MayMark(db: Db, job: Snapshot, t: Timing, policy: Policy, day: int) {
    && Waits(db, job, t) && NothingStarted(db.rows[job.key])
    && if db.rows[job.key].reservation.NoReservation? then LetsThrough(policy, HeldOn(db, day)) else !policy.circuitOpen
  }

  /** One more started attempt, the lease renewed, and the first reservation charged to the day of the marker. */
  predicate IsMarked(db: Db, after: Db, job: Snapshot, t: Timing, day: int) {
    && job.key in db.rows && db.rows[job.key].sendJob.Some?
    && var r := db.rows[job.key];
       var first := r.reservation.NoReservation?;
       && after.rows == db.rows[job.key := r.(attempts := r.attempts + [Attempt(Started, Queued(job.lease), t.later)],
                                              sendJob := Some(r.sendJob.value.(state := Leased(job.lease, t.now + t.leaseMs))),
                                              reservation := if first then Held(day) else r.reservation)]
       && after.held == if first then db.held[day := HeldOn(db, day) + 1] else db.held
  }

  predicate OnlyRejected(r: Row) { forall i | 0 <= i < |r.attempts| :: r.attempts[i].status.AttemptRejected? }

  /** Unusable work is rejected with its job dead and its reservation, if any, given back. */
  predicate IsRejected(db: Db, after: Db, job: Snapshot) {
    && job.key in db.rows && db.rows[job.key].sendJob.Some?
    && var r := db.rows[job.key];
       && after.rows == db.rows[job.key := r.(acceptance := Rejected, delivery := NotApplicable, renderParams := false,
                                              sendJob := Some(r.sendJob.value.(state := Dead)),
                                              reservation := if r.reservation.Held? then Released(r.reservation.day) else r.reservation)]
       && after.held == if r.reservation.Held? && HeldOn(db, r.reservation.day) > 0
                        then db.held[r.reservation.day := HeldOn(db, r.reservation.day) - 1] else db.held
  }

  /** What a marker transaction answers and leaves behind. */
  predicate PreparesAsPromised(db: Db, after: Db, r: Result<Option<Token>>, job: Snapshot, t: Timing, usable: bool, policy: Policy, day: int) {
    if usable && MayMark(db, job, t, policy, day) then r == Ok(Some(Token(job.key, |db.rows[job.key].attempts|))) && IsMarked(db, after, job, t, day)
    else if !usable && Waits(db, job, t) && OnlyRejected(db.rows[job.key]) then r == Ok(None) && IsRejected(db, after, job)
    else
      && after == db
      && r == Err(if !usable || !Waits(db, job, t) then ConcurrentModification
                  else if policy.circuitOpen then CircuitOpen
                  else if db.rows[job.key].reservation.NoReservation? && !LetsThrough(policy, HeldOn(db, day)) then BudgetExceeded
                  else ConcurrentModification)
  }

  function Prepared(db: Db, job: Snapshot, t: Timing, usable: bool, policy: Policy): (Db, Result<Option<Token>>) {
    match PrepareTx(db, job, t, usable, policy) case Ok((after, token)) => (after, Ok(token)) case Err(e) => (db, Err(e))
  }

  /** Whatever day the marker falls on. */
  ghost predicate PromiseKept(db: Db, after: Db, r: Result<Option<Token>>, job: Snapshot, t: Timing, usable: bool, policy: Policy) {
    forall day | OnDay(t.later, day) :: PreparesAsPromised(db, after, r, job, t, usable, policy, day)
  }

  lemma AttemptsByIndex(r: Row)
    ensures HasStarted(r) <==> !NothingStarted(r)
    ensures OnlyRejected(r) <==> forall a | a in r.attempts :: a.status.AttemptRejected?
  {
    if !NothingStarted(r) {
      var i :| 0 <= i < |r.attempts| && r.attempts[i].status.Started?;
      assert r.attempts[i] in r.attempts;
    }
    if forall a | a in r.attempts :: a.status.AttemptRejected? {
      forall i | 0 <= i < |r.attempts| ensures r.attempts[i].status.AttemptRejected? { assert r.attempts[i] in r.attempts; }
    }
  }

  lemma MarkerAsPromised(db: Db, job: Snapshot, t: Timing, usable: bool, policy: Policy, day: int)
    requires OnDay(t.later, day)
    ensures PreparesAsPromised(db, Prepared(db, job, t, usable, policy).0, Prepared(db, job, t, usable, policy).1, job, t, usable, policy, day)
  {
    if job.key in db.rows { AttemptsByIndex(db.rows[job.key]); }
    assert UtcDay(t.later) == day;
  }

  lemma MarkerKeepsPromise(db: Db, job: Snapshot, t: Timing, usable: bool, policy: Policy)
    ensures PromiseKept(db, Prepared(db, job, t, usable, policy).0, Prepared(db, job, t, usable, policy).1, job, t, usable, policy)
  {
    forall day | OnDay(t.later, day)
      ensures PreparesAsPromised(db, Prepared(db, job, t, usable, policy).0, Prepared(db, job, t, usable, policy).1, job, t, usable, policy, day)
    {
      MarkerAsPromised(db, job, t, usable, policy, day);
    }
  }

  // ----- direct sends -----

  predicate MayMarkDirect(db: Db, key: Key, policy: Policy, withinPhoneLimits: bool, day: int) {
    key !in db.rows && withinPhoneLimits && LetsThrough(policy, HeldOn(db, day))
  }

  /** A new message with its one started attempt and a reservation on the day of the marker. */
  predicate IsMarkedDirect(db: Db, after: Db, key: Key, now: int, day: int) {
    && after.rows == db.rows[key := Row(Pending, NotApplicable, None, false, [Attempt(Started, Direct, now)], None, None, Held(day))]
    && after.held == db.held[day := HeldOn(db, day) + 1]
  }

  predicate PreparesDirectAsPromised(db: Db, after: Db, r: Result<Option<Token>>, key: Key, usable: bool, policy: Policy,
                                     withinPhoneLimits: bool, now: int, day: int) {
    if usable && MayMarkDirect(db, key, policy, withinPhoneLimits, day) then r == Ok(Some(Token(key, 0))) && IsMarkedDirect(db, after, key, now, day)
    else
      && after == db
      && r == if !usable then Err(TemplateUnavailable) else if policy.circuitOpen then Err(CircuitOpen)
              else if key in db.rows then Ok(None) else if !withinPhoneLimits then Err(RateLimited) else Err(BudgetExceeded)
  }

  function PreparedDirect(db: Db, key: Key, usable: bool, policy: Policy, within: bool, now: int): (Db, Result<Option<Token>>) {
    match DirectPrepareTx(db, key, usable, policy, within, now) case Ok((after, token)) => (after, Ok(token)) case Err(e) => (db, Err(e))
  }

  lemma DirectMarkerAsPromised(db: Db, key: Key, usable: bool, policy: Policy, within: bool, now: int, day: int)
    requires OnDay(now, day)
    ensures PreparesDirectAsPromised(db, PreparedDirect(db, key, usable, policy, within, now).0, PreparedDirect(db, key, usable, policy, within, now).1,
                                     key, usable, policy, within, now, day)
  {
    assert UtcDay(now) == day;
  }

  ghost predicate DirectPromiseKept(db: Db, after: Db, r: Result<Option<Token>>, key: Key, usable: bool, policy: Policy, within: bool, now: int) {
    forall day | OnDay(now, day) :: PreparesDirectAsPromised(db, after, r, key, usable, policy, within, now, day)
  }

  lemma DirectKeepsPromise(db: Db, key: Key, usable: bool, policy: Policy, within: bool, now: int)
    ensures var (after, r) := PreparedDirect(db, key, usable, policy, within, now);
            DirectPromiseKept(db, after, r, key, usable, policy, within, now)
  {
    var (after, r) := PreparedDirect(db, key, usable, policy, within, now);
    forall day | OnDay(now, day) ensures PreparesDirectAsPromised(db, after, r, key, usable, policy, within, now, day) {
      DirectMarkerAsPromised(db, key, usable, policy, within, now, day);
    }
  }
}
