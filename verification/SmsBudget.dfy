/** The daily budget and the circuit breaker over whole runs. */
module SmsBudget {
  import opened Basics
  import opened SmsStatus
  import opened SmsStore
  import opened SmsTransactions
  import opened SmsProtocol
  import opened SmsMarkers

  predicate Capped(policy: Policy, n: nat) { policy.dailyBudget.Some? && policy.dailyBudget.value <= n }

  predicate StepCapped(step: Step, n: nat) {
    match step
    case Prepare(_, _, _, policy) => Capped(policy, n)
    case DirectPrepare(_, _, policy, _, _) => Capped(policy, n)
    case _ => true
  }

  /** No marker of the run is placed under a larger daily budget. */
  predicate RunCapped(steps: seq<Step>, n: nat) { forall i | 0 <= i < |steps| :: StepCapped(steps[i], n) }

  lemma DayOf(at: int) returns (day: int)
    ensures OnDay(at, day)
  {
    day := at / 86_400_000;
  }

  /** A queued marker, as a step of the protocol: granted exactly when it may be, and then exactly as promised. */
  lemma PrepareStepAsPromised(s: State, job: Snapshot, t: Timing, usable: bool, policy: Policy, day: int)
    requires OnDay(t.later, day)
    ensures var s' := Next(s, Prepare(job, t, usable, policy));
            if job !in s.leases then s' == s
            else if usable && MayMark(s.db, job, t, policy, day) then
              && IsMarked(s.db, s'.db, job, t, day)
              && s' == s.(db := s'.db, flights := s.flights[Token(job.key, |s.db.rows[job.key].attempts|) := Flight(Ready, Some(job))])
            else if !usable && Waits(s.db, job, t) && OnlyRejected(s.db.rows[job.key]) then IsRejected(s.db, s'.db, job) && s' == s.(db := s'.db)
            else s' == s
  {
    MarkerAsPromised(s.db, job, t, usable, policy, day);
  }

  lemma DirectStepAsPromised(s: State, key: Key, usable: bool, policy: Policy, within: bool, now: int, day: int)
    requires OnDay(now, day)
    ensures var s' := Next(s, DirectPrepare(key, usable, policy, within, now));
            if usable && MayMarkDirect(s.db, key, policy, within, day) then
              IsMarkedDirect(s.db, s'.db, key, now, day) && s' == s.(db := s'.db, flights := s.flights[Token(key, 0) := Flight(Ready, None)])
            else s' == s
  {
    DirectMarkerAsPromised(s.db, key, usable, policy, within, now, day);
  }

  /** Nothing but a marker ever raises a day's counter. */
  lemma OnlyMarkersCharge(s: State, step: Step, d: int)
    requires !step.Prepare? && !step.DirectPrepare?
    ensures HeldOn(Next(s, step).db, d) <= HeldOn(s.db, d)
  {
    if step.Complete? && step.token in s.flights {
      SettleReleases(s.db, step.token, s.flights[step.token].job, step.result, step.at, d);
    }
  }

  lemma SettleReleases(db: Db, token: Token, job: Option<Snapshot>, result: ProviderResult, at: int, d: int)
    ensures HeldOn(Settle(db, token, job, result, at), d) <= HeldOn(db, d)
  {
  }

  lemma StepStaysWithin(s: State, step: Step, n: nat, d: int)
    requires StepCapped(step, n) && HeldOn(s.db, d) <= n
    ensures HeldOn(Next(s, step).db, d) <= n
  {
    if step.Prepare? {
      var day := DayOf(step.t.later);
      PrepareStepAsPromised(s, step.job, step.t, step.usable, step.policy, day);
    } else if step.DirectPrepare? {
      var day := DayOf(step.now);
      DirectStepAsPromised(s, step.key, step.usable, step.policy, step.withinPhoneLimits, step.now, day);
    } else {
      OnlyMarkersCharge(s, step, d);
    }
  }

  /** Whatever interleaves with whatever, no day ever holds more reservations than the budget the markers were placed under. */
  lemma {:induction false} BudgetIsKept(steps: seq<Step>, n: nat, d: int)
    requires RunCapped(steps, n)
    ensures HeldOn(Run(INIT, steps).db, d) <= n
    decreases |steps|
  {
    if steps != [] {
      BudgetIsKept(steps[..|steps| - 1], n, d);
      StepStaysWithin(Run(INIT, steps[..|steps| - 1]), steps[|steps| - 1], n, d);
    }
  }

  /** An open circuit stops every send of usable work before its marker, also of messages already charged. */
  lemma OpenCircuitStops(s: State, step: Step)
    requires (step.Prepare? || step.DirectPrepare?) && step.usable && step.policy.circuitOpen
    ensures Next(s, step) == s
  {
    if step.Prepare? {
      var day := DayOf(step.t.later);
      PrepareStepAsPromised(s, step.job, step.t, step.usable, step.policy, day);
    } else {
      var day := DayOf(step.now);
      DirectStepAsPromised(s, step.key, step.usable, step.policy, step.withinPhoneLimits, step.now, day);
    }
  }
}
