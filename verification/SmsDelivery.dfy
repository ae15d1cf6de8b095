/** Over whole runs: when a retried message is sent again, and how a report finds the message it belongs to. */
module SmsDelivery {
  import opened Basics
  import opened SmsStatus
  import opened SmsStore
  import opened SmsTransactions
  import opened SmsProtocol
  import opened SmsSafety
  import opened SmsSettlement
  import opened SmsReconciliation
  import opened SmsMarkers
  import opened SmsBudget
  import opened SmsTheorems

  // ----- a retried message -----

  /** A pending message whose job is due at this time. */
  predicate PutOff(s: State, key: Key, due: int) {
    && key in s.db.rows && s.db.rows[key].acceptance.Pending? && s.db.rows[key].sendJob.Some?
    && s.db.rows[key].sendJob.value.state.JobPending? && s.db.rows[key].sendJob.value.availableAt == due
  }

  /** Nobody asks for the job of this message when it is due. */
  predicate AsksTooEarly(steps: seq<Step>, key: Key, due: int) {
    forall i | 0 <= i < |steps| && steps[i].LeaseSend? && steps[i].key == key :: steps[i].now < due
  }

  predicate Untouched(s: State, s': State, key: Key) {
    && key in s.db.rows && key in s'.db.rows && s'.db.rows[key] == s.db.rows[key]
    && forall t | t in s'.sends && t.key == key :: t in s.sends
  }

  lemma NobodyInFlight(s: State, key: Key, due: int, token: Token)
    requires Inv(s) && PutOff(s, key, due) && token.key == key
    ensures token !in s.flights
  {
    AllEnded(s.db.rows[key]);
    assert token in s.flights ==> FlightFits(s.db, token, s.flights[token]);
  }

  lemma AllEnded(r: Row)
    requires RowInv(r) && r.acceptance.Pending? && r.sendJob.Some? && r.sendJob.value.state.JobPending?
    ensures forall i | 0 <= i < |r.attempts| :: r.attempts[i].status.AttemptRejected?
  {
  }

  lemma RecoveryPassesBy(s: State, step: Step, key: Key, due: int)
    requires Inv(s) && PutOff(s, key, due) && step.Recover?
    ensures Untouched(s, Next(s, step), key)
  {
    assert RowInv(s.db.rows[key]);
    if ValidSelection(s.db, step.sel, step.before, step.limit) { NotSelected(s.db.rows[key], s.db, key, step.sel, step.before, step.limit); }
  }

  lemma NotSelected(r: Row, db: Db, key: Key, sel: Selection, before: int, limit: nat)
    requires key in db.rows && r == db.rows[key] && RowInv(r) && ValidSelection(db, sel, before, limit)
    requires r.acceptance.Pending? && r.sendJob.Some? && r.sendJob.value.state.JobPending?
    ensures key !in sel.expired && !sel.Marks(key)
  {
  }

  lemma TokenStepPassesBy(s: State, step: Step, key: Key, due: int)
    requires Inv(s) && PutOff(s, key, due) && (step.Clear? || step.Send? || step.Crash?)
    ensures Untouched(s, Next(s, step), key)
  {
    if step.token.key == key { NobodyInFlight(s, key, due, step.token); }
  }

  lemma MarkerStepPassesBy(s: State, step: Step, key: Key, due: int)
    requires PutOff(s, key, due) && (step.Prepare? || step.DirectPrepare? || step.Enqueue?)
    ensures Untouched(s, Next(s, step), key)
  {
    if step.Prepare? {
      var day := DayOf(step.t.later);
      PrepareStepAsPromised(s, step.job, step.t, step.usable, step.policy, day);
    } else if step.DirectPrepare? {
      var day := DayOf(step.now);
      DirectStepAsPromised(s, step.key, step.usable, step.policy, step.withinPhoneLimits, step.now, day);
    }
  }

  lemma QueryStepPassesBy(s: State, step: Step, key: Key)
    requires key in s.db.rows && RowInv(s.db.rows[key]) && s.db.rows[key].acceptance.Pending?
    requires step.LeaseReconcile? || step.ReadDone? || step.Retire? || step.Reschedule? || step.Record? || step.Finalize? || step.Callback?
    ensures Untouched(s, Next(s, step), key)
  {
  }

  lemma StepPassesBy(s: State, step: Step, key: Key, due: int)
    requires Inv(s) && PutOff(s, key, due) && (step.LeaseSend? && step.key == key ==> step.now < due)
    ensures Untouched(s, Next(s, step), key)
  {
    if step.Complete? {
      if step.token.key == key { NobodyInFlight(s, key, due, step.token); }
      OthersAreUntouched(s, step, key);
    } else if step.Recover? {
      RecoveryPassesBy(s, step, key, due);
    } else if step.Clear? || step.Send? || step.Crash? {
      TokenStepPassesBy(s, step, key, due);
    } else if step.Prepare? || step.DirectPrepare? || step.Enqueue? {
      MarkerStepPassesBy(s, step, key, due);
    } else if !step.LeaseSend? {
      QueryStepPassesBy(s, step, key);
    }
  }

  lemma OthersAreUntouched(s: State, step: Step, key: Key)
    requires step.Complete? && key in s.db.rows && (step.token.key == key ==> step.token !in s.flights)
    ensures Untouched(s, Next(s, step), key)
  {
  }

  lemma {:induction false} NotBeforeDue(s: State, more: seq<Step>, key: Key, due: int)
    requires Inv(s) && PutOff(s, key, due) && AsksTooEarly(more, key, due)
    ensures Inv(Run(s, more)) && Untouched(s, Run(s, more), key)
    decreases |more|
  {
    if more != [] {
      NotBeforeDue(s, more[..|more| - 1], key, due);
      InvNext(Run(s, more[..|more| - 1]), more[|more| - 1]);
      StepPassesBy(Run(s, more[..|more| - 1]), more[|more| - 1], key, due);
    }
  }

  /**
   * A message put off after a rejection is not touched and not sent, whatever anybody does, until its job is
   * asked for after its delay; and then it is handed out.
   */
  lemma RetryWaits(steps: seq<Step>, token: Token, at: int, more: seq<Step>, now: int, leaseMs: int)
    requires var s := Run(INIT, steps);
             && token in s.flights && s.flights[token].phase.Dispatched? && s.flights[token].job.Some? && token.key in s.db.rows
             && s.db.rows[token.key].acceptance.Pending? && WillRetry(s.db.rows[token.key], s.flights[token].job.value, true)
    requires AsksTooEarly(more, token.key, at + RetryDelay(Run(INIT, steps).flights[token].job.value.attemptCount))
    ensures var s := Run(INIT, steps);
            var s1 := Next(s, Complete(token, ProviderRejected(true), at));
            var s2 := Run(s1, more);
            && s1.db.rows[token.key].acceptance.Pending? && Untouched(s1, s2, token.key)
            && (LeaseTx(s2.db, token.key, now, leaseMs).Some? <==> now >= at + RetryDelay(s.flights[token].job.value.attemptCount))
  {
    var s := Run(INIT, steps);
    var job := s.flights[token].job.value;
    PutOffAfterRejection(steps, token, at);
    var s1 := Next(s, Complete(token, ProviderRejected(true), at));
    NotBeforeDue(s1, more, token.key, at + RetryDelay(job.attemptCount));
    LeaseKeepsPromise(Run(s1, more).db, token.key, now, leaseMs);
  }

  lemma PutOffAfterRejection(steps: seq<Step>, token: Token, at: int)
    requires var s := Run(INIT, steps);
             && token in s.flights && s.flights[token].phase.Dispatched? && s.flights[token].job.Some? && token.key in s.db.rows
             && s.db.rows[token.key].acceptance.Pending? && WillRetry(s.db.rows[token.key], s.flights[token].job.value, true)
    ensures var s := Run(INIT, steps);
            var s1 := Next(s, Complete(token, ProviderRejected(true), at));
            Inv(s1) && PutOff(s1, token.key, at + RetryDelay(s.flights[token].job.value.attemptCount))
  {
    ReachableInv(steps);
    InvNext(Run(INIT, steps), Complete(token, ProviderRejected(true), at));
    PutOffStep(Run(INIT, steps), token, at);
  }

  lemma InvNext(s: State, step: Step)
    requires Inv(s)
    ensures Inv(Next(s, step))
  {
    StepKeepsInv(s, step);
  }

  lemma PutOffStep(s: State, token: Token, at: int)
    requires Inv(s) && token in s.flights && s.flights[token].phase.Dispatched? && s.flights[token].job.Some? && token.key in s.db.rows
    requires s.db.rows[token.key].acceptance.Pending? && WillRetry(s.db.rows[token.key], s.flights[token].job.value, true)
    ensures PutOff(Next(s, Complete(token, ProviderRejected(true), at)), token.key, at + RetryDelay(s.flights[token].job.value.attemptCount))
  {
    assert FlightFits(s.db, token, s.flights[token]);
    RejectionPutsOff(s.db, s.flights[token].job.value, token, at);
  }

  lemma RejectionPutsOff(db: Db, job: Snapshot, token: Token, at: int)
    requires FlightFits(db, token, Flight(Dispatched, Some(job))) && db.rows[token.key].acceptance.Pending? && WillRetry(db.rows[token.key], job, true)
    ensures CompleteTx(db, job, token, ProviderRejected(true), at).Ok?
    ensures var after := CompleteTx(db, job, token, ProviderRejected(true), at).value;
            && token.key in after.rows && after.rows[token.key].acceptance.Pending? && after.rows[token.key].sendJob.Some?
            && after.rows[token.key].sendJob.value.state.JobPending?
            && after.rows[token.key].sendJob.value.availableAt == at + RetryDelay(job.attemptCount)
  {
    CompleteKeepsPromise(db, job, token, ProviderRejected(true), at);
  }

  // ----- the provider's reference -----

  predicate KeepsReference(s: State, s': State, key: Key) {
    key in s.db.rows && key in s'.db.rows && s'.db.rows[key].bizId == s.db.rows[key].bizId
  }

  lemma CompletionKeepsReference(s: State, step: Step, key: Key)
    requires Inv(s) && key in s.db.rows && s.db.rows[key].acceptance.Accepted? && step.Complete?
    ensures KeepsReference(s, Next(s, step), key)
  {
    if step.token in s.flights && s.flights[step.token].job.Some? {
      CompleteKeepsPromise(s.db, s.flights[step.token].job.value, step.token, step.result, step.at);
    } else {
      DirectCompleteKeepsPromise(s.db, step.token, step.result, step.at);
    }
  }

  lemma OtherStepKeepsReference(s: State, step: Step, key: Key)
    requires key in s.db.rows && !step.Complete? && !step.Recover? && !step.Prepare? && !step.DirectPrepare?
    ensures KeepsReference(s, Next(s, step), key)
  {
  }

  lemma StepKeepsReference(s: State, step: Step, key: Key)
    requires Inv(s) && key in s.db.rows && s.db.rows[key].bizId.Some?
    ensures KeepsReference(s, Next(s, step), key)
  {
    assert RowInv(s.db.rows[key]);
    if step.Complete? {
      CompletionKeepsReference(s, step, key);
    } else if step.Recover? {
      ReachedBySelection(s, step, key);
    } else if step.Prepare? {
      var day := DayOf(step.t.later);
      PrepareStepAsPromised(s, step.job, step.t, step.usable, step.policy, day);
    } else if step.DirectPrepare? {
      var day := DayOf(step.now);
      DirectStepAsPromised(s, step.key, step.usable, step.policy, step.withinPhoneLimits, step.now, day);
    } else {
      OtherStepKeepsReference(s, step, key);
    }
  }

  lemma ReachedBySelection(s: State, step: Step, key: Key)
    requires Inv(s) && key in s.db.rows && s.db.rows[key].acceptance.Accepted? && step.Recover?
    ensures KeepsReference(s, Next(s, step), key)
  {
  }

  lemma {:induction false} ReferenceIsKept(s: State, more: seq<Step>, key: Key)
    requires Inv(s) && key in s.db.rows && s.db.rows[key].bizId.Some?
    ensures Inv(Run(s, more)) && KeepsReference(s, Run(s, more), key)
    decreases |more|
  {
    if more != [] {
      ReferenceIsKept(s, more[..|more| - 1], key);
      InvNext(Run(s, more[..|more| - 1]), more[|more| - 1]);
      StepKeepsReference(Run(s, more[..|more| - 1]), more[|more| - 1], key);
    }
  }

  /** A report by callback is stored once, on the waiting message that has this reference, and changes nothing else. */
  lemma CallbackDelivers(s: State, key: Key, biz: string, status: Delivery)
    requires status.Delivered? || status.Failed?
    ensures var s' := Next(s, Callback(key, biz, status));
            if key in s.db.rows && s.db.rows[key].bizId == Some(biz) && (s.db.rows[key].delivery.Waiting? || s.db.rows[key].delivery.NotApplicable?)
            then s' == s.(db := Db(s.db.rows[key := s.db.rows[key].(delivery := status)], s.db.held)) else s' == s
  {
  }

  /** The reference of an accepted message is stored for good, so any later callback under it finds the message, and none under another does. */
  lemma CallbackFindsMessage(steps: seq<Step>, token: Token, biz: string, at: int, more: seq<Step>, other: string, status: Delivery)
    requires token in Run(INIT, steps).flights && Run(INIT, steps).flights[token].phase.Dispatched? && token.key in Run(INIT, steps).db.rows
    requires Undecided(Run(INIT, steps).db.rows[token.key]) && (status.Delivered? || status.Failed?)
    ensures var s := Run(Next(Run(INIT, steps), Complete(token, ProviderAccepted(biz), at)), more);
            && token.key in s.db.rows && s.db.rows[token.key].acceptance.Accepted? && s.db.rows[token.key].bizId == Some(biz)
            && (other != biz ==> Next(s, Callback(token.key, other, status)) == s)
            && (s.db.rows[token.key].delivery.Waiting? ==>
                  var s' := Next(s, Callback(token.key, biz, status)); token.key in s'.db.rows && s'.db.rows[token.key].delivery == status)
  {
    var s := Run(INIT, steps);
    AcceptanceStoresReference(steps, token, biz, at);
    var s1 := Next(s, Complete(token, ProviderAccepted(biz), at));
    ReachableInv(steps);
    InvNext(s, Complete(token, ProviderAccepted(biz), at));
    ReferenceIsKept(s1, more, token.key);
    assert RowInv(Run(s1, more).db.rows[token.key]);
    CallbackDelivers(Run(s1, more), token.key, biz, status);
    CallbackDelivers(Run(s1, more), token.key, other, status);
  }

  lemma AcceptanceStoresReference(steps: seq<Step>, token: Token, biz: string, at: int)
    requires token in Run(INIT, steps).flights && Run(INIT, steps).flights[token].phase.Dispatched? && token.key in Run(INIT, steps).db.rows
    requires Undecided(Run(INIT, steps).db.rows[token.key])
    ensures var s := Next(Run(INIT, steps), Complete(token, ProviderAccepted(biz), at));
            token.key in s.db.rows && s.db.rows[token.key].bizId == Some(biz)
  {
    var s := Run(INIT, steps);
    FlightInRun(steps, token);
    LateResultIsRecorded(steps, token, ProviderAccepted(biz), at);
    if s.flights[token].job.Some? {
      CompleteKeepsPromise(s.db, s.flights[token].job.value, token, ProviderAccepted(biz), at);
    } else {
      DirectCompleteKeepsPromise(s.db, token, ProviderAccepted(biz), at);
    }
  }
}
