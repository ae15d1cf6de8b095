/** What each step does to a challenge, told from its row, the clock and the code alone; and when a challenge is verified. */
module OtpPromises {
  import opened Basics
  import opened SmsStatus
  import opened SmsStore
  import opened OtpChallenge

  // ----- verification -----

  predicate IsDelivered(r: Challenge) { r.terminal.None? && r.acceptance.Accepted? }

  predicate CanBeTried(r: Challenge, now: int) {
    r.verifiedAt.None? && IsDelivered(r) && now < r.expiresAt && r.attemptCount < r.maxAttempts
  }

  /** The verdict, and what it leaves: a wrong code costs one attempt, a right one verifies, nothing else changes anything. */
  predicate VerifiesAsPromised(s: State, after: State, verdict: Verdict, k: Key, correct: bool, now: int) {
    && (verdict == Verified <==> k in s && CanBeTried(s[k].row, now) && correct)
    && (verdict == WrongCode <==> k in s && CanBeTried(s[k].row, now) && !correct)
    && (verdict == NoProof <==> k !in s || s[k].row.verifiedAt.Some?)
    && (verdict == NotDelivered <==> k in s && s[k].row.verifiedAt.None? && !IsDelivered(s[k].row))
    && (verdict == Expired <==> k in s && s[k].row.verifiedAt.None? && IsDelivered(s[k].row) && s[k].row.expiresAt <= now)
    && (verdict == Exhausted <==>
          k in s && s[k].row.verifiedAt.None? && IsDelivered(s[k].row) && now < s[k].row.expiresAt && s[k].row.attemptCount >= s[k].row.maxAttempts)
    && if verdict == Verified then after == s[k := s[k].(row := s[k].row.(verifiedAt := Some(now)), verified := s[k].verified + 1)]
       else if verdict == WrongCode then after == s[k := s[k].(row := s[k].row.(attemptCount := s[k].row.attemptCount + 1), wrong := s[k].wrong + 1)]
       else after == s
  }

  lemma VerifyKeepsPromise(s: State, k: Key, correct: bool, now: int)
    ensures VerifiesAsPromised(s, Next(s, Verify(k, correct, now)), if k in s then Judge(s[k].row, correct, now) else NoProof, k, correct, now)
  {
    if k in s { assert s[k := s[k]] == s; }
  }

  // ----- issuing -----

  predicate Replaced(r: Challenge, i: Step)
    requires i.Issue?
  {
    r.subject == i.subject && r.action == i.action && r.terminal.None? && !r.consumed
  }

  /** The earlier challenge of the subject and action is taken back, with any other left as it was. */
  predicate SupersedesAsPromised(s: State, after: State, i: Step)
    requires i.Issue?
  {
    && after.Keys == s.Keys + {i.key}
    && forall k | k in s :: after[k] == if Replaced(s[k].row, i) then s[k].(row := s[k].row.(terminal := Some(Superseded), acceptance := Rejected)) else s[k]
  }

  /** A new key gets a pending challenge with what was asked for, or a refused one that supersedes nothing. */
  predicate IssuesAsPromised(s: State, after: State, i: Step)
    requires i.Issue?
  {
    if i.key in s then after == s
    else if i.refusal.Some? then
      after == s[i.key := Entry(Challenge(i.subject, i.action, Rejected, Some(Refused(i.refusal.value)), 0, i.maxAttempts, i.expiresAt, None, false), Nobody, 0, [], 0, 0)]
    else
      && SupersedesAsPromised(s, after, i)
      && after[i.key] == Entry(Challenge(i.subject, i.action, Pending, None, 0, i.maxAttempts, i.expiresAt, None, false), Sending, 0, [], 0, 0)
  }

  lemma IssueKeepsPromise(s: State, i: Step)
    requires i.Issue?
    ensures IssuesAsPromised(s, IssueTx(s, i), i)
  {
  }

  // ----- the steps of a challenge that exists -----

  predicate Decided(r: Challenge) { r.terminal.Some? || !r.acceptance.Pending? }

  function Reported(r: Challenge): Answer {
    if r.terminal.Some? then Denied(r.terminal.value) else if r.acceptance.Accepted? then Issued else Denied(AcceptanceUnknown)
  }

  /** A challenge that had no end gets this one; an earlier end stays. */
  function Ended(r: Challenge, code: Code): Challenge {
    if r.terminal.Some? then r else r.(terminal := Some(code), acceptance := if code == AcceptanceUnknown then Unknown else Rejected)
  }

  predicate ActsAsPromised(e: Entry, after: Entry, step: Step)
    requires !step.Issue? && !step.Verify?
  {
    match step
    case Send(_, outcome) =>
      if !e.owner.Sending? then after == e
      else after == e.(sends := e.sends + 1, owner := if outcome == SendAccepted then Marking
                                                      else if outcome == SendUnknown then Failing(AcceptanceUnknown) else Failing(Refused(outcome.reason)))
    case Mark(_) =>
      if !e.owner.Marking? then after == e
      else
        var r := e.row.(acceptance := if e.row.acceptance.Pending? then Accepted else e.row.acceptance);
        if IsDelivered(r) then after == e.(row := r, answers := e.answers + [Issued], owner := Done)
        else after == e.(row := r, owner := Failing(if r.terminal.Some? then r.terminal.value else AcceptanceUnknown))
    case GiveUp(_) =>
      if !e.owner.Failing? then after == e
      else after == e.(row := Ended(e.row, e.owner.code), answers := e.answers + [Denied(Ended(e.row, e.owner.code).terminal.value)], owner := Done)
    case Poll(_) => after == if Decided(e.row) then e.(answers := e.answers + [Reported(e.row)]) else e
    case PollTimeout(_) =>
      after == if Decided(e.row) then e.(answers := e.answers + [Reported(e.row)])
               else e.(row := e.row.(terminal := Some(AcceptanceUnknown), acceptance := Unknown), answers := e.answers + [Denied(AcceptanceUnknown)])
    case Consume(_, inTime) =>
      after == if inTime && e.row.verifiedAt.Some? && IsDelivered(e.row) then e.(row := e.row.(consumed := true)) else e
  }

  lemma ActKeepsPromise(e: Entry, step: Step)
    requires !step.Issue? && !step.Verify?
    ensures ActsAsPromised(e, Act(e, step), step)
  {
  }

  // ----- over whole runs -----

  /** Step n of the run evaluated the right code of this challenge in time. */
  predicate RightCodeAt(steps: seq<Step>, n: nat, k: Key, at: int) {
    && n < |steps| && steps[n] == Verify(k, true, at)
    && k in Run(map[], steps[..n]) && CanBeTried(Run(map[], steps[..n])[k].row, at)
  }

  lemma VerifiedBefore(s: State, step: Step, k: Key)
    requires k in Next(s, step) && Next(s, step)[k].row.verifiedAt.Some?
    ensures (k in s && s[k].row.verifiedAt == Next(s, step)[k].row.verifiedAt)
            || (k in s && CanBeTried(s[k].row, Next(s, step)[k].row.verifiedAt.value) && step == Verify(k, true, Next(s, step)[k].row.verifiedAt.value))
  {
    if step.Verify? {
      VerifyKeepsPromise(s, step.key, step.correct, step.now);
    } else if step.Issue? {
      IssueKeepsPromise(s, step);
    } else if step.key in s {
      ActKeepsPromise(s[step.key], step);
    }
  }

  /** A challenge is verified only by a right code, given while it was delivered, in time and with an attempt left. */
  lemma {:induction false} VerifiedOnlyByRightCode(steps: seq<Step>, k: Key) returns (n: nat)
    requires k in Run(map[], steps) && Run(map[], steps)[k].row.verifiedAt.Some?
    ensures RightCodeAt(steps, n, k, Run(map[], steps)[k].row.verifiedAt.value)
  {
    assert steps != [];
    var last := |steps| - 1;
    VerifiedBefore(Run(map[], steps[..last]), steps[last], k);
    if k in Run(map[], steps[..last]) && Run(map[], steps[..last])[k].row.verifiedAt == Run(map[], steps)[k].row.verifiedAt {
      n := VerifiedOnlyByRightCode(steps[..last], k);
      assert steps[..last][..n] == steps[..n];
    } else {
      n := last;
    }
  }

  /** Until then each wrong code evaluated in time costs one attempt, and nothing else does. */
  lemma OnlyWrongCodesCost(s: State, step: Step, k: Key)
    requires k in s
    ensures k in Next(s, step)
    ensures Next(s, step)[k].row.attemptCount ==
              s[k].row.attemptCount + if step.Verify? && step.key == k && !step.correct && CanBeTried(s[k].row, step.now) then 1 else 0
    ensures Next(s, step)[k].row.expiresAt == s[k].row.expiresAt && Next(s, step)[k].row.maxAttempts == s[k].row.maxAttempts
  {
    if step.Verify? {
      VerifyKeepsPromise(s, step.key, step.correct, step.now);
    } else if step.Issue? {
      IssueKeepsPromise(s, step);
    } else if step.key in s {
      ActKeepsPromise(s[step.key], step);
    }
  }
}
