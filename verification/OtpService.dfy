/**
 * The challenge service, transaction by transaction. Whatever other callers do meanwhile is a schedule of
 * protocol steps that runs between this caller's transactions.
 */
module OtpService {
  import opened Basics
  import opened SmsStatus
  import opened SmsStore
  import opened OtpChallenge
  import opened OtpPromises

  predicate OwnerStep(step: Step, key: Key) { step.key == key && (step.Send? || step.Mark? || step.GiveUp?) }

  /** Nobody else acts for the caller that creates the challenge. */
  predicate ByOthers(schedule: seq<seq<Step>>, key: Key) {
    forall i, j | 0 <= i < |schedule| && 0 <= j < |schedule[i]| :: !OwnerStep(schedule[i][j], key)
  }

  function Turn(schedule: seq<seq<Step>>, i: nat): seq<Step> { if i < |schedule| then schedule[i] else [] }

  lemma {:induction false} OthersKeepOwner(s: State, steps: seq<Step>, key: Key)
    requires key in s && forall j | 0 <= j < |steps| :: !OwnerStep(steps[j], key)
    ensures key in Run(s, steps) && Run(s, steps)[key].owner == s[key].owner
  {
    if steps != [] { OthersKeepOwner(s, steps[..|steps| - 1], key); }
  }

  /** A waiting caller reads after each turn of the others, and settles the row when its time is up. */
  function WaitSteps(s: State, key: Key, schedule: seq<seq<Step>>, polls: nat): seq<Step>
    requires polls <= |schedule|
    decreases |schedule| - polls
  {
    if key in s && Resolved(s[key].row) then [Poll(key)]
    else if polls == |schedule| then [PollTimeout(key)]
    else schedule[polls] + WaitSteps(Run(s, schedule[polls]), key, schedule, polls + 1)
  }

  lemma WaitsAnotherTurn(trace: seq<Step>, s: State, key: Key, schedule: seq<seq<Step>>, polls: nat)
    requires polls < |schedule| && !(key in s && Resolved(s[key].row))
    ensures trace + WaitSteps(s, key, schedule, polls) ==
              (trace + schedule[polls]) + WaitSteps(Run(s, schedule[polls]), key, schedule, polls + 1)
  {
  }

  function SendSteps(key: Key, outcome: SendOutcome, schedule: seq<seq<Step>>): seq<Step> { Turn(schedule, 0) + [Send(key, outcome)] }

  function MarkSteps(key: Key, outcome: SendOutcome, schedule: seq<seq<Step>>): seq<Step> {
    Turn(schedule, 1) + if outcome.SendAccepted? then [Mark(key)] else []
  }

  /** The creator sends once, marks an accepted send, and gives up on everything else. */
  function DeliverSteps(key: Key, outcome: SendOutcome, schedule: seq<seq<Step>>, issued: bool): seq<Step> {
    var sent := SentSteps(key, outcome, schedule);
    if issued then sent else sent + (Turn(schedule, 2) + [GiveUp(key)])
  }

  function SentSteps(key: Key, outcome: SendOutcome, schedule: seq<seq<Step>>): seq<Step> {
    SendSteps(key, outcome, schedule) + MarkSteps(key, outcome, schedule)
  }

  function IssueSteps(s: State, i: Step, outcome: SendOutcome, schedule: seq<seq<Step>>, issued: bool): seq<Step>
    requires i.Issue?
  {
    [i] + FollowUp(Next(s, i), i.key, i.key !in s && i.refusal.None?, outcome, schedule, issued)
  }

  function FollowUp(s: State, key: Key, created: bool, outcome: SendOutcome, schedule: seq<seq<Step>>, issued: bool): seq<Step> {
    if created then DeliverSteps(key, outcome, schedule, issued)
    else if key in s && !Resolved(s[key].row) then WaitSteps(s, key, schedule, 0)
    else []
  }

  lemma Joined(start: State, middle: State, end: State, a: seq<Step>, b: seq<Step>)
    requires middle == Run(start, a) && end == Run(middle, b)
    ensures end == Run(start, a + b)
  {
    RunAppends(start, a, b);
  }

  class ChallengeService {
    var state: State

    /** Existing challenges are returned; a refused request is kept as a terminal challenge; otherwise the
        previous challenge of the subject and action is superseded and a new one created. */
    method IssueTransaction(i: Step) returns (challenge: Challenge, created: bool)
      requires i.Issue?
      modifies this
      ensures state == IssueTx(old(state), i) && i.key in state && challenge == state[i.key].row
      ensures created <==> i.key !in old(state) && i.refusal.None?
      ensures IssuesAsPromised(old(state), state, i)
    {
      IssueKeepsPromise(state, i);
      if i.key in state { return state[i.key].row, false; }
      var row := Challenge(i.subject, i.action, Pending, None, 0, i.maxAttempts, i.expiresAt, None, false);
      if i.refusal.Some? {
        row := Invalidate(row, Refused(i.refusal.value));
        state := state[i.key := Entry(row, Nobody, 0, [], 0, 0)];
        return row, false;
      }
      state := Supersede(state, i.subject, i.action);
      state := state[i.key := Entry(row, Sending, 0, [], 0, 0)];
      return row, true;
    }

    /** Polls until the row is resolved; when the schedule runs out, a still pending dispatch becomes
        acceptance-unknown under the row's lock. */
    method WaitForDirectOutcome(key: Key, initial: Challenge, schedule: seq<seq<Step>>)
      returns (resolved: Challenge, ghost trace: seq<Step>)
      requires Inv(state) && key in state && initial == state[key].row && !Resolved(initial)
      modifies this
      ensures state == Run(old(state), trace) && Inv(state) && key in state && trace == WaitSteps(old(state), key, schedule, 0)
      ensures Resolved(resolved) && resolved == state[key].row
      ensures state[key].answers != [] && state[key].answers[|state[key].answers| - 1] == AnswerFor(resolved)
    {
      var current, polls := initial, 0;
      trace := [];
      while !Resolved(current) && polls < |schedule|
        invariant 0 <= polls <= |schedule|
        invariant state == Run(old(state), trace) && Inv(state) && key in state && current == state[key].row
        invariant trace + WaitSteps(state, key, schedule, polls) == WaitSteps(old(state), key, schedule, 0)
      {
        WaitsAnotherTurn(trace, state, key, schedule, polls);
        Meanwhile(old(state), trace, key, schedule[polls]);
        trace := trace + schedule[polls];
        current, polls := state[key].row, polls + 1;
      }
      ghost var last := if Resolved(current) then Poll(key) else PollTimeout(key);
      Own(old(state), trace, last);
      trace := trace + [last];
      resolved := Recheck(key);
    }

    /** Under the row's lock: a dispatch that is still pending becomes acceptance-unknown. */
    method Recheck(key: Key) returns (locked: Challenge)
      requires key in state
      modifies this
      ensures state == Next(old(state), if Resolved(old(state)[key].row) then Poll(key) else PollTimeout(key))
      ensures key in state && locked == state[key].row && Resolved(locked)
      ensures state[key].answers == old(state)[key].answers + [AnswerFor(locked)]
    {
      locked := state[key].row;
      if !Resolved(locked) { locked := Invalidate(locked, AcceptanceUnknown); }
      state := state[key := Tell(state[key].(row := locked))];
    }

    method Meanwhile(ghost start: State, ghost before: seq<Step>, key: Key, steps: seq<Step>)
      requires Inv(state) && key in state && state == Run(start, before)
      modifies this
      ensures state == Run(start, before + steps) == Run(old(state), steps) && Inv(state) && key in state
    {
      OutcomesAreFinal(state, steps, key);
      RunAppends(start, before, steps);
      state := Run(state, steps);
    }

    /** The creator of a challenge: send once, then settle the row with the outcome. */
    method Deliver(key: Key, outcome: SendOutcome, schedule: seq<seq<Step>>) returns (answer: Answer, ghost trace: seq<Step>)
      requires Inv(state) && key in state && state[key].owner == Sending && ByOthers(schedule, key)
      modifies this
      ensures state == Run(old(state), trace) && Inv(state) && key in state && state[key].owner == Done
      ensures trace == DeliverSteps(key, outcome, schedule, answer == Issued)
      ensures state[key].answers != [] && state[key].answers[|state[key].answers| - 1] == answer
    {
      ghost var start := state;
      var issued := SendAndSettle(key, outcome, schedule);
      trace := SentSteps(key, outcome, schedule);
      if issued { return Issued, trace; }
      answer := AbandonLast(key, schedule, start, trace);
      trace := trace + (Turn(schedule, 2) + [GiveUp(key)]);
    }

    method AbandonLast(key: Key, schedule: seq<seq<Step>>, ghost start: State, ghost before: seq<Step>) returns (answer: Answer)
      requires Inv(state) && key in state && state[key].owner.Failing? && ByOthers(schedule, key) && state == Run(start, before)
      modifies this
      ensures state == Run(start, before + (Turn(schedule, 2) + [GiveUp(key)])) && Inv(state) && key in state && answer.Denied?
      ensures state[key].owner == Done && state[key].answers != [] && state[key].answers[|state[key].answers| - 1] == answer
    {
      ghost var sent := state;
      answer := AbandonAfter(key, Turn(schedule, 2));
      Joined(start, sent, state, before, Turn(schedule, 2) + [GiveUp(key)]);
    }

    method SendAndSettle(key: Key, outcome: SendOutcome, schedule: seq<seq<Step>>) returns (issued: bool)
      requires Inv(state) && key in state && state[key].owner == Sending && ByOthers(schedule, key)
      modifies this
      ensures state == Run(old(state), SentSteps(key, outcome, schedule)) && Inv(state) && key in state
      ensures if issued then state[key].owner == Done && state[key].answers != [] && state[key].answers[|state[key].answers| - 1] == Issued
              else state[key].owner.Failing?
    {
      SendOnce(key, outcome, Turn(schedule, 0));
      ghost var sent := state;
      issued := SettleAccepted(key, outcome, schedule);
      Joined(old(state), sent, state, SendSteps(key, outcome, schedule), MarkSteps(key, outcome, schedule));
    }

    method SendOnce(key: Key, outcome: SendOutcome, turn: seq<Step>)
      requires Inv(state) && key in state && state[key].owner == Sending && forall j | 0 <= j < |turn| :: !OwnerStep(turn[j], key)
      modifies this
      ensures state == Run(old(state), turn + [Send(key, outcome)]) && Inv(state) && key in state
      ensures if outcome.SendAccepted? then state[key].owner == Marking else state[key].owner.Failing?
    {
      Others(key, turn);
      Own(old(state), turn, Send(key, outcome));
      state := state[key := OwnerSends(state[key], outcome)];
    }

    /** Only an accepted send is marked; every other outcome is already failing. */
    method SettleAccepted(key: Key, outcome: SendOutcome, schedule: seq<seq<Step>>) returns (issued: bool)
      requires Inv(state) && key in state && ByOthers(schedule, key)
      requires if outcome.SendAccepted? then state[key].owner == Marking else state[key].owner.Failing?
      modifies this
      ensures state == Run(old(state), MarkSteps(key, outcome, schedule)) && Inv(state) && key in state
      ensures if issued then state[key].owner == Done && state[key].answers != [] && state[key].answers[|state[key].answers| - 1] == Issued
              else state[key].owner.Failing?
    {
      Others(key, Turn(schedule, 1));
      issued := false;
      if outcome.SendAccepted? {
        Own(old(state), Turn(schedule, 1), Mark(key));
        issued := MarkDelivery(key);
      } else {
        assert Turn(schedule, 1) + [] == Turn(schedule, 1);
      }
    }

    method AbandonAfter(key: Key, turn: seq<Step>) returns (answer: Answer)
      requires Inv(state) && key in state && state[key].owner.Failing? && forall j | 0 <= j < |turn| :: !OwnerStep(turn[j], key)
      modifies this
      ensures state == Run(old(state), turn + [GiveUp(key)]) && Inv(state) && key in state && answer.Denied?
      ensures state[key].owner == Done && state[key].answers != [] && state[key].answers[|state[key].answers| - 1] == answer
    {
      Others(key, turn);
      Own(old(state), turn, GiveUp(key));
      answer := Abandon(key);
    }

    method MarkDelivery(key: Key) returns (issued: bool)
      requires key in state && state[key].owner == Marking
      modifies this
      ensures state == Next(old(state), Mark(key)) && key in state
      ensures if issued then state[key].owner == Done && state[key].answers == old(state)[key].answers + [Issued] else state[key].owner.Failing?
    {
      var marked := MarkAccepted(state[key].row);
      var e := state[key].(row := marked);
      issued := marked.terminal.None? && marked.acceptance.Accepted?;
      if issued {
        state := state[key := e.(answers := e.answers + [Issued], owner := Done)];
      } else {
        var code := if marked.terminal.Some? then marked.terminal.value else AcceptanceUnknown;
        state := state[key := e.(owner := Failing(code))];
      }
    }

    method Abandon(key: Key) returns (answer: Answer)
      requires key in state && state[key].owner.Failing?
      modifies this
      ensures state == Next(old(state), GiveUp(key)) && key in state
      ensures state[key].owner == Done && state[key].answers == old(state)[key].answers + [answer] && answer.Denied?
    {
      var invalidated := Invalidate(state[key].row, state[key].owner.code);
      answer := Denied(invalidated.terminal.value);
      var e := state[key];
      state := state[key := e.(row := invalidated, answers := e.answers + [answer], owner := Done)];
    }

    /** Other callers' transactions. */
    method Others(key: Key, steps: seq<Step>)
      requires Inv(state) && key in state && forall j | 0 <= j < |steps| :: !OwnerStep(steps[j], key)
      modifies this
      ensures state == Run(old(state), steps) && Inv(state) && key in state && state[key].owner == old(state)[key].owner
    {
      OthersKeepOwner(state, steps, key);
      OutcomesAreFinal(state, steps, key);
      state := Run(state, steps);
    }

    /** This caller's next step: where it leads and that it keeps the invariant. */
    ghost method Own(start: State, before: seq<Step>, step: Step)
      requires Inv(state) && state == Run(start, before)
      ensures Run(start, before + [step]) == Next(state, step) && Inv(Next(state, step))
    {
      RunOne(start, before, step);
      StepKeepsInv(state, step);
    }

    method Issue(i: Step, outcome: SendOutcome, schedule: seq<seq<Step>>) returns (answer: Answer, ghost trace: seq<Step>)
      requires Inv(state) && i.Issue?
      requires i.key !in state && i.refusal.None? ==> ByOthers(schedule, i.key)
      modifies this
      ensures state == Run(old(state), trace) && Inv(state) && i.key in state
      ensures trace == IssueSteps(old(state), i, outcome, schedule, answer == Issued)
      ensures state[i.key].answers != [] && state[i.key].answers[|state[i.key].answers| - 1] == answer
    {
      trace := [i];
      var challenge, created := Start(i);
      if !created && Resolved(challenge) { return AnswerFor(challenge), trace; }
      ghost var begun := state;
      ghost var more;
      answer, more := Continue(i.key, challenge, created, outcome, schedule);
      Joined(old(state), begun, state, trace, more);
      trace := trace + more;
    }

    method Continue(key: Key, challenge: Challenge, created: bool, outcome: SendOutcome, schedule: seq<seq<Step>>)
      returns (answer: Answer, ghost more: seq<Step>)
      requires Inv(state) && key in state && challenge == state[key].row
      requires if created then state[key].owner == Sending && ByOthers(schedule, key) else !Resolved(challenge)
      modifies this
      ensures state == Run(old(state), more) && Inv(state) && key in state
      ensures more == FollowUp(old(state), key, created, outcome, schedule, answer == Issued)
      ensures state[key].answers != [] && state[key].answers[|state[key].answers| - 1] == answer
    {
      if created {
        answer, more := Deliver(key, outcome, schedule);
      } else {
        answer, more := JoinReplay(key, challenge, schedule);
      }
    }

    method Start(i: Step) returns (challenge: Challenge, created: bool)
      requires Inv(state) && i.Issue?
      modifies this
      ensures state == Next(old(state), i) == Run(old(state), [i]) && Inv(state) && i.key in state && challenge == state[i.key].row
      ensures created <==> i.key !in old(state) && i.refusal.None?
      ensures created ==> state[i.key].owner == Sending
      ensures !created && Resolved(challenge) ==>
                state[i.key].answers != [] && state[i.key].answers[|state[i.key].answers| - 1] == AnswerFor(challenge)
    {
      RunOne(state, [], i);
      StepKeepsInv(state, i);
      assert [] + [i] == [i];
      challenge, created := Begin(i);
    }

    /** The issue transaction, and the answer of a caller that finds the challenge resolved. */
    method Begin(i: Step) returns (challenge: Challenge, created: bool)
      requires i.Issue?
      modifies this
      ensures state == Next(old(state), i) && i.key in state && challenge == state[i.key].row
      ensures created <==> i.key !in old(state) && i.refusal.None?
      ensures created ==> state[i.key].owner == Sending
      ensures !created && Resolved(challenge) ==>
                state[i.key].answers != [] && state[i.key].answers[|state[i.key].answers| - 1] == AnswerFor(challenge)
    {
      challenge, created := IssueTransaction(i);
      assert !created && !Resolved(challenge) ==> Next(old(state), i) == state;
      if !created && Resolved(challenge) { state := state[i.key := Tell(state[i.key])]; }
    }

    method JoinReplay(key: Key, challenge: Challenge, schedule: seq<seq<Step>>) returns (answer: Answer, ghost trace: seq<Step>)
      requires Inv(state) && key in state && challenge == state[key].row && !Resolved(challenge)
      modifies this
      ensures state == Run(old(state), trace) && Inv(state) && key in state && trace == WaitSteps(old(state), key, schedule, 0)
      ensures state[key].answers != [] && state[key].answers[|state[key].answers| - 1] == answer
    {
      var resolved;
      resolved, trace := WaitForDirectOutcome(key, challenge, schedule);
      answer := if resolved.terminal.Some? then Denied(resolved.terminal.value)
                else if !resolved.acceptance.Accepted? then Denied(AcceptanceUnknown) else Issued;
    }

    method Verify(key: Key, correct: bool, now: int) returns (verdict: Verdict)
      modifies this
      ensures state == Next(old(state), OtpChallenge.Step.Verify(key, correct, now))
      ensures verdict == if key in old(state) then Judge(old(state)[key].row, correct, now) else NoProof
      ensures VerifiesAsPromised(old(state), state, verdict, key, correct, now)
    {
      VerifyKeepsPromise(state, key, correct, now);
      if key !in state || state[key].row.verifiedAt.Some? { return NoProof; }
      var e := state[key];
      if e.row.terminal.Some? || !e.row.acceptance.Accepted? { return NotDelivered; }
      if e.row.expiresAt <= now { return Expired; }
      if e.row.attemptCount >= e.row.maxAttempts { return Exhausted; }
      if !correct {
        state := state[key := e.(row := e.row.(attemptCount := e.row.attemptCount + 1), wrong := e.wrong + 1)];
        return WrongCode;
      }
      state := state[key := e.(row := e.row.(verifiedAt := Some(now)), verified := e.verified + 1)];
      return Verified;
    }
  }
}
