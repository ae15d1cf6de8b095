/**
 * One-time-code challenges: the row a challenge keeps, what issuing, polling, settling and verifying do
 * to it, and what every interleaving of callers keeps. A challenge is named by its idempotency key.
 */
module OtpChallenge {
  import opened Basics
  import opened SmsStatus
  import opened SmsStore

  datatype Code = Superseded | AcceptanceUnknown | Refused(reason: string)

  /** The row is invalidated exactly when it has a terminal code. */
  datatype Challenge = Challenge(subject: string, action: string, acceptance: Acceptance, terminal: Option<Code>,
                                 attemptCount: nat, maxAttempts: nat, expiresAt: int, verifiedAt: Option<int>, consumed: bool)

  datatype Answer = Issued | Denied(code: Code)

  /** How far the caller that created the challenge has come. */
  datatype Owner = Nobody | Sending | Marking | Failing(code: Code) | Done

  /** A challenge and everything that was done with it: provider sends, answers to callers, evaluated codes. */
  datatype Entry = Entry(row: Challenge, owner: Owner, sends: nat, answers: seq<Answer>, wrong: nat, verified: nat)

  type State = map<Key, Entry>

  datatype SendOutcome = SendAccepted | SendFailed(reason: string) | SendUnknown

  datatype Step =
    | Issue(key: Key, subject: string, action: string, refusal: Option<string>, maxAttempts: nat, expiresAt: int)
    | Send(key: Key, outcome: SendOutcome)
    | Mark(key: Key)
    | GiveUp(key: Key)
    | Poll(key: Key)
    | PollTimeout(key: Key)
    | Verify(key: Key, correct: bool, now: int)
    | Consume(key: Key, inTime: bool)

  // ----- repository statements -----

  function MarkAccepted(r: Challenge): Challenge { if r.acceptance.Pending? then r.(acceptance := Accepted) else r }

  function Invalidate(r: Challenge, code: Code): Challenge {
    if r.terminal.Some? then r
    else r.(terminal := Some(code), acceptance := if code.AcceptanceUnknown? then Unknown else Rejected)
  }

  predicate Active(r: Challenge) { r.terminal.None? && !r.consumed }

  function Supersede(s: State, subject: string, action: string): State {
    map k | k in s :: if s[k].row.subject == subject && s[k].row.action == action && Active(s[k].row)
                      then s[k].(row := Invalidate(s[k].row, Superseded)) else s[k]
  }

  // ----- what callers are told -----

  predicate Resolved(r: Challenge) { !r.acceptance.Pending? || r.terminal.Some? }

  function AnswerFor(r: Challenge): Answer {
    match r.terminal
    case Some(code) => Denied(code)
    case None => if r.acceptance.Accepted? then Issued else Denied(AcceptanceUnknown)
  }

  function Tell(e: Entry): Entry { e.(answers := e.answers + [AnswerFor(e.row)]) }

  datatype Verdict = NoProof | NotDelivered | Expired | Exhausted | WrongCode | Verified

  /** The checks run in this order; only the last two evaluate the code. */
  function Judge(r: Challenge, correct: bool, now: int): Verdict {
    if r.verifiedAt.Some? then NoProof
    else if r.terminal.Some? || !r.acceptance.Accepted? then NotDelivered
    else if r.expiresAt <= now then Expired
    else if r.attemptCount >= r.maxAttempts then Exhausted
    else if correct then Verified else WrongCode
  }

  // ----- steps -----

  function Created(i: Step): Challenge
    requires i.Issue?
  {
    Challenge(i.subject, i.action, Pending, None, 0, i.maxAttempts, i.expiresAt, None, false)
  }

  /** The issue transaction, under the lock of the idempotency key. */
  function IssueTx(s: State, i: Step): State
    requires i.Issue?
  {
    if i.key in s then s
    else if i.refusal.Some? then s[i.key := Entry(Invalidate(Created(i), Refused(i.refusal.value)), Nobody, 0, [], 0, 0)]
    else Supersede(s, i.subject, i.action)[i.key := Entry(Created(i), Sending, 0, [], 0, 0)]
  }

  /** A caller that did not create the challenge is answered as soon as the row it reads is resolved. */
  function Read(e: Entry): Entry { if Resolved(e.row) then Tell(e) else e }

  function OwnerSends(e: Entry, outcome: SendOutcome): Entry {
    if !e.owner.Sending? then e
    else e.(sends := e.sends + 1,
            owner := match outcome
                     case SendAccepted => Marking
                     case SendFailed(reason) => Failing(Refused(reason))
                     case SendUnknown => Failing(AcceptanceUnknown))
  }

  function OwnerMarks(e: Entry): Entry {
    if !e.owner.Marking? then e
    else
      var e' := e.(row := MarkAccepted(e.row));
      match AnswerFor(e'.row)
      case Issued => Tell(e').(owner := Done)
      case Denied(code) => e'.(owner := Failing(code))
  }

  function OwnerGivesUp(e: Entry): Entry {
    if e.owner.Failing? then Tell(e.(row := Invalidate(e.row, e.owner.code))).(owner := Done) else e
  }

  function ReplayTimesOut(e: Entry): Entry {
    Tell(if Resolved(e.row) then e else e.(row := Invalidate(e.row, AcceptanceUnknown)))
  }

  function Evaluate(e: Entry, correct: bool, now: int): Entry {
    match Judge(e.row, correct, now)
    case WrongCode => e.(row := e.row.(attemptCount := e.row.attemptCount + 1), wrong := e.wrong + 1)
    case Verified => e.(row := e.row.(verifiedAt := Some(now)), verified := e.verified + 1)
    case _ => e
  }

  function ConsumeProof(e: Entry, inTime: bool): Entry {
    if inTime && e.row.verifiedAt.Some? && e.row.terminal.None? && e.row.acceptance.Accepted? then e.(row := e.row.(consumed := true)) else e
  }

  function Act(e: Entry, step: Step): Entry
    requires !step.Issue?
  {
    match step
    case Send(_, outcome) => OwnerSends(e, outcome)
    case Mark(_) => OwnerMarks(e)
    case GiveUp(_) => OwnerGivesUp(e)
    case Poll(_) => Read(e)
    case PollTimeout(_) => ReplayTimesOut(e)
    case Verify(_, correct, now) => Evaluate(e, correct, now)
    case Consume(_, inTime) => ConsumeProof(e, inTime)
  }

  function Next(s: State, step: Step): State {
    if step.Issue? then
      if step.key in s then s[step.key := Read(s[step.key])]
      else if step.refusal.Some? then var s' := IssueTx(s, step); s'[step.key := Tell(s'[step.key])]
      else IssueTx(s, step)
    else if step.key in s then s[step.key := Act(s[step.key], step)]
    else s
  }

  function Run(s: State, steps: seq<Step>): State {
    if steps == [] then s else Next(Run(s, steps[..|steps| - 1]), steps[|steps| - 1])
  }

  lemma {:induction false} RunAppends(s: State, a: seq<Step>, b: seq<Step>)
    ensures Run(s, a + b) == Run(Run(s, a), b)
    decreases |b|
  {
    if b == [] {
      assert a + b == a;
    } else {
      RunAppends(s, a, b[..|b| - 1]);
      assert (a + b)[..|a + b| - 1] == a + b[..|b| - 1];
    }
  }

  lemma RunOne(s: State, a: seq<Step>, step: Step)
    ensures Run(s, a + [step]) == Next(Run(s, a), step)
  {
    assert (a + [step])[..|a|] == a;
  }

  // ----- what every run keeps -----

  /** Answers may only ever change to "superseded", and then stay that way. */
  predicate Consistent(answers: seq<Answer>) {
    forall i, j | 0 <= i < j < |answers| :: answers[j] == answers[i] || answers[j] == Denied(Superseded)
  }

  predicate AnswersFit(e: Entry) {
    match e.row.terminal
    case Some(Superseded) => Consistent(e.answers)
    case _ => if e.row.acceptance.Pending? then e.answers == [] else forall i | 0 <= i < |e.answers| :: e.answers[i] == AnswerFor(e.row)
  }

  predicate OwnerFits(e: Entry) {
    match e.owner
    case Nobody => e.sends == 0 && e.row.terminal.Some?
    case Sending => e.sends == 0 && !e.row.acceptance.Accepted?
    case Marking => e.sends == 1 && !e.row.acceptance.Accepted?
    case Failing(code) => e.sends == 1 && !e.row.acceptance.Accepted? && (code.Superseded? ==> e.row.terminal.Some?)
    case Done => e.sends == 1 && Resolved(e.row)
  }

  predicate VerificationFits(e: Entry) {
    && e.wrong == e.row.attemptCount <= e.row.maxAttempts
    && e.verified == (if e.row.verifiedAt.Some? then 1 else 0)
    && (e.row.consumed ==> e.row.verifiedAt.Some?)
  }

  predicate EntryInv(e: Entry) {
    && (e.row.terminal.Some? <==> e.row.acceptance.Rejected? || e.row.acceptance.Unknown?)
    && AnswersFit(e) && OwnerFits(e) && VerificationFits(e)
  }

  /** One active challenge per subject and action. */
  predicate OneActive(s: State) {
    forall k, l | k in s && l in s && k != l && s[k].row.subject == s[l].row.subject && s[k].row.action == s[l].row.action ::
      !(Active(s[k].row) && Active(s[l].row))
  }

  predicate Inv(s: State) { (forall k | k in s :: EntryInv(s[k])) && OneActive(s) }

  lemma ActKeeps(e: Entry, step: Step)
    requires EntryInv(e) && !step.Issue?
    ensures EntryInv(Act(e, step))
    ensures Act(e, step).row.subject == e.row.subject && Act(e, step).row.action == e.row.action
    ensures Active(Act(e, step).row) ==> Active(e.row)
  {
    var e' := Act(e, step);
    assert AnswersFit(e') by { ActKeepsAnswers(e, step); }
    assert VerificationFits(e') by { ActKeepsVerification(e, step); }
  }

  lemma ActKeepsAnswers(e: Entry, step: Step)
    requires EntryInv(e) && !step.Issue?
    ensures AnswersFit(Act(e, step))
  {
  }

  lemma ActKeepsVerification(e: Entry, step: Step)
    requires EntryInv(e) && !step.Issue?
    ensures VerificationFits(Act(e, step))
  {
  }

  lemma ReadKeeps(e: Entry)
    requires EntryInv(e)
    ensures EntryInv(Read(e)) && Read(e).row == e.row
  {
  }

  lemma SupersedeKeeps(s: State, subject: string, action: string)
    requires Inv(s)
    ensures Inv(Supersede(s, subject, action))
    ensures forall k | k in s && s[k].row.subject == subject && s[k].row.action == action :: !Active(Supersede(s, subject, action)[k].row)
  {
  }

  lemma NewEntryKeeps(s: State, k: Key, e: Entry)
    requires Inv(s) && k !in s && EntryInv(e)
    requires Active(e.row) ==> forall l | l in s && s[l].row.subject == e.row.subject && s[l].row.action == e.row.action :: !Active(s[l].row)
    ensures Inv(s[k := e])
  {
  }

  lemma StepKeepsInv(s: State, step: Step)
    requires Inv(s)
    ensures Inv(Next(s, step))
  {
    if step.key in s {
      var e := if step.Issue? then Read(s[step.key]) else Act(s[step.key], step);
      if step.Issue? { ReadKeeps(s[step.key]); } else { ActKeeps(s[step.key], step); }
    } else if step.Issue? && step.refusal.Some? {
      var refused := Entry(Invalidate(Created(step), Refused(step.refusal.value)), Nobody, 0, [], 0, 0);
      NewEntryKeeps(s, step.key, Tell(refused));
      assert Next(s, step) == s[step.key := Tell(refused)];
    } else if step.Issue? {
      SupersedeKeeps(s, step.subject, step.action);
      NewEntryKeeps(Supersede(s, step.subject, step.action), step.key, Entry(Created(step), Sending, 0, [], 0, 0));
    }
  }

  lemma {:induction false} ReachableInv(steps: seq<Step>)
    ensures Inv(Run(map[], steps))
  {
    if steps != [] {
      ReachableInv(steps[..|steps| - 1]);
      StepKeepsInv(Run(map[], steps[..|steps| - 1]), steps[|steps| - 1]);
    }
  }

  // ----- the promises -----

  /** However callers race, they are all told the same, until a newer issue supersedes the challenge;
      from then on every caller is told so. */
  lemma CallersAgree(steps: seq<Step>, k: Key)
    requires k in Run(map[], steps)
    ensures var e := Run(map[], steps)[k];
            Consistent(e.answers) && (e.row.terminal != Some(Superseded) ==> forall i | 0 <= i < |e.answers| :: e.answers[i] == AnswerFor(e.row))
  {
    ReachableInv(steps);
    assert EntryInv(Run(map[], steps)[k]);
  }

  /** One provider send per idempotency key, and a code that may have been sent is never sent again. */
  lemma OneSendPerKey(steps: seq<Step>, k: Key)
    requires k in Run(map[], steps)
    ensures Run(map[], steps)[k].sends <= 1
  {
    ReachableInv(steps);
    assert EntryInv(Run(map[], steps)[k]);
  }

  lemma OneActiveChallenge(steps: seq<Step>, k: Key, l: Key)
    requires k in Run(map[], steps) && l in Run(map[], steps) && k != l
    requires Run(map[], steps)[k].row.subject == Run(map[], steps)[l].row.subject && Run(map[], steps)[k].row.action == Run(map[], steps)[l].row.action
    ensures !(Active(Run(map[], steps)[k].row) && Active(Run(map[], steps)[l].row))
  {
    ReachableInv(steps);
  }

  /** At most maxAttempts wrong codes are ever evaluated, and a challenge verifies at most once. */
  lemma GuessesAreBounded(steps: seq<Step>, k: Key)
    requires k in Run(map[], steps)
    ensures Run(map[], steps)[k].wrong <= Run(map[], steps)[k].row.maxAttempts && Run(map[], steps)[k].verified <= 1
  {
    ReachableInv(steps);
    assert EntryInv(Run(map[], steps)[k]);
  }

  /** What later steps may do to a challenge: nothing to its identity or to what was recorded, and its
      delivery outcome changes only as stated. */
  predicate Evolves(before: Entry, after: Entry) {
    && after.row.subject == before.row.subject && after.row.action == before.row.action && after.row.maxAttempts == before.row.maxAttempts
    && before.answers <= after.answers && before.wrong <= after.wrong && before.verified <= after.verified
    && (before.row.terminal.Some? ==> after.row.terminal == before.row.terminal && after.row.acceptance == before.row.acceptance)
    && (before.row.acceptance.Accepted? ==> after.row.acceptance.Accepted? || after.row.terminal == Some(Superseded))
  }

  lemma ActEvolves(e: Entry, step: Step)
    requires EntryInv(e) && !step.Issue?
    ensures Evolves(e, Act(e, step))
  {
  }

  lemma IssueEvolves(s: State, i: Step, k: Key)
    requires i.Issue? && k in s
    ensures k in Next(s, i) && Evolves(s[k], Next(s, i)[k])
  {
  }

  lemma StepEvolves(s: State, step: Step, k: Key)
    requires Inv(s) && k in s
    ensures k in Next(s, step) && Evolves(s[k], Next(s, step)[k])
  {
    if step.Issue? {
      IssueEvolves(s, step, k);
    } else if step.key == k {
      ActEvolves(s[k], step);
    }
  }

  /** A decided challenge stays decided: only a newer issue can take an accepted one back. */
  lemma {:induction false} OutcomesAreFinal(s: State, steps: seq<Step>, k: Key)
    requires Inv(s) && k in s
    ensures Inv(Run(s, steps)) && k in Run(s, steps) && Evolves(s[k], Run(s, steps)[k])
  {
    if steps != [] {
      var n := |steps| - 1;
      OutcomesAreFinal(s, steps[..n], k);
      StepKeepsInv(Run(s, steps[..n]), steps[n]);
      StepEvolves(Run(s, steps[..n]), steps[n], k);
    }
  }

  /** A caller told "issued" can verify with the right code, unless the challenge was superseded, ran
      out of time or guesses, or was already verified. */
  lemma IssuedCanBeVerified(steps: seq<Step>, k: Key, now: int)
    requires k in Run(map[], steps) && Issued in Run(map[], steps)[k].answers
    ensures var r := Run(map[], steps)[k].row;
            r.terminal != Some(Superseded) && r.verifiedAt.None? && now < r.expiresAt && r.attemptCount < r.maxAttempts ==>
              Judge(r, true, now) == Verified
  {
    ReachableInv(steps);
    assert EntryInv(Run(map[], steps)[k]);
  }
}
