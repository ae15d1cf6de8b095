/** Sending under the hourly rule: a reservation before the provider is called, a completion after it. */
module SendReservation {
  import opened Basics
  import opened RateWindow

  datatype Event = Reserve(at: int) | Finish(at: int)

  /** The key, and the times at which reservations were granted and finished so far. */
  datatype Day = Day(key: Key, granted: seq<int>, finished: seq<int>)

  const FIRST_DAY := Day(NO_KEY, [], [])

  predicate Open(d: Day) { |d.granted| == |d.finished| + 1 }

  function Handle(d: Day, e: Event): Day {
    match e
    case Reserve(at) =>
      var (key, answer) := Script(d.key, at, HOUR, true);
      Day(key, if answer.allowed then d.granted + [at] else d.granted, d.finished)
    case Finish(at) => Day(Finished(d.key, at).0, d.granted, d.finished + [at])
  }

  function After(events: seq<Event>): Day {
    if events == [] then FIRST_DAY else Handle(After(events[..|events| - 1]), events[|events| - 1])
  }

  /** Time does not go back, only an open reservation is finished, and nothing happens to a reservation
      after its pending marker lapsed. */
  predicate InTime(d: Day, before: int, e: Event) {
    before <= e.at && (e.Finish? ==> Open(d)) && (Open(d) ==> e.at < Last(d.granted) + PENDING_MS)
  }

  predicate Timely(events: seq<Event>) {
    events != [] ==>
      var n := |events| - 1;
      Timely(events[..n]) && InTime(After(events[..n]), if n == 0 then events[0].at else events[n - 1].at, events[n])
  }

  // ----- what the key stands for -----

  /** The key of an open reservation: the finished sends that still counted, then the reservation itself. */
  predicate Reserved(k: Key, finished: seq<int>, r: int) {
    && k.pending == Some(r + PENDING_MS) && k.expireAt == Some(r + PENDING_MS)
    && Ordered(finished + [r]) && Suffix(k.scores, finished + [r], r - HOUR.window) && 0 < |k.scores| <= HOUR.limit
  }

  predicate Follows(d: Day, now: int) {
    if Open(d) then Reserved(d.key, d.finished, Last(d.granted)) && Last(d.granted) <= now
    else |d.granted| == |d.finished| && Stands(d.key, d.finished, now, HOUR)
  }

  /** A send waits a minute after the previous completion, and an hour after the fifth completion before it. */
  predicate Paced(d: Day) {
    && |d.finished| <= |d.granted| && (forall i | 0 <= i < |d.finished| :: d.granted[i] <= d.finished[i])
    && forall i, j | 0 <= i < j < |d.granted| && i < |d.finished| ::
         d.granted[j] >= d.finished[i] + 60_000 && (j >= i + 5 ==> d.granted[j] >= d.finished[i] + 3_600_000)
  }

  lemma ReserveDecides(k: Key, finished: seq<int>, before: int, at: int)
    requires Stands(k, finished, before, HOUR) && before <= at
    ensures Script(k, at, HOUR, true).1.allowed <==> Admits(finished, at, HOUR)
    ensures !Admits(finished, at, HOUR) ==> Stands(Script(k, at, HOUR, true).0, finished, at, HOUR)
    ensures Admits(finished, at, HOUR) ==> Reserved(Script(k, at, HOUR, true).0, finished, at)
  {
    var live := Trim(finished, at - HOUR.window);
    ScriptFollowsLog(k, finished, before, at, HOUR);
    LiveIsLive(k, finished, before, at, HOUR);
    TrimIsSuffix(finished, at - HOUR.window);
    if Admits(finished, at, HOUR) { GrantReserves(live, finished, at); }
  }

  lemma GrantReserves(live: seq<int>, finished: seq<int>, at: int)
    requires Ordered(finished) && (finished != [] ==> Last(finished) <= at) && Suffix(live, finished, at - HOUR.window)
    requires |live| < HOUR.limit
    ensures Reserved(Grant(live, at, HOUR, true).0, finished, at)
  {
    AddToSuffix(live, finished, at - HOUR.window, at);
  }

  lemma GrantKeepsPace(d: Day, at: int, k: Key)
    requires Paced(d) && !Open(d) && |d.granted| == |d.finished| && Ordered(d.finished) && Admits(d.finished, at, HOUR)
    ensures Paced(Day(k, d.granted + [at], d.finished))
  {
    forall i | 0 <= i < |d.finished|
      ensures at >= d.finished[i] + 60_000 && (|d.granted| >= i + 5 ==> at >= d.finished[i] + 3_600_000)
    {
      AdmittedIsSpaced(d.finished, at, HOUR, i);
    }
  }

  lemma ReserveFollows(d: Day, before: int, at: int)
    requires Follows(d, before) && Paced(d) && InTime(d, before, Reserve(at))
    ensures Follows(Handle(d, Reserve(at)), at) && Paced(Handle(d, Reserve(at)))
    ensures Handle(d, Reserve(at)).granted == d.granted + if !Open(d) && Admits(d.finished, at, HOUR) then [at] else []
  {
    if Open(d) {
      assert Script(d.key, at, HOUR, true) == (d.key, Answer(false, Last(d.granted) + PENDING_MS));
    } else {
      ReserveDecides(d.key, d.finished, before, at);
      if Admits(d.finished, at, HOUR) { GrantKeepsPace(d, at, Script(d.key, at, HOUR, true).0); }
    }
  }

  lemma FinishStands(k: Key, finished: seq<int>, r: int, at: int)
    requires Reserved(k, finished, r) && r <= at < r + PENDING_MS
    ensures Stands(Finished(k, at).0, finished + [at], at, HOUR)
    ensures Finished(k, at).0.scores == k.scores[..|k.scores| - 1] + [at]
  {
    var others := k.scores[..|k.scores| - 1];
    assert Finished(k, at) == Completed(others, at);
    DropReservation(k.scores, finished, r, at);
    CompletedStands(others, finished, at);
  }

  lemma CompletedStands(others: seq<int>, finished: seq<int>, at: int)
    requires Suffix(others, finished, at - HOUR.window) && Ordered(finished) && (finished != [] ==> Last(finished) <= at)
    ensures Stands(Completed(others, at).0, finished + [at], at, HOUR) && Completed(others, at).0.scores == others + [at]
  {
    AddToSuffix(others, finished, at - HOUR.window, at);
  }

  lemma FinishFollows(d: Day, before: int, at: int)
    requires Follows(d, before) && Paced(d) && InTime(d, before, Finish(at))
    ensures Follows(Handle(d, Finish(at)), at) && Paced(Handle(d, Finish(at)))
  {
    FinishStands(d.key, d.finished, Last(d.granted), at);
  }

  lemma DropReservation(scores: seq<int>, finished: seq<int>, r: int, at: int)
    requires scores != [] && Suffix(scores, finished + [r], r - HOUR.window) && Ordered(finished + [r]) && r <= at
    ensures Suffix(scores[..|scores| - 1], finished, at - HOUR.window) && Ordered(finished)
    ensures finished != [] ==> Last(finished) <= at
  {
    var all := finished + [r];
    assert forall i | 0 <= i < |finished| :: finished[i] == all[i] <= all[|finished|] == r;
  }

  /** In every run whose reservations are finished in time. */
  lemma {:induction false} TimelyRun(events: seq<Event>)
    requires Timely(events)
    ensures Paced(After(events)) && (events != [] ==> Follows(After(events), events[|events| - 1].at))
  {
    if events != [] {
      var n := |events| - 1;
      TimelyRun(events[..n]);
      var d := After(events[..n]);
      var before := if n == 0 then events[0].at else events[n - 1].at;
      match events[n] {
        case Reserve(at) => ReserveFollows(d, before, at);
        case Finish(at) => FinishFollows(d, before, at);
      }
    }
  }

  /** At most five sends are granted, and at most five finish, in any hour. */
  lemma FivePerHour(events: seq<Event>, t: int)
    requires Timely(events)
    ensures |Within(After(events).granted, t, 3_600_000)| <= 5 && |Within(After(events).finished, t, 3_600_000)| <= 5
  {
    TimelyRun(events);
    var d := After(events);
    PacedIsSpaced(d);
    WithinSmall(d.granted, t, HOUR);
    WithinSmall(d.finished, t, HOUR);
  }

  lemma PacedIsSpaced(d: Day)
    requires Paced(d) && |d.granted| <= |d.finished| + 1
    ensures Ordered(d.granted) && Spaced(d.granted, HOUR) && Ordered(d.finished) && Spaced(d.finished, HOUR)
  {
  }

  // ----- what the completion promises -----

  /** After a completion the next reservation is granted exactly from the returned time on. */
  lemma FinishAnswerIsExact(events: seq<Event>, at: int, t: int)
    requires Timely(events + [Finish(at)]) && at <= t
    ensures Script(After(events + [Finish(at)]).key, t, HOUR, true).1.allowed <==> t >= Finished(After(events).key, at).1
    ensures Finished(After(events).key, at).1 >= at + 60_000
  {
    var all := events + [Finish(at)];
    assert all[..|all| - 1] == events;
    var d := After(events);
    TimelyRun(events);
    TimelyRun(all);
    FinishStands(d.key, d.finished, Last(d.granted), at);
    NextReservation(Finished(d.key, at), d.finished + [at], at, t);
  }

  lemma NextReservation(done: (Key, int), log: seq<int>, at: int, t: int)
    requires Stands(done.0, log, at, HOUR) && done.0.scores != [] && |done.0.scores| <= 5 && Last(log) == at <= t
    requires done.1 == if |done.0.scores| >= 5 then Max(at + 60_000, done.0.scores[0] + 3_600_000) else at + 60_000
    ensures Script(done.0, t, HOUR, true).1.allowed <==> t >= done.1
  {
    ReserveDecides(done.0, log, at, t);
    CompletionRetry(done.0.scores, log, at, t);
  }

  lemma CompletionRetry(scores: seq<int>, log: seq<int>, at: int, t: int)
    requires Ordered(log) && Suffix(scores, log, at - HOUR.window) && scores != [] && |scores| <= 5 && Last(log) == at <= t
    ensures Admits(log, t, HOUR) <==> t >= if |scores| >= 5 then Max(at + 60_000, scores[0] + 3_600_000) else at + 60_000
  {
    var live := Trim(log, at - HOUR.window);
    TrimSplits(log, at - HOUR.window);
    assert |live| <= |scores|;
    AdmitsFromRetry(log, at, HOUR, t);
  }

  // ----- a reservation that is never finished -----

  /** Until its marker lapses it blocks every send; one instant later the hourly rule decides; after
      that the key has expired with the whole hour's history and the next send is always granted. */
  lemma UnfinishedReservation(k: Key, finished: seq<int>, r: int, t: int)
    requires Reserved(k, finished, r) && r <= t
    ensures Script(k, t, HOUR, true).1.allowed <==>
              t > r + PENDING_MS || (t == r + PENDING_MS && Admits(finished + [r], t, HOUR))
  {
    if t > r + PENDING_MS {
      assert Expire(k, t) == NO_KEY && Trim([], t - HOUR.window) == [];
    } else if t == r + PENDING_MS {
      var log := finished + [r];
      var scores := k.scores;
      TrimDropped(scores, log, t - HOUR.window);
      AdmitsByRetry(log, t, HOUR);
    }
  }

  /** So the decision agrees with the hourly rule at every moment but those at which an open marker
      blocks a send the rule would admit, or at which the lapse has erased a full hour. */
  lemma UnfinishedAgreesIff(k: Key, finished: seq<int>, r: int, t: int)
    requires Reserved(k, finished, r) && r <= t
    ensures (Script(k, t, HOUR, true).1.allowed <==> Admits(finished + [r], t, HOUR)) <==>
              if t < r + PENDING_MS then !Admits(finished + [r], t, HOUR)
              else t == r + PENDING_MS || Admits(finished + [r], t, HOUR)
  {
    UnfinishedReservation(k, finished, r, t);
  }

  function Minutes(n: nat): seq<int> { if n == 0 then [] else Minutes(n - 1) + [60_000 * (n - 1)] }

  lemma {:induction false} MinutesShape(n: nat)
    ensures |Minutes(n)| == n && forall i | 0 <= i < n :: Minutes(n)[i] == 60_000 * i
  {
    if n > 0 { MinutesShape(n - 1); }
  }

  lemma MinutesAdmit(n: nat)
    requires n <= 4
    ensures Admits(Minutes(n), 60_000 * n, HOUR)
  {
    MinutesShape(n);
    TrimKeepsAll(Minutes(n), 60_000 * n - HOUR.window);
  }

  /** n sends on the minute, each finished at once. */
  function Sends(n: nat): seq<Event> {
    if n == 0 then [] else Sends(n - 1) + [Reserve(60_000 * (n - 1)), Finish(60_000 * (n - 1))]
  }

  lemma Steps(events: seq<Event>, e: Event)
    ensures After(events + [e]) == Handle(After(events), e)
    ensures Timely(events + [e]) <==> Timely(events) && InTime(After(events), if events == [] then e.at else events[|events| - 1].at, e)
  {
    assert (events + [e])[..|events|] == events;
  }

  lemma {:induction false} SendsRun(n: nat)
    requires n <= 4
    ensures Timely(Sends(n)) && After(Sends(n)).granted == After(Sends(n)).finished == Minutes(n)
    ensures n > 0 ==> Sends(n) != [] && Sends(n)[|Sends(n)| - 1] == Finish(60_000 * (n - 1))
  {
    if n > 0 {
      SendsRun(n - 1);
      OneSend(Sends(n - 1), n - 1);
    }
  }

  lemma OneSend(events: seq<Event>, n: nat)
    requires n <= 3 && Timely(events) && After(events).granted == After(events).finished == Minutes(n)
    requires if n == 0 then events == [] else events != [] && events[|events| - 1] == Finish(60_000 * (n - 1))
    ensures Timely(events + [Reserve(60_000 * n), Finish(60_000 * n)])
    ensures After(events + [Reserve(60_000 * n), Finish(60_000 * n)]).granted == Minutes(n + 1)
    ensures After(events + [Reserve(60_000 * n), Finish(60_000 * n)]).finished == Minutes(n + 1)
  {
    var at := 60_000 * n;
    var reserved := events + [Reserve(at)];
    OpenSend(events, n);
    Steps(reserved, Finish(at));
    assert reserved + [Finish(at)] == events + [Reserve(at), Finish(at)];
  }

  lemma OpenSend(events: seq<Event>, n: nat)
    requires n <= 4 && Timely(events) && After(events).granted == After(events).finished == Minutes(n)
    requires if n == 0 then events == [] else events != [] && events[|events| - 1] == Finish(60_000 * (n - 1))
    ensures Timely(events + [Reserve(60_000 * n)])
    ensures After(events + [Reserve(60_000 * n)]).granted == Minutes(n + 1) && After(events + [Reserve(60_000 * n)]).finished == Minutes(n)
  {
    var at := 60_000 * n;
    Steps(events, Reserve(at));
    MinutesAdmit(n);
    TimelyRun(events);
    ReserveFollows(After(events), if n == 0 then at else 60_000 * (n - 1), at);
  }

  lemma SendAfterLapse(events: seq<Event>, t: int)
    requires Timely(events) && events != [] && Open(After(events)) && t > Last(After(events).granted) + PENDING_MS
    ensures After(events + [Reserve(t)]).granted == After(events).granted + [t]
  {
    var d := After(events);
    TimelyRun(events);
    Steps(events, Reserve(t));
    UnfinishedReservation(d.key, d.finished, Last(d.granted), t);
  }

  lemma {:induction false} WithinAppend(log: seq<int>, x: int, t: int, window: int)
    ensures Within(log + [x], t, window) == Within(log, t, window) + if t - window < x <= t then multiset{x} else multiset{}
  {
    if log == [] {
      assert [x][1..] == [];
    } else {
      WithinAppend(log[1..], x, t, window);
      assert (log + [x])[1..] == log[1..] + [x];
    }
  }

  /** In any run: the send granted after an unfinished reservation lapsed is a sixth in its hour exactly when that hour already had five. */
  lemma UnfinishedExceedsIff(events: seq<Event>, t: int)
    requires Timely(events) && events != [] && Open(After(events)) && t > Last(After(events).granted) + PENDING_MS
    ensures |Within(After(events + [Reserve(t)]).granted, t, 3_600_000)| > 5 <==> |Within(After(events).granted, t, 3_600_000)| == 5
  {
    SendAfterLapse(events, t);
    FivePerHour(events, t);
    WithinAppend(After(events).granted, t, t, 3_600_000);
  }

  lemma FifthSend()
    ensures Timely(Sends(4) + [Reserve(240_000)]) && After(Sends(4) + [Reserve(240_000)]).granted == Minutes(5)
    ensures |After(Sends(4) + [Reserve(240_000)]).finished| == 4
  {
    SendsRun(4);
    OpenSend(Sends(4), 4);
    MinutesShape(4);
  }

  /** Five sends in five minutes, the fifth never finished: a sixth is granted within the same hour. */
  lemma UnfinishedBreaksTheHour()
    ensures exists events :: |Within(After(events).granted, 600_001, 3_600_000)| == 6
  {
    FifthSend();
    MinutesShape(5);
    var five := Sends(4) + [Reserve(240_000)];
    SendAfterLapse(five, 600_001);
    SixWithin();
    assert |Within(After(five + [Reserve(600_001)]).granted, 600_001, 3_600_000)| == 6;
  }

  lemma SixWithin()
    ensures |Within(Minutes(5) + [600_001], 600_001, 3_600_000)| == 6
  {
    assert Minutes(5) == [0, 60_000, 120_000, 180_000, 240_000];
    var s := [0, 60_000, 120_000, 180_000, 240_000, 600_001];
    assert Minutes(5) + [600_001] == s;
    AllWithin(s, 600_001, 3_600_000);
  }

  lemma {:induction false} AllWithin(log: seq<int>, t: int, window: int)
    requires forall i | 0 <= i < |log| :: t - window < log[i] <= t
    ensures |Within(log, t, window)| == |log|
  {
    if log != [] { AllWithin(log[1..], t, window); }
  }
}
