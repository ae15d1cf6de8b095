/** The Redis sliding-window limiter: its scripts, the log of grants they stand for, and what every run keeps. */
module RateWindow {
  import opened Basics

  /** One limiter key: the scores of its members in order, the pending marker's score, the key's expiry. */
  datatype Key = Key(scores: seq<int>, pending: Option<int>, expireAt: Option<int>)

  datatype Rule = Rule(window: int, limit: int, interval: int)
  datatype Answer = Answer(allowed: bool, retryAt: int)

  const NO_KEY := Key([], None, None)
  const PENDING_MS := 360_000
  const HOUR := Rule(3_600_000, 5, 60_000)

  predicate Sensible(r: Rule) { r.window > 0 && r.limit >= 1 && r.interval >= 0 }

  function Min(a: int, b: int): int { if a < b then a else b }

  function Max(a: int, b: int): int { if a < b then b else a }

  predicate Ordered(s: seq<int>) { forall i, j | 0 <= i < j < |s| :: s[i] <= s[j] }

  function Last(s: seq<int>): int
    requires s != []
  {
    s[|s| - 1]
  }

  // ----- the commands -----

  /** A key past its expiry is gone. */
  function Expire(k: Key, now: int): Key { if k.expireAt.Some? && now > k.expireAt.value then NO_KEY else k }

  /** ZREMRANGEBYSCORE -inf cut. */
  function Trim(scores: seq<int>, cut: int): seq<int> {
    if scores == [] then [] else (if scores[0] <= cut then [] else [scores[0]]) + Trim(scores[1..], cut)
  }

  /** ZADD of a new member. */
  function Add(scores: seq<int>, x: int): (r: seq<int>)
    ensures |r| == |scores| + 1
  {
    if scores == [] then [x] else if x < scores[0] then [x] + scores else [scores[0]] + Add(scores[1..], x)
  }

  /** The earliest retry the script computes from a trimmed set. */
  function Retry(live: seq<int>, now: int, rule: Rule): int
    requires rule.limit >= 1
  {
    var spaced := if live == [] then now else Max(now, Last(live) + rule.interval);
    if |live| >= rule.limit then Max(spaced, live[0] + rule.window) else spaced
  }

  /** The window script. */
  function Script(stored: Key, now: int, rule: Rule, pending: bool): (Key, Answer)
    requires Sensible(rule)
  {
    var k := Expire(stored, now);
    if k.pending.Some? && k.pending.value > now then (k, Answer(false, k.pending.value)) else
      Decide(k.expireAt, Trim(k.scores, now - rule.window), now, rule, pending)
  }

  /** The script once the marker is out of the way and the set is trimmed. */
  function Decide(expireAt: Option<int>, live: seq<int>, now: int, rule: Rule, pending: bool): (Key, Answer)
    requires Sensible(rule)
  {
    var retry := Retry(live, now, rule);
    if retry > now then (Key(live, None, expireAt), Answer(false, retry)) else Grant(live, now, rule, pending)
  }

  function Grant(live: seq<int>, now: int, rule: Rule, pending: bool): (Key, Answer)
    requires Sensible(rule)
  {
    var scores := Add(live, now);
    var next := if |live| + 1 >= rule.limit then Max(now + rule.interval, scores[0] + rule.window) else now + rule.interval;
    if pending then (Key(scores, Some(now + PENDING_MS), Some(now + PENDING_MS)), Answer(true, next))
    else (Key(scores, None, Some(now + rule.window)), Answer(true, next))
  }

  /** The completion script: the newest member moves to the completion time. */
  function Finished(stored: Key, now: int): (Key, int) {
    var k := Expire(stored, now);
    Completed(if k.scores == [] then [] else k.scores[..|k.scores| - 1], now)
  }

  function Completed(others: seq<int>, now: int): (Key, int) {
    var scores := Add(others, now);
    var retry := if |scores| >= HOUR.limit then Max(now + HOUR.interval, scores[0] + HOUR.window) else now + HOUR.interval;
    (Key(scores, None, Some(now + HOUR.window)), retry)
  }

  // ----- the rule the limiter stands for: a log of all grants, never trimmed, never expired -----

  /** Fewer than `limit` grants in the window that ends now, and the last of them at least `interval` ago. */
  predicate Admits(log: seq<int>, now: int, rule: Rule) {
    var live := Trim(log, now - rule.window);
    |live| < rule.limit && (live == [] || Last(live) + rule.interval <= now)
  }

  lemma {:induction false} AddLast(scores: seq<int>, x: int)
    requires forall i | 0 <= i < |scores| :: scores[i] <= x
    ensures Add(scores, x) == scores + [x]
  {
    if scores == [] {
      assert scores + [x] == [x];
    } else {
      AddLast(scores[1..], x);
      assert scores == [scores[0]] + scores[1..];
    }
  }

  /** The scores are a suffix of the log, and what the log has before it is at or below the cut. */
  predicate Suffix(scores: seq<int>, log: seq<int>, cut: int) {
    && |scores| <= |log| && (forall i | 0 <= i < |scores| :: scores[i] == log[|log| - |scores| + i])
    && forall i | 0 <= i < |log| - |scores| :: log[i] <= cut
  }

  lemma SuffixOfTail(scores: seq<int>, log: seq<int>, cut: int)
    requires log != [] && log[0] <= cut && Suffix(scores, log[1..], cut)
    ensures Suffix(scores, log, cut)
  {
    forall i | 0 <= i < |log| - |scores| ensures log[i] <= cut { if i > 0 { assert log[1..][i - 1] <= cut; } }
  }

  /** Of an ordered log exactly a suffix survives: the scores above the cut. */
  lemma {:induction false} TrimIsSuffix(log: seq<int>, cut: int)
    requires Ordered(log)
    ensures Suffix(Trim(log, cut), log, cut) && forall i | 0 <= i < |Trim(log, cut)| :: Trim(log, cut)[i] > cut
  {
    if log != [] && log[0] > cut {
      TrimKeepsAll(log, cut);
    } else if log != [] {
      TrimIsSuffix(log[1..], cut);
      SuffixOfTail(Trim(log[1..], cut), log, cut);
      assert Trim(log, cut) == Trim(log[1..], cut);
    }
  }

  lemma {:induction false} TrimKeepsAll(log: seq<int>, cut: int)
    requires forall i | 0 <= i < |log| :: log[i] > cut
    ensures Trim(log, cut) == log
  {
    if log != [] { TrimKeepsAll(log[1..], cut); }
  }

  /** Trimming what was dropped earlier changes nothing later. */
  lemma {:induction false} TrimDropped(scores: seq<int>, log: seq<int>, cut: int)
    requires Suffix(scores, log, cut)
    ensures Trim(scores, cut) == Trim(log, cut)
  {
    if |scores| < |log| { TrimDropped(scores, log[1..], cut); } else { assert scores == log; }
  }

  /** The key stands for the log: it holds a suffix, nothing dropped can matter again, and it lives long enough. */
  predicate Stands(k: Key, log: seq<int>, now: int, rule: Rule) {
    && Ordered(log) && k.pending == None && Suffix(k.scores, log, now - rule.window)
    && if log == [] then k.expireAt == None else Last(log) <= now && k.expireAt == Some(Last(log) + rule.window)
  }

  /** What the script looks at is the live part of the whole log, even if the key expired. */
  lemma LiveIsLive(k: Key, log: seq<int>, before: int, now: int, rule: Rule)
    requires Sensible(rule) && Stands(k, log, before, rule) && before <= now
    ensures Expire(k, now).pending == None && Trim(Expire(k, now).scores, now - rule.window) == Trim(log, now - rule.window)
  {
    var scores := Expire(k, now).scores;
    assert Suffix(scores, log, now - rule.window);
    TrimDropped(scores, log, now - rule.window);
  }

  lemma AddToSuffix(live: seq<int>, log: seq<int>, cut: int, x: int)
    requires Suffix(live, log, cut) && Ordered(log) && (log != [] ==> Last(log) <= x)
    ensures Add(live, x) == live + [x] && Suffix(live + [x], log + [x], cut) && Ordered(log + [x])
  {
    assert forall i | 0 <= i < |log| :: log[i] <= x;
    AddLast(live, x);
  }

  lemma ScriptDecidesOnLog(k: Key, log: seq<int>, before: int, now: int, rule: Rule)
    requires Sensible(rule) && Stands(k, log, before, rule) && before <= now
    ensures Script(k, now, rule, false) == Decide(Expire(k, now).expireAt, Trim(log, now - rule.window), now, rule, false)
    ensures Script(k, now, rule, false).1.allowed <==> Admits(log, now, rule)
  {
    LiveIsLive(k, log, before, now, rule);
    AdmitsByRetry(log, now, rule);
  }

  lemma ScriptFollowsLog(k: Key, log: seq<int>, before: int, now: int, rule: Rule)
    requires Sensible(rule) && Stands(k, log, before, rule) && before <= now
    ensures Script(k, now, rule, false).1.allowed <==> Admits(log, now, rule)
    ensures Stands(Script(k, now, rule, false).0, if Admits(log, now, rule) then log + [now] else log, now, rule)
  {
    ScriptDecidesOnLog(k, log, before, now, rule);
    ScriptLeaves(k, log, before, now, rule);
    if Admits(log, now, rule) {
      TrimIsSuffix(log, now - rule.window);
      GrantStands(Trim(log, now - rule.window), log, now, rule);
    } else {
      DenialStands(k, log, before, now, rule);
    }
  }

  lemma ScriptLeaves(k: Key, log: seq<int>, before: int, now: int, rule: Rule)
    requires Sensible(rule) && Stands(k, log, before, rule) && before <= now
    ensures Script(k, now, rule, false).0 ==
              if Admits(log, now, rule) then Grant(Trim(log, now - rule.window), now, rule, false).0
              else Key(Trim(log, now - rule.window), None, Expire(k, now).expireAt)
  {
    ScriptDecidesOnLog(k, log, before, now, rule);
    DecideByAdmits(Expire(k, now).expireAt, log, now, rule);
  }

  lemma DecideByAdmits(expireAt: Option<int>, log: seq<int>, now: int, rule: Rule)
    requires Sensible(rule) && Ordered(log)
    ensures var live := Trim(log, now - rule.window);
            Decide(expireAt, live, now, rule, false).0 ==
              if Admits(log, now, rule) then Grant(live, now, rule, false).0 else Key(live, None, expireAt)
  {
    AdmitsByRetry(log, now, rule);
  }

  lemma DenialStands(k: Key, log: seq<int>, before: int, now: int, rule: Rule)
    requires Sensible(rule) && Stands(k, log, before, rule) && before <= now && !Admits(log, now, rule)
    ensures Stands(Key(Trim(log, now - rule.window), None, Expire(k, now).expireAt), log, now, rule)
  {
    TrimIsSuffix(log, now - rule.window);
    StaysAlive(k, log, Trim(log, now - rule.window), now, rule);
  }

  lemma GrantStands(live: seq<int>, log: seq<int>, now: int, rule: Rule)
    requires Sensible(rule) && Ordered(log) && (log != [] ==> Last(log) <= now) && Suffix(live, log, now - rule.window)
    ensures Stands(Grant(live, now, rule, false).0, log + [now], now, rule)
  {
    AddToSuffix(live, log, now - rule.window, now);
  }

  lemma AdmitsByRetry(log: seq<int>, now: int, rule: Rule)
    requires Sensible(rule) && Ordered(log)
    ensures Admits(log, now, rule) <==> Retry(Trim(log, now - rule.window), now, rule) <= now
  {
    TrimIsSuffix(log, now - rule.window);
  }

  lemma StaysAlive(k: Key, log: seq<int>, live: seq<int>, now: int, rule: Rule)
    requires Suffix(live, log, now - rule.window) && live != [] && (forall i | 0 <= i < |live| :: live[i] > now - rule.window)
    requires log != [] && k.expireAt == Some(Last(log) + rule.window)
    ensures Expire(k, now) == k
  {
    assert Last(live) == Last(log);
  }

  // ----- every run of the limiter -----

  predicate NonDecreasing(times: seq<int>) { forall i, j | 0 <= i < j < |times| :: times[i] <= times[j] }

  /** The key and the log of grants after calls at these times. */
  function After(times: seq<int>, rule: Rule): (Key, seq<int>)
    requires Sensible(rule)
  {
    if times == [] then (NO_KEY, []) else
      var (k, log) := After(times[..|times| - 1], rule);
      var now := times[|times| - 1];
      var (k', answer) := Script(k, now, rule, false);
      (k', if answer.allowed then log + [now] else log)
  }

  /** The key after a run stands for the log of its grants. */
  ghost predicate RunStands(times: seq<int>, rule: Rule)
    requires Sensible(rule)
  {
    forall now | times == [] || times[|times| - 1] <= now :: Stands(After(times, rule).0, After(times, rule).1, now, rule)
  }

  lemma StandsLater(k: Key, log: seq<int>, now: int, later: int, rule: Rule)
    requires Stands(k, log, now, rule) && now <= later
    ensures Stands(k, log, later, rule)
  {
  }

  lemma RunStep(times: seq<int>, now: int, rule: Rule)
    requires Sensible(rule) && RunStands(times, rule) && (times == [] || times[|times| - 1] <= now)
    ensures After(times + [now], rule).1 == if Admits(After(times, rule).1, now, rule) then After(times, rule).1 + [now] else After(times, rule).1
    ensures RunStands(times + [now], rule)
  {
    var all := times + [now];
    var (k, log) := After(times, rule);
    assert all[..|all| - 1] == times;
    ScriptFollowsLog(k, log, now, now, rule);
    forall later | now <= later ensures Stands(After(all, rule).0, After(all, rule).1, later, rule) {
      StandsLater(After(all, rule).0, After(all, rule).1, now, later, rule);
    }
  }

  lemma {:induction false} RunFollowsLog(times: seq<int>, rule: Rule)
    requires Sensible(rule) && NonDecreasing(times)
    ensures RunStands(times, rule)
  {
    if times != [] {
      var n := |times| - 1;
      RunFollowsLog(times[..n], rule);
      RunStep(times[..n], times[n], rule);
      assert times == times[..n] + [times[n]];
    }
  }

  /** Any two grants are an interval (or a window) apart, and a full window if `limit` grants lie between. */
  predicate Spaced(log: seq<int>, rule: Rule)
    requires rule.limit >= 1
  {
    forall i, j | 0 <= i < j < |log| ::
      && log[j] >= log[i] + Min(rule.interval, rule.window)
      && (j >= i + rule.limit ==> log[j] >= log[i] + rule.window)
  }

  lemma AdmittedIsSpaced(log: seq<int>, now: int, rule: Rule, i: nat)
    requires Sensible(rule) && Ordered(log) && Admits(log, now, rule) && i < |log|
    ensures now >= log[i] + Min(rule.interval, rule.window) && (|log| >= i + rule.limit ==> now >= log[i] + rule.window)
  {
    var live := Trim(log, now - rule.window);
    TrimIsSuffix(log, now - rule.window);
    if i >= |log| - |live| { assert log[i] <= Last(log) == Last(live); }
  }

  lemma GrantKeepsSpacing(log: seq<int>, now: int, rule: Rule)
    requires Sensible(rule) && Ordered(log) && Spaced(log, rule) && Admits(log, now, rule)
    ensures Spaced(log + [now], rule)
  {
    forall i | 0 <= i < |log|
      ensures now >= log[i] + Min(rule.interval, rule.window) && (|log| >= i + rule.limit ==> now >= log[i] + rule.window)
    {
      AdmittedIsSpaced(log, now, rule, i);
    }
  }

  lemma {:induction false} RunIsSpaced(times: seq<int>, rule: Rule)
    requires Sensible(rule) && NonDecreasing(times)
    ensures Spaced(After(times, rule).1, rule)
  {
    if times != [] {
      var n := |times| - 1;
      RunIsSpaced(times[..n], rule);
      RunFollowsLog(times[..n], rule);
      RunStep(times[..n], times[n], rule);
      assert times == times[..n] + [times[n]];
      LogOrdered(times[..n], rule);
      if Admits(After(times[..n], rule).1, times[n], rule) { GrantKeepsSpacing(After(times[..n], rule).1, times[n], rule); }
    }
  }

  lemma LogOrdered(times: seq<int>, rule: Rule)
    requires Sensible(rule) && RunStands(times, rule)
    ensures Ordered(After(times, rule).1)
  {
    var now := if times == [] then 0 else times[|times| - 1];
    assert Stands(After(times, rule).0, After(times, rule).1, now, rule);
  }

  /** The grants in (t - window, t]. */
  ghost function Within(log: seq<int>, t: int, window: int): multiset<int> {
    if log == [] then multiset{} else Within(log[1..], t, window) + if t - window < log[0] <= t then multiset{log[0]} else multiset{}
  }

  lemma {:induction false} WithinSmall(log: seq<int>, t: int, rule: Rule)
    requires Sensible(rule) && Ordered(log) && Spaced(log, rule)
    ensures |Within(log, t, rule.window)| <= rule.limit
  {
    if log != [] {
      if t - rule.window < log[0] <= t {
        forall i | rule.limit <= i < |log| ensures log[i] > t { assert log[i] >= log[0] + rule.window; }
        WithinFirst(log, t, rule.window, if |log| < rule.limit then |log| else rule.limit);
      } else {
        WithinSmall(log[1..], t, rule);
      }
    }
  }

  /** If everything from position n on is later than t, at most n grants are within. */
  lemma {:induction false} WithinFirst(log: seq<int>, t: int, window: int, n: nat)
    requires n <= |log| && forall i | n <= i < |log| :: log[i] > t
    ensures |Within(log, t, window)| <= n
  {
    if log != [] {
      if n > 0 { WithinFirst(log[1..], t, window, n - 1); } else { WithinFirst(log[1..], t, window, 0); }
    }
  }

  /** At most `limit` calls are allowed in any interval (t - window, t], whatever the key forgot. */
  lemma AtMostLimitPerWindow(times: seq<int>, rule: Rule, t: int)
    requires Sensible(rule) && NonDecreasing(times)
    ensures |Within(After(times, rule).1, t, rule.window)| <= rule.limit
  {
    RunIsSpaced(times, rule);
    RunFollowsLog(times, rule);
    LogOrdered(times, rule);
    WithinSmall(After(times, rule).1, t, rule);
  }

  predicate KeepsInterval(log: seq<int>, rule: Rule) { forall i, j | 0 <= i < j < |log| :: log[j] >= log[i] + rule.interval }

  /** The interval between grants is kept on every run exactly when it is no longer than the window. */
  lemma IntervalKeptIffItFits(rule: Rule)
    requires Sensible(rule)
    ensures (forall times | NonDecreasing(times) :: KeepsInterval(After(times, rule).1, rule)) <==> rule.interval <= rule.window
  {
    if rule.interval <= rule.window {
      forall times | NonDecreasing(times) ensures KeepsInterval(After(times, rule).1, rule) { RunIsSpaced(times, rule); }
    } else {
      var times := [0, rule.window];
      TwoGrants(rule);
      assert NonDecreasing(times) && !KeepsInterval(After(times, rule).1, rule);
    }
  }

  lemma TwoGrants(rule: Rule)
    requires Sensible(rule)
    ensures After([0, rule.window], rule).1 == [0, rule.window]
  {
    RunStep([], 0, rule);
    assert [] + [0] == [0] && [0] + [rule.window] == [0, rule.window];
    RunStep([0], rule.window, rule);
    assert Trim([0], 0) == [];
  }

  /** Which grants survive a trim. */
  lemma TrimSplits(log: seq<int>, cut: int)
    requires Ordered(log)
    ensures |Trim(log, cut)| <= |log| && forall i | 0 <= i < |log| :: log[i] > cut <==> i >= |log| - |Trim(log, cut)|
    ensures Trim(log, cut) != [] ==> Last(Trim(log, cut)) == Last(log) && Trim(log, cut)[0] == log[|log| - |Trim(log, cut)|]
  {
    TrimIsSuffix(log, cut);
    var live := Trim(log, cut);
    forall i | |log| - |live| <= i < |log| ensures log[i] > cut { assert live[i - (|log| - |live|)] > cut; }
  }

  lemma LiveAtMostLimit(log: seq<int>, now: int, rule: Rule)
    requires Sensible(rule) && Ordered(log) && Spaced(log, rule) && (log != [] ==> Last(log) <= now)
    ensures |Trim(log, now - rule.window)| <= rule.limit
  {
    TrimSplits(log, now - rule.window);
    if |log| > rule.limit {
      var i := |log| - 1 - rule.limit;
      assert log[i + rule.limit] >= log[i] + rule.window;
    }
  }

  lemma AdmitsFromRetry(log: seq<int>, now: int, rule: Rule, t: int)
    requires Sensible(rule) && rule.interval <= rule.window && Ordered(log) && (log != [] ==> Last(log) <= now)
    requires now <= t && |Trim(log, now - rule.window)| <= rule.limit
    ensures Admits(log, t, rule) <==> t >= Retry(Trim(log, now - rule.window), now, rule)
  {
    var live, later := Trim(log, now - rule.window), Trim(log, t - rule.window);
    TrimSplits(log, now - rule.window);
    TrimSplits(log, t - rule.window);
    if later != [] {
      assert log[|log| - |later|] > now - rule.window;
    }
    if live != [] && later == [] { assert log[|log| - 1] <= t - rule.window; }
    if |later| < |live| { assert log[|log| - |live|] <= t - rule.window; }
  }

  /** What an answer promises about the log it leaves behind. */
  lemma AnswerIsExact(k: Key, log: seq<int>, now: int, rule: Rule, t: int)
    requires Sensible(rule) && rule.interval <= rule.window && Stands(k, log, now, rule) && Spaced(log, rule) && now <= t
    ensures var answer := Script(k, now, rule, false).1;
            Admits(if answer.allowed then log + [now] else log, t, rule) <==> t >= answer.retryAt
  {
    ScriptDecidesOnLog(k, log, now, now, rule);
    AdmitsByRetry(log, now, rule);
    if Admits(log, now, rule) {
      GrantPromise(log, now, rule, t);
    } else {
      LiveAtMostLimit(log, now, rule);
      AdmitsFromRetry(log, now, rule, t);
    }
  }

  predicate OpensAt(log: seq<int>, t: int, rule: Rule, retryAt: int)
    requires rule.limit >= 1
  {
    Admits(log, t, rule) <==> t >= retryAt
  }

  lemma GrantPromise(log: seq<int>, now: int, rule: Rule, t: int)
    requires Sensible(rule) && rule.interval <= rule.window && Ordered(log) && (log != [] ==> Last(log) <= now) && now <= t
    requires Admits(log, now, rule)
    ensures OpensAt(log + [now], t, rule, Grant(Trim(log, now - rule.window), now, rule, false).1.retryAt)
  {
    TrimGrows(log, now, now - rule.window);
    GrantIsExact(Trim(log, now - rule.window), log + [now], now, rule, t);
  }

  lemma GrantIsExact(live: seq<int>, grown: seq<int>, now: int, rule: Rule, t: int)
    requires Sensible(rule) && rule.interval <= rule.window && Ordered(grown) && grown != [] && Last(grown) == now && now <= t
    requires |live| < rule.limit && Add(live, now) == live + [now] == Trim(grown, now - rule.window)
    ensures OpensAt(grown, t, rule, Grant(live, now, rule, false).1.retryAt)
  {
    AdmitsFromRetry(grown, now, rule, t);
  }

  lemma TrimGrows(log: seq<int>, now: int, cut: int)
    requires Ordered(log) && (log != [] ==> Last(log) <= now) && cut < now
    ensures Ordered(log + [now]) && Add(Trim(log, cut), now) == Trim(log, cut) + [now] == Trim(log + [now], cut)
  {
    TrimIsSuffix(log, cut);
    AddToSuffix(Trim(log, cut), log, cut, now);
    SuffixIsTrim(Trim(log, cut) + [now], log + [now], cut);
  }

  lemma SuffixIsTrim(live: seq<int>, log: seq<int>, cut: int)
    requires Suffix(live, log, cut) && forall i | 0 <= i < |live| :: live[i] > cut
    ensures Trim(log, cut) == live
  {
    TrimDropped(live, log, cut);
    TrimKeepsAll(live, cut);
  }

  /** After a call at `now`, and until some other call is allowed, a call at t is allowed exactly from
      the returned retryAt on. */
  lemma RetryAtIsExact(times: seq<int>, now: int, waiting: seq<int>, t: int, rule: Rule)
    requires Sensible(rule) && rule.interval <= rule.window && NonDecreasing(times + [now] + waiting + [t])
    requires After(times + [now] + waiting, rule).1 == After(times + [now], rule).1
    ensures Script(After(times + [now] + waiting, rule).0, t, rule, false).1.allowed
            <==> t >= Script(After(times, rule).0, now, rule, false).1.retryAt
  {
    var all := times + [now] + waiting;
    var (k, log) := After(times, rule);
    PrefixOfRun(times, now, waiting, t);
    RunFollowsLog(times, rule);
    RunIsSpaced(times, rule);
    AnswerIsExact(k, log, now, rule, t);
    RunStep(times, now, rule);
    ScriptDecidesOnLog(k, log, now, now, rule);
    RunFollowsLog(all, rule);
    ScriptDecidesOnLog(After(all, rule).0, After(all, rule).1, t, t, rule);
  }

  /** Otherwise it is not exact: the interval is forgotten with the grant, long before the promised time. */
  lemma RetryAtNeedsTheIntervalToFit(rule: Rule)
    requires Sensible(rule) && rule.interval > rule.window
    ensures rule.window < Script(NO_KEY, 0, rule, false).1.retryAt
    ensures Script(Script(NO_KEY, 0, rule, false).0, rule.window, rule, false).1.allowed
  {
    FirstGrant(rule);
    SecondGrant(rule);
  }

  lemma FirstGrant(rule: Rule)
    requires Sensible(rule) && rule.interval > rule.window
    ensures Script(NO_KEY, 0, rule, false).0 == Key([0], None, Some(rule.window)) && Script(NO_KEY, 0, rule, false).1.retryAt >= rule.interval
  {
    assert Trim([], 0 - rule.window) == [] && Add([], 0) == [0];
  }

  lemma SecondGrant(rule: Rule)
    requires Sensible(rule)
    ensures Script(Key([0], None, Some(rule.window)), rule.window, rule, false).1.allowed
  {
    assert Trim([0], 0) == [];
  }

  lemma PrefixOfRun(times: seq<int>, now: int, waiting: seq<int>, t: int)
    requires NonDecreasing(times + [now] + waiting + [t])
    ensures NonDecreasing(times) && NonDecreasing(times + [now] + waiting)
    ensures (times != [] ==> times[|times| - 1] <= now) && now <= t
    ensures (times + [now] + waiting)[|times| + |waiting|] <= t
  {
    var all := times + [now] + waiting + [t];
    assert all[|times|] == now && all[|all| - 1] == t;
    assert forall i | 0 <= i < |times| :: times[i] == all[i];
    assert forall i | 0 <= i < |all| - 1 :: (times + [now] + waiting)[i] == all[i];
  }
}
