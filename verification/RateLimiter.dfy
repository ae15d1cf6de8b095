/** The limiter as the server calls it: two scripts on one key, and what they answer and leave. */
module RateLimiter {
  import opened Basics
  import opened RateWindow

  predicate IsGone(k: Key, now: int) { k.expireAt.Some? && now > k.expireAt.value }

  /** The scores that are still in the window, in their order. */
  function Recent(scores: seq<int>, now: int, window: int): seq<int> {
    if scores == [] then [] else
      var n := |scores| - 1;
      Recent(scores[..n], now, window) + if now - scores[n] < window then [scores[n]] else []
  }

  function Latest(a: int, b: int): int { if a >= b then a else b }

  /** A call is allowed when the window has room and the last grant is an interval ago, and it is told when the next one will be. */
  predicate DecidesAsPromised(live: seq<int>, expiry: Option<int>, after: Key, answer: Answer, now: int, rule: Rule, reserve: bool)
    requires Sensible(rule)
  {
    && (answer.allowed <==> |live| < rule.limit && (live == [] || now - live[|live| - 1] >= rule.interval))
    && (!answer.allowed ==>
          && after == Key(live, None, expiry)
          && answer.retryAt == Latest(Latest(now, if live == [] then now else live[|live| - 1] + rule.interval),
                                      if |live| >= rule.limit then live[0] + rule.window else now))
    && (answer.allowed && Ordered(live) && (live == [] || live[|live| - 1] <= now) ==>
          && after == Key(live + [now], if reserve then Some(now + 360_000) else None, Some(now + if reserve then 360_000 else rule.window))
          && answer.retryAt == Latest(now + rule.interval, if |live| + 1 >= rule.limit then (live + [now])[0] + rule.window else now + rule.interval))
  }

  /** An open marker blocks until its end, which is the time the caller is told; otherwise what is still in the window decides. */
  predicate LimitsAsPromised(k: Key, after: Key, answer: Answer, now: int, rule: Rule, reserve: bool)
    requires Sensible(rule)
  {
    if !IsGone(k, now) && k.pending.Some? && k.pending.value > now then after == k && answer == Answer(false, k.pending.value)
    else DecidesAsPromised(if IsGone(k, now) then [] else Recent(k.scores, now, rule.window), if IsGone(k, now) then None else k.expireAt,
                           after, answer, now, rule, reserve)
  }

  /** The newest member moves to the completion, which opens an hour and a minute of its own. */
  predicate FinishesAsPromised(k: Key, after: Key, retryAt: int, now: int) {
    var others := if IsGone(k, now) || k.scores == [] then [] else k.scores[..|k.scores| - 1];
    Ordered(others) && (others == [] || others[|others| - 1] <= now) ==>
      && after == Key(others + [now], None, Some(now + 3_600_000))
      && retryAt == Latest(now + 60_000, if |others| >= 4 then (others + [now])[0] + 3_600_000 else now + 60_000)
  }

  lemma {:induction false} RecentIsTrim(scores: seq<int>, now: int, window: int)
    ensures Recent(scores, now, window) == Trim(scores, now - window)
    ensures forall i | 0 <= i < |Recent(scores, now, window)| :: now - Recent(scores, now, window)[i] < window
  {
    if scores != [] {
      RecentIsTrim(scores[..|scores| - 1], now, window);
      TrimLast(scores, now - window);
    }
  }

  lemma {:induction false} TrimLast(scores: seq<int>, cut: int)
    requires scores != []
    ensures Trim(scores, cut) == Trim(scores[..|scores| - 1], cut) + if scores[|scores| - 1] <= cut then [] else [scores[|scores| - 1]]
  {
    if |scores| > 1 {
      TrimLast(scores[1..], cut);
      assert scores[1..][..|scores| - 2] == scores[..|scores| - 1][1..];
    } else {
      assert scores[1..] == [] && scores[..0] == [];
    }
  }

  lemma DecideKeepsPromise(live: seq<int>, now: int, rule: Rule, reserve: bool, expiry: Option<int>)
    requires Sensible(rule) && forall i | 0 <= i < |live| :: now - live[i] < rule.window
    ensures var (after, answer) := Decide(expiry, live, now, rule, reserve); DecidesAsPromised(live, expiry, after, answer, now, rule, reserve)
  {
    if Ordered(live) && (live == [] || live[|live| - 1] <= now) { AddLast(live, now); }
  }

  lemma LimitKeepsPromise(k: Key, now: int, rule: Rule, reserve: bool)
    requires Sensible(rule)
    ensures LimitsAsPromised(k, Script(k, now, rule, reserve).0, Script(k, now, rule, reserve).1, now, rule, reserve)
  {
    RecentIsTrim(k.scores, now, rule.window);
    DecideKeepsPromise(if IsGone(k, now) then [] else Recent(k.scores, now, rule.window), now, rule, reserve, if IsGone(k, now) then None else k.expireAt);
  }

  lemma FinishKeepsPromise(k: Key, now: int)
    ensures FinishesAsPromised(k, Finished(k, now).0, Finished(k, now).1, now)
  {
    var others := if IsGone(k, now) || k.scores == [] then [] else k.scores[..|k.scores| - 1];
    if Ordered(others) && (others == [] || others[|others| - 1] <= now) { AddLast(others, now); }
  }

  class RedisKey {
    var scores: seq<int>
    var pending: Option<int>
    var expireAt: Option<int>

    function State(): Key
      reads this
    {
      Key(scores, pending, expireAt)
    }

    method Touch(now: int)
      modifies this
      ensures State() == Expire(old(State()), now)
    {
      if expireAt.Some? && now > expireAt.value { scores, pending, expireAt := [], None, None; }
    }

    method Limit(now: int, rule: Rule, reserve: bool) returns (answer: Answer)
      requires Sensible(rule)
      modifies this
      ensures (State(), answer) == Script(old(State()), now, rule, reserve)
      ensures LimitsAsPromised(old(State()), State(), answer, now, rule, reserve)
    {
      LimitKeepsPromise(State(), now, rule, reserve);
      Touch(now);
      if pending.Some? && pending.value > now { return Answer(false, pending.value); }
      pending := None;
      scores := Trim(scores, now - rule.window);
      var n, retry := |scores|, now;
      if n > 0 { retry := Max(retry, scores[n - 1] + rule.interval); }
      if n >= rule.limit { retry := Max(retry, scores[0] + rule.window); }
      if retry > now { return Answer(false, retry); }
      answer := Admit(now, rule, reserve);
    }

    method Admit(now: int, rule: Rule, reserve: bool) returns (answer: Answer)
      requires Sensible(rule) && pending == None
      modifies this
      ensures (State(), answer) == Grant(old(scores), now, rule, reserve)
    {
      var n := |scores|;
      scores := Add(scores, now);
      expireAt := Some(now + rule.window);
      var retry := now + rule.interval;
      if n + 1 >= rule.limit { retry := Max(retry, scores[0] + rule.window); }
      if reserve {
        pending := Some(now + PENDING_MS);
        expireAt := Some(now + PENDING_MS);
      }
      answer := Answer(true, retry);
    }

    method FinishSend(now: int) returns (retryAt: int)
      modifies this
      ensures (State(), retryAt) == Finished(old(State()), now)
      ensures FinishesAsPromised(old(State()), State(), retryAt, now)
    {
      FinishKeepsPromise(State(), now);
      Touch(now);
      pending := None;
      if |scores| > 0 { scores := scores[..|scores| - 1]; }
      scores := Add(scores, now);
      expireAt := Some(now + 3_600_000);
      retryAt := now + 60_000;
      if |scores| >= 5 { retryAt := Max(retryAt, scores[0] + 3_600_000); }
    }
  }
}
