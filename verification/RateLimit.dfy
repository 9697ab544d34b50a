/**
 * The fixed-window limiter: one bucket per key, restarted by the first call after its window, with occasional
 * collection.
 */
module RateLimit {

  datatype Bucket = Bucket(count: int, resetAt: int)

  datatype Answer = Answer(allowed: bool, remaining: int, resetAt: int)

  const MAX_BUCKETS := 5000

  function Max0(n: int): int { if n < 0 then 0 else n }

  predicate Live(m: map<string, Bucket>, key: string, now: int) {
    key in m && m[key].resetAt > now
  }

  /** The same limiter with no collection: what a caller is told, and the buckets afterwards. */
  function Reply(m: map<string, Bucket>, key: string, limit: int, windowMs: int, now: int): Answer {
    if Live(m, key, now) then
      var count := m[key].count + 1;
      Answer(count <= limit, Max0(limit - count), m[key].resetAt)
    else Answer(true, limit - 1, now + windowMs)
  }

  function After(m: map<string, Bucket>, key: string, windowMs: int, now: int): map<string, Bucket> {
    m[key := if Live(m, key, now) then Bucket(m[key].count + 1, m[key].resetAt) else Bucket(1, now + windowMs)]
  }

  /** Two tables a caller cannot tell apart from `now` on: they have the same live buckets. */
  ghost predicate Agree(a: map<string, Bucket>, b: map<string, Bucket>, now: int) {
    forall k :: (Live(a, k, now) <==> Live(b, k, now)) && (Live(a, k, now) ==> a[k] == b[k])
  }

  class Limiter {
    var buckets: map<string, Bucket>
    /** The table of a limiter that never collects, and the time of the last call. */
    ghost var uncollected: map<string, Bucket>
    ghost var clock: int

    ghost predicate Valid()
      reads this
    {
      Agree(buckets, uncollected, clock)
    }

    constructor ()
      ensures Valid() && uncollected == map[]
    {
      buckets, uncollected, clock := map[], map[], 0;
    }

    /** Deletes expired buckets, in any order, until few enough are left. */
    method Collect(now: int)
      modifies this`buckets
      ensures buckets.Keys <= old(buckets.Keys)
      ensures forall k :: k in buckets ==> buckets[k] == old(buckets)[k]
      ensures forall k :: k in old(buckets) && k !in buckets ==> old(buckets)[k].resetAt <= now
      ensures Agree(buckets, old(buckets), now)
    {
      var todo := buckets.Keys;
      while todo != {}
        invariant todo <= old(buckets.Keys)
        invariant buckets.Keys <= old(buckets.Keys)
        invariant forall k :: k in buckets ==> buckets[k] == old(buckets)[k]
        invariant forall k :: k in old(buckets) && k !in buckets ==> old(buckets)[k].resetAt <= now
        invariant forall k :: k in todo ==> k in buckets
      {
        var k :| k in todo;
        if buckets[k].resetAt <= now {
          buckets := buckets - {k};
        }
        todo := todo - {k};
        if |buckets| < MAX_BUCKETS / 2 {
          break;
        }
      }
    }

    /** Collection is invisible: every answer is that of the limiter that never collects. */
    method RateLimit(key: string, limit: int, windowMs: int, now: int) returns (r: Answer)
      requires Valid() && clock <= now
      modifies this
      ensures Valid() && clock == now
      ensures r == Reply(old(uncollected), key, limit, windowMs, now)
      ensures uncollected == After(old(uncollected), key, windowMs, now)
    {
      LiveLater(buckets, uncollected, clock, now);
      clock := now;
      if key !in buckets || buckets[key].resetAt <= now {
        r := Answer(true, limit - 1, now + windowMs);
        if |buckets| >= MAX_BUCKETS {
          Collect(now);
        }
        buckets := buckets[key := Bucket(1, now + windowMs)];
      } else {
        var existing := buckets[key];
        existing := existing.(count := existing.count + 1);
        buckets := buckets[key := existing];
        r := Answer(existing.count <= limit, Max0(limit - existing.count), existing.resetAt);
      }
      uncollected := After(uncollected, key, windowMs, now);
    }
  }

  /** Expired buckets stay expired as the clock advances. */
  lemma LiveLater(a: map<string, Bucket>, b: map<string, Bucket>, before: int, now: int)
    requires Agree(a, b, before) && before <= now
    ensures Agree(a, b, now)
  {
    forall k ensures (Live(a, k, now) <==> Live(b, k, now)) && (Live(a, k, now) ==> a[k] == b[k]) {
      assert Live(a, k, before) <==> Live(b, k, before);
    }
  }

  // ---- How many calls get through ----

  datatype Call = Call(key: string, now: int)

  /** With a fixed limit and window for `key`: how many of its calls are allowed at times in [from, from + windowMs). */
  function AllowedIn(m: map<string, Bucket>, cs: seq<Call>, key: string, limit: int, windowMs: int, from: int): nat
    decreases |cs|
  {
    if cs == [] then 0
    else if cs[0].key != key then AllowedIn(m, cs[1..], key, limit, windowMs, from)
    else
      (if Reply(m, key, limit, windowMs, cs[0].now).allowed && from <= cs[0].now < from + windowMs then 1 else 0)
      + AllowedIn(After(m, key, windowMs, cs[0].now), cs[1..], key, limit, windowMs, from)
  }

  predicate Ordered(cs: seq<Call>) {
    forall i, j :: 0 <= i < j < |cs| ==> cs[i].now <= cs[j].now
  }

  /** What the state of `key`'s bucket still allows inside the interval. */
  function Allowance(m: map<string, Bucket>, key: string, limit: int, windowMs: int, from: int): int {
    if key !in m || m[key].resetAt <= from then 2 * limit - 1
    else if m[key].resetAt < from + windowMs then Max0(limit - m[key].count) + limit
    else Max0(limit - m[key].count)
  }

  lemma {:induction false} AllowanceSuffices(
      m: map<string, Bucket>, cs: seq<Call>, key: string, limit: int, windowMs: int, from: int)
    requires limit >= 1 && Ordered(cs)
    requires key in m ==> m[key].count >= 1
    ensures AllowedIn(m, cs, key, limit, windowMs, from) <= Allowance(m, key, limit, windowMs, from)
    decreases |cs|
  {
    if cs != [] {
      LaterOrdered(cs);
      if cs[0].now >= from + windowMs {
        NoneAfter(m, cs, key, limit, windowMs, from);
      } else if cs[0].key != key {
        AllowanceSuffices(m, cs[1..], key, limit, windowMs, from);
      } else {
        AllowanceSuffices(After(m, key, windowMs, cs[0].now), cs[1..], key, limit, windowMs, from);
      }
    }
  }

  lemma {:induction false} NoneAfter(
      m: map<string, Bucket>, cs: seq<Call>, key: string, limit: int, windowMs: int, from: int)
    requires Ordered(cs) && (cs != [] ==> cs[0].now >= from + windowMs)
    ensures AllowedIn(m, cs, key, limit, windowMs, from) == 0
    decreases |cs|
  {
    if cs != [] {
      LaterOrdered(cs);
      if cs[0].key != key {
        NoneAfter(m, cs[1..], key, limit, windowMs, from);
      } else {
        NoneAfter(After(m, key, windowMs, cs[0].now), cs[1..], key, limit, windowMs, from);
      }
    }
  }

  lemma LaterOrdered(cs: seq<Call>)
    requires Ordered(cs) && cs != []
    ensures Ordered(cs[1..]) && (|cs| > 1 ==> cs[1..][0].now >= cs[0].now)
  {
    assert forall i :: 0 <= i < |cs[1..]| ==> cs[1..][i] == cs[i + 1];
  }

  /**
   * Under a clock that does not go back, no interval as long as the window sees more than `2 * limit - 1` allowed
   * calls of one key, however the calls of other keys fall in between.
   */
  lemma AtMostTwiceTheLimit(cs: seq<Call>, key: string, limit: int, windowMs: int, from: int)
    requires limit >= 1 && Ordered(cs)
    ensures AllowedIn(map[], cs, key, limit, windowMs, from) <= 2 * limit - 1
  {
    AllowanceSuffices(map[], cs, key, limit, windowMs, from);
  }

  /**
   * The calls that reach the bound: one opens a window, the rest of it is used just before it ends, then the next
   * one.
   */
  function Burst(key: string, at: int, n: nat): seq<Call> {
    if n == 0 then [] else [Call(key, at)] + Burst(key, at, n - 1)
  }

  lemma {:induction false} BurstAllowed(
      m: map<string, Bucket>, key: string, limit: int, windowMs: int, from: int, at: int, n: nat, rest: seq<Call>)
    requires Live(m, key, at) && m[key].count + n <= limit && from <= at < from + windowMs
    ensures var m' := m[key := Bucket(m[key].count + n, m[key].resetAt)];
      AllowedIn(m, Burst(key, at, n) + rest, key, limit, windowMs, from) ==
        n + AllowedIn(m', rest, key, limit, windowMs, from)
    decreases n
  {
    var all := Burst(key, at, n) + rest;
    if n == 0 {
      assert all == rest;
      assert m[key := m[key]] == m;
    } else {
      var m1 := After(m, key, windowMs, at);
      assert all == [Call(key, at)] + (Burst(key, at, n - 1) + rest);
      BurstAllowed(m1, key, limit, windowMs, from, at, n - 1, rest);
      assert m1[key := Bucket(m1[key].count + (n - 1), m1[key].resetAt)] ==
        m[key := Bucket(m[key].count + n, m[key].resetAt)];
    }
  }

  /** The bound is reached: opening a window one tick before the interval allows exactly `2 * limit - 1` inside it. */
  lemma BoundIsTight(key: string, limit: nat, windowMs: int)
    requires limit >= 1 && windowMs >= 2
    ensures var cs := [Call(key, 0)] + Burst(key, windowMs - 1, limit - 1) + Burst(key, windowMs, limit);
      AllowedIn(map[], cs, key, limit, windowMs, 1) == 2 * limit - 1
  {
    var m1: map<string, Bucket> := map[key := Bucket(1, windowMs)];
    var second := Burst(key, windowMs, limit);
    var rest := Burst(key, windowMs - 1, limit - 1) + second;
    var cs := [Call(key, 0)] + Burst(key, windowMs - 1, limit - 1) + second;
    assert cs[1..] == rest;
    assert After(map[], key, windowMs, 0) == m1;
    BurstAllowed(m1, key, limit, windowMs, 1, windowMs - 1, limit - 1, second);
    var m2 := m1[key := Bucket(1 + (limit - 1), windowMs)];
    var m3 := After(m2, key, windowMs, windowMs);
    BurstAllowed(m3, key, limit, windowMs, 1, windowMs, limit - 1, []);
    assert second == [Call(key, windowMs)] + Burst(key, windowMs, limit - 1);
    assert second[1..] == Burst(key, windowMs, limit - 1) == Burst(key, windowMs, limit - 1) + [];
  }

  // ---- A limiter at work ----

  /** What a sequence of calls is told, each key with its own limit and window. */
  function Answers(
      m: map<string, Bucket>, cs: seq<Call>, limit: string -> int, windowMs: string -> int)
    : seq<Answer>
    decreases |cs|
  {
    if cs == [] then []
    else
      var k, now := cs[0].key, cs[0].now;
      [Reply(m, k, limit(k), windowMs(k), now)] + Answers(After(m, k, windowMs(k), now), cs[1..], limit, windowMs)
  }

  /** How many of the answers allow a call of `key` at times in [from, to). */
  function Granted(cs: seq<Call>, answers: seq<Answer>, key: string, from: int, to: int): nat
    requires |cs| == |answers|
  {
    if cs == [] then 0
    else
      (if cs[0].key == key && answers[0].allowed && from <= cs[0].now < to then 1 else 0)
      + Granted(cs[1..], answers[1..], key, from, to)
  }

  lemma {:induction false} OneAnswerEach(
      m: map<string, Bucket>, cs: seq<Call>, limit: string -> int, windowMs: string -> int)
    ensures |Answers(m, cs, limit, windowMs)| == |cs|
    decreases |cs|
  {
    if cs != [] {
      OneAnswerEach(After(m, cs[0].key, windowMs(cs[0].key), cs[0].now), cs[1..], limit, windowMs);
    }
  }

  /** The answers to one key's calls depend on that key's bucket only. */
  lemma {:induction false} GrantedIsAllowed(
      m: map<string, Bucket>, n: map<string, Bucket>, cs: seq<Call>, limit: string -> int, windowMs: string -> int,
      key: string, from: int)
    requires key in m <==> key in n
    requires key in m ==> m[key] == n[key]
    ensures |Answers(m, cs, limit, windowMs)| == |cs|
    ensures Granted(cs, Answers(m, cs, limit, windowMs), key, from, from + windowMs(key))
         == AllowedIn(n, cs, key, limit(key), windowMs(key), from)
    decreases |cs|
  {
    OneAnswerEach(m, cs, limit, windowMs);
    if cs != [] {
      var k, now := cs[0].key, cs[0].now;
      var m', n' := After(m, k, windowMs(k), now), if k == key then After(n, key, windowMs(key), now) else n;
      GrantedIsAllowed(m', n', cs[1..], limit, windowMs, key, from);
      assert Answers(m, cs, limit, windowMs)[1..] == Answers(m', cs[1..], limit, windowMs);
    }
  }

  /** Of the calls of `key` at times in [from, from + windowMs(key)), at most `2 * limit - 1` are allowed. */
  predicate WithinBound(
      cs: seq<Call>, answers: seq<Answer>, limit: string -> int, windowMs: string -> int, key: string, from: int)
    requires |cs| == |answers|
  {
    limit(key) >= 1 ==> Granted(cs, answers, key, from, from + windowMs(key)) <= 2 * limit(key) - 1
  }

  lemma AnswersWithinBound(
      cs: seq<Call>, answers: seq<Answer>, limit: string -> int, windowMs: string -> int, key: string, from: int)
    requires Ordered(cs) && answers == Answers(map[], cs, limit, windowMs)
    ensures |answers| == |cs| && WithinBound(cs, answers, limit, windowMs, key, from)
  {
    GrantedIsAllowed(map[], map[], cs, limit, windowMs, key, from);
    if limit(key) >= 1 {
      AtMostTwiceTheLimit(cs, key, limit(key), windowMs(key), from);
    }
  }

  /**
   * A new limiter, collection and all, serving any calls under a clock that does not go back: it grants no key more
   * than `2 * limit - 1` calls within any interval as long as that key's window.
   */
  method ServeAll(limiter: Limiter, cs: seq<Call>, limit: string -> int, windowMs: string -> int)
    returns (answers: seq<Answer>)
    requires limiter.Valid() && limiter.uncollected == map[]
    requires Ordered(cs) && (cs != [] ==> limiter.clock <= cs[0].now)
    modifies limiter
    ensures |answers| == |cs| && answers == Answers(map[], cs, limit, windowMs)
    ensures forall key, from :: WithinBound(cs, answers, limit, windowMs, key, from)
  {
    answers := [];
    var i := 0;
    while i < |cs|
      invariant 0 <= i <= |cs| && |answers| == i
      invariant limiter.Valid() && (i < |cs| ==> limiter.clock <= cs[i].now)
      invariant answers + Answers(limiter.uncollected, cs[i..], limit, windowMs) == Answers(map[], cs, limit, windowMs)
    {
      var c := cs[i];
      assert cs[i..][1..] == cs[i + 1..];
      ghost var next := After(limiter.uncollected, c.key, windowMs(c.key), c.now);
      ghost var rest := Answers(next, cs[i + 1..], limit, windowMs);
      var r := limiter.RateLimit(c.key, limit(c.key), windowMs(c.key), c.now);
      assert answers + ([r] + rest) == (answers + [r]) + rest;
      answers := answers + [r];
      i := i + 1;
    }
    assert cs[i..] == [] && answers + [] == answers;
    forall key, from ensures WithinBound(cs, answers, limit, windowMs, key, from) {
      AnswersWithinBound(cs, answers, limit, windowMs, key, from);
    }
  }

  // ---- What an answer promises ----

  lemma AfterReply(m: map<string, Bucket>, key: string, limit: int, windowMs: int, now: int)
    requires limit >= 1 && windowMs > 0
    requires Live(m, key, now) ==> m[key].count >= 1
    ensures var r, n := Reply(m, key, limit, windowMs, now), After(m, key, windowMs, now);
      && key in n && n[key].resetAt == r.resetAt > now && n[key].count >= 1
      && r.remaining == Max0(limit - n[key].count)
      && (r.allowed <==> n[key].count <= limit)
  {
  }

  /**
   * `remaining` and `resetAt` are what they say: of the calls of this key that follow before `resetAt`, exactly the
   * first `remaining` are allowed, and each is told the same `resetAt`.
   */
  lemma {:induction false} RemainingIsExact(
      m: map<string, Bucket>, key: string, limit: int, windowMs: int, now: int, cs: seq<Call>, j: nat)
    requires limit >= 1 && windowMs > 0
    requires Live(m, key, now) ==> m[key].count >= 1
    requires j < |cs| && forall i :: 0 <= i < |cs| ==> cs[i].key == key
    requires forall i :: 0 <= i < |cs| ==> now <= cs[i].now < Reply(m, key, limit, windowMs, now).resetAt
    ensures var r := Reply(m, key, limit, windowMs, now);
      var later := Answers(After(m, key, windowMs, now), cs, _ => limit, _ => windowMs);
      && |later| == |cs| && (later[j].allowed <==> j < r.remaining) && later[j].resetAt == r.resetAt
    decreases |cs|
  {
    var n := After(m, key, windowMs, now);
    AfterReply(m, key, limit, windowMs, now);
    OneAnswerEach(n, cs, _ => limit, _ => windowMs);
    var next := cs[0].now;
    AfterReply(n, key, limit, windowMs, next);
    if j > 0 {
      forall i | 0 <= i < |cs[1..]| ensures cs[1..][i].key == key && cs[1..][i].now < n[key].resetAt {
        assert cs[1..][i] == cs[i + 1];
      }
      LaterInWindow(n, key, limit, windowMs, next, cs[1..], j - 1, n[key].count + 1);
      assert Answers(n, cs, _ => limit, _ => windowMs)[1..]
          == Answers(After(n, key, windowMs, next), cs[1..], _ => limit, _ => windowMs);
    }
  }

  lemma {:induction false} LaterInWindow(
      m: map<string, Bucket>, key: string, limit: int, windowMs: int, now: int, cs: seq<Call>, j: nat, count: nat)
    requires limit >= 1 && windowMs > 0
    requires var n := After(m, key, windowMs, now); n[key].count == count
    requires j < |cs| && forall i :: 0 <= i < |cs| ==>
      cs[i].key == key && cs[i].now < After(m, key, windowMs, now)[key].resetAt
    ensures var n := After(m, key, windowMs, now);
      var later := Answers(n, cs, _ => limit, _ => windowMs);
      && |later| == |cs| && (later[j].allowed <==> count + j + 1 <= limit) && later[j].resetAt == n[key].resetAt
    decreases |cs|
  {
    var n := After(m, key, windowMs, now);
    OneAnswerEach(n, cs, _ => limit, _ => windowMs);
    if j > 0 {
      forall i | 0 <= i < |cs[1..]| ensures cs[1..][i].key == key && cs[1..][i].now < n[key].resetAt {
        assert cs[1..][i] == cs[i + 1];
      }
      LaterInWindow(n, key, limit, windowMs, cs[0].now, cs[1..], j - 1, count + 1);
      assert Answers(n, cs, _ => limit, _ => windowMs)[1..]
          == Answers(After(n, key, windowMs, cs[0].now), cs[1..], _ => limit, _ => windowMs);
    }
  }

  /** The first call at or after `resetAt` starts a new window: it is allowed and leaves all but itself. */
  lemma WindowRestarts(m: map<string, Bucket>, key: string, limit: int, windowMs: int, now: int, later: int)
    requires limit >= 1 && windowMs > 0 && Reply(m, key, limit, windowMs, now).resetAt <= later
    ensures var r := Reply(After(m, key, windowMs, now), key, limit, windowMs, later);
      r == Answer(true, limit - 1, later + windowMs)
  {
  }
}
