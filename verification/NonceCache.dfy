/** Agent.rejectStale: the freshness window and the bounded cache of nonces already seen. */
module NonceCache {
  import opened Clock

  datatype Request = Request(nonce: string, ts: int)

  datatype Verdict = Accepted | Stale | Replay

  /** The cache keeps insertion order; one entry over `cap` evicts the oldest. */
  function Remember(seen: seq<string>, nonce: string, cap: int): seq<string> {
    var grown := seen + [nonce];
    if |grown| > cap then grown[1..] else grown
  }

  function Judge(seen: seq<string>, req: Request, now: int, maxAge: int): Verdict {
    if Distance(now, req.ts) > maxAge then Stale
    else if req.nonce in seen then Replay
    else Accepted
  }

  function After(seen: seq<string>, req: Request, now: int, maxAge: int, cap: int): seq<string> {
    if Judge(seen, req, now, maxAge).Accepted? then Remember(seen, req.nonce, cap) else seen
  }

  class Guard {
    const maxAge: int
    const cap: int
    var seen: seq<string>

    constructor (maxAge: int, cap: int)
      ensures seen == [] && this.maxAge == maxAge && this.cap == cap
    {
      this.maxAge, this.cap := maxAge, cap;
      seen := [];
    }

    method RejectStale(req: Request, now: int) returns (v: Verdict)
      modifies this
      ensures v == Judge(old(seen), req, now, maxAge)
      ensures seen == After(old(seen), req, now, maxAge, cap)
    {
      var skew := now - req.ts;
      if skew > maxAge || -skew > maxAge {
        return Stale;
      }
      if req.nonce in seen {
        return Replay;
      }
      seen := seen + [req.nonce];
      if |seen| > cap {
        seen := seen[1..];
      }
      v := Accepted;
    }
  }

  // ---- A run of deliveries ----

  datatype Delivery = Delivery(req: Request, now: int)

  /** The cache after a run that starts empty. */
  function Cache(ds: seq<Delivery>, maxAge: int, cap: int): seq<string> {
    if ds == [] then []
    else
      var d := ds[|ds| - 1];
      After(Cache(ds[..|ds| - 1], maxAge, cap), d.req, d.now, maxAge, cap)
  }

  predicate Passes(ds: seq<Delivery>, i: nat, maxAge: int, cap: int)
    requires i < |ds|
  {
    Judge(Cache(ds[..i], maxAge, cap), ds[i].req, ds[i].now, maxAge).Accepted?
  }

  /** The nonces that passed, in order. */
  function Passed(ds: seq<Delivery>, maxAge: int, cap: int): seq<string> {
    if ds == [] then []
    else
      var d := ds[|ds| - 1];
      var before := ds[..|ds| - 1];
      Passed(before, maxAge, cap)
      + (if Judge(Cache(before, maxAge, cap), d.req, d.now, maxAge).Accepted? then [d.req.nonce] else [])
  }

  function LastN<T>(s: seq<T>, n: int): seq<T> {
    if n <= 0 then [] else if n >= |s| then s else s[|s| - n..]
  }

  /** The cache is exactly the last `cap` nonces that passed, whatever `cap` is. */
  lemma {:induction false} CacheIsLastPassed(ds: seq<Delivery>, maxAge: int, cap: int)
    ensures Cache(ds, maxAge, cap) == LastN(Passed(ds, maxAge, cap), cap)
  {
    if ds != [] {
      var front, d := ds[..|ds| - 1], ds[|ds| - 1];
      CacheIsLastPassed(front, maxAge, cap);
      RememberIsLast(Passed(front, maxAge, cap), d.req.nonce, cap);
      PassedStep(ds, maxAge, cap);
    }
  }

  /** A request passes exactly when it is fresh and its nonce is not among the last `cap` that passed. */
  lemma PassesIff(ds: seq<Delivery>, i: nat, maxAge: int, cap: int)
    requires i < |ds|
    ensures Passes(ds, i, maxAge, cap) <==>
      && ds[i].req.ts - maxAge <= ds[i].now <= ds[i].req.ts + maxAge
      && ds[i].req.nonce !in LastN(Passed(ds[..i], maxAge, cap), cap)
  {
    CacheIsLastPassed(ds[..i], maxAge, cap);
  }

  lemma RememberIsLast(p: seq<string>, nonce: string, cap: int)
    ensures Remember(LastN(p, cap), nonce, cap) == LastN(p + [nonce], cap)
  {
  }

  lemma PassedStep(ds: seq<Delivery>, maxAge: int, cap: int)
    requires ds != []
    ensures var front, d := ds[..|ds| - 1], ds[|ds| - 1];
      var before := Passed(front, maxAge, cap);
      Passed(ds, maxAge, cap) ==
        if Judge(Cache(front, maxAge, cap), d.req, d.now, maxAge).Accepted? then before + [d.req.nonce] else before
  {
  }

  /** Any `cap + 1` consecutive passing nonces are different. */
  lemma {:induction false} WindowIsDistinct(ds: seq<Delivery>, maxAge: int, cap: int, i: nat, j: nat)
    requires i < j < |Passed(ds, maxAge, cap)| && j - i <= cap
    ensures Passed(ds, maxAge, cap)[i] != Passed(ds, maxAge, cap)[j]
  {
    var before := ds[..|ds| - 1];
    var p := Passed(before, maxAge, cap);
    if j < |p| {
      WindowIsDistinct(before, maxAge, cap, i, j);
    } else {
      CacheIsLastPassed(before, maxAge, cap);
      var window := LastN(p, cap);
      assert p[i] in window by {
        if cap < |p| {
          assert window[i - (|p| - cap)] == p[i];
        }
      }
    }
  }

  /** How many nonces have passed before delivery `i`: its place in the passed order. */
  function Place(ds: seq<Delivery>, i: nat, maxAge: int, cap: int): nat
    requires i <= |ds|
  {
    |Passed(ds[..i], maxAge, cap)|
  }

  lemma {:induction false} PassedAtPlace(ds: seq<Delivery>, i: nat, n: nat, maxAge: int, cap: int)
    requires i < n <= |ds| && Passes(ds, i, maxAge, cap)
    ensures Place(ds, i, maxAge, cap) < Place(ds, n, maxAge, cap)
    ensures Passed(ds[..n], maxAge, cap)[Place(ds, i, maxAge, cap)] == ds[i].req.nonce
    decreases n
  {
    assert ds[..n][..n - 1] == ds[..n - 1];
    if i < n - 1 {
      PassedAtPlace(ds, i, n - 1, maxAge, cap);
    }
  }

  /**
   * If one nonce passes twice, at least `cap` others passed in between, and they are pairwise different and
   * different from it; a request replayed with its time stamp can pass twice only within twice the age limit.
   */
  lemma ReplayBound(ds: seq<Delivery>, i: nat, j: nat, maxAge: int, cap: int)
    requires i < j < |ds|
    requires Passes(ds, i, maxAge, cap) && Passes(ds, j, maxAge, cap)
    requires ds[i].req.nonce == ds[j].req.nonce
    ensures var p := Passed(ds, maxAge, cap);
      var a, b := Place(ds, i, maxAge, cap), Place(ds, j, maxAge, cap);
      && a < b < |p| && p[a] == ds[i].req.nonce && p[b] == ds[j].req.nonce
      && b - a - 1 >= cap
      && forall k, l :: a <= k < l <= a + cap ==> p[k] != p[l]
    ensures ds[i].req.ts == ds[j].req.ts ==> Distance(ds[j].now, ds[i].now) <= 2 * maxAge
  {
    var p := Passed(ds, maxAge, cap);
    var a, b := Place(ds, i, maxAge, cap), Place(ds, j, maxAge, cap);
    assert ds[..|ds|] == ds;
    PassedAtPlace(ds, i, |ds|, maxAge, cap);
    PassedAtPlace(ds, j, |ds|, maxAge, cap);
    PassedAtPlace(ds, i, j, maxAge, cap);
    if b - a <= cap {
      WindowIsDistinct(ds, maxAge, cap, a, b);
    }
    forall k, l | a <= k < l <= a + cap ensures p[k] != p[l] {
      WindowIsDistinct(ds, maxAge, cap, k, l);
    }
  }

  /** While fewer than `cap` others have passed, the nonce is still in the cache. */
  lemma NotYetEvicted(ds: seq<Delivery>, i: nat, j: nat, maxAge: int, cap: int)
    requires i < j < |ds| && Passes(ds, i, maxAge, cap)
    requires ds[i].req.nonce == ds[j].req.nonce
    requires Place(ds, j, maxAge, cap) - Place(ds, i, maxAge, cap) - 1 < cap
    ensures !Passes(ds, j, maxAge, cap)
  {
    if Passes(ds, j, maxAge, cap) {
      ReplayBound(ds, i, j, maxAge, cap);
    }
  }

  // ---- The arrival rate ----

  /** At most `cap` requests pass within any span of twice the age limit. */
  predicate RateBelow(ds: seq<Delivery>, maxAge: int, cap: int) {
    forall a, b :: 0 <= a <= b < |ds| && Distance(ds[b].now, ds[a].now) <= 2 * maxAge ==>
      Place(ds, b, maxAge, cap) - Place(ds, a, maxAge, cap) <= cap
  }

  /**
   * Below that rate a verbatim request passes at most once in the whole run, however often and however late it is
   * replayed: early copies are still in the cache, late ones are stale.
   */
  lemma AtMostOnce(ds: seq<Delivery>, i: nat, j: nat, maxAge: int, cap: int)
    requires RateBelow(ds, maxAge, cap)
    requires i < |ds| && j < |ds| && ds[i].req == ds[j].req
    requires Passes(ds, i, maxAge, cap) && Passes(ds, j, maxAge, cap)
    ensures i == j
  {
    if i < j {
      ReplayBound(ds, i, j, maxAge, cap);
    } else if j < i {
      ReplayBound(ds, j, i, maxAge, cap);
    }
  }

  /** The bound is exact: once `cap` others have passed, a fresh replay does pass. */
  lemma EvictedPasses(ds: seq<Delivery>, i: nat, j: nat, maxAge: int, cap: int)
    requires i < j < |ds| && Passes(ds, i, maxAge, cap)
    requires ds[i].req.nonce == ds[j].req.nonce && Distance(ds[j].now, ds[j].req.ts) <= maxAge
    requires Place(ds, j, maxAge, cap) - Place(ds, i, maxAge, cap) - 1 >= cap
    requires forall k :: Place(ds, i, maxAge, cap) < k < Place(ds, j, maxAge, cap) ==>
      Passed(ds[..j], maxAge, cap)[k] != ds[i].req.nonce
    ensures Passes(ds, j, maxAge, cap)
  {
    CacheIsLastPassed(ds[..j], maxAge, cap);
    var p := Passed(ds[..j], maxAge, cap);
    var window := LastN(p, cap);
    forall n | 0 <= n < |window| ensures window[n] != ds[j].req.nonce {
      assert window[n] == p[|p| - |window| + n];
    }
  }

  /**
   * Exactly when a nonce passes again: it has not passed since, the request is fresh, and at least `cap` others have
   * passed in between.
   */
  lemma PassesAgainIff(ds: seq<Delivery>, i: nat, j: nat, maxAge: int, cap: int)
    requires i < j < |ds| && Passes(ds, i, maxAge, cap)
    requires ds[i].req.nonce == ds[j].req.nonce
    requires forall k :: Place(ds, i, maxAge, cap) < k < Place(ds, j, maxAge, cap) ==>
      Passed(ds[..j], maxAge, cap)[k] != ds[i].req.nonce
    ensures Passes(ds, j, maxAge, cap) <==>
      Distance(ds[j].now, ds[j].req.ts) <= maxAge
      && Place(ds, j, maxAge, cap) - Place(ds, i, maxAge, cap) - 1 >= cap
  {
    if Passes(ds, j, maxAge, cap) {
      ReplayBound(ds, i, j, maxAge, cap);
    } else if Distance(ds[j].now, ds[j].req.ts) <= maxAge
           && Place(ds, j, maxAge, cap) - Place(ds, i, maxAge, cap) - 1 >= cap {
      EvictedPasses(ds, i, j, maxAge, cap);
    }
  }

  // ---- One request more is too many ----

  /** The nonce of the `n`-th request of a burst. */
  function Nonce(n: nat): string {
    seq(n, _ => 'n')
  }

  /** `n` requests with different nonces, all at time 0. */
  function Burst(n: nat): seq<Delivery> {
    seq(n, k requires 0 <= k < n => Delivery(Request(Nonce(k), 0), 0))
  }

  function Nonces(n: nat): seq<string> {
    seq(n, k requires 0 <= k < n => Nonce(k))
  }

  lemma BurstFront(n: nat)
    requires n > 0
    ensures Burst(n)[..n - 1] == Burst(n - 1) && Burst(n)[n - 1] == Delivery(Request(Nonce(n - 1), 0), 0)
    ensures Nonces(n) == Nonces(n - 1) + [Nonce(n - 1)]
  {
  }

  lemma {:induction false} BurstPasses(n: nat, maxAge: int, cap: int)
    requires maxAge >= 0
    ensures Passed(Burst(n), maxAge, cap) == Nonces(n)
  {
    if n > 0 {
      BurstFront(n);
      BurstPasses(n - 1, maxAge, cap);
      CacheIsLastPassed(Burst(n - 1), maxAge, cap);
      NewNonce(n - 1, cap);
      PassedStep(Burst(n), maxAge, cap);
    }
  }

  lemma NewNonce(n: nat, cap: int)
    ensures Nonce(n) !in LastN(Nonces(n), cap)
  {
    forall k | 0 <= k < |LastN(Nonces(n), cap)| ensures LastN(Nonces(n), cap)[k] != Nonce(n) {
      assert |LastN(Nonces(n), cap)[k]| < n;
    }
  }

  /** The rate is the best possible: with `cap + 1` passes at one moment, a request passes and passes again. */
  lemma RateIsTight(maxAge: int, cap: nat)
    requires maxAge >= 0
    ensures var ds := Burst(cap + 1) + [Burst(cap + 1)[0]];
      && ds[0].req == ds[cap + 1].req
      && Passes(ds, 0, maxAge, cap) && Passes(ds, cap + 1, maxAge, cap)
      && Place(ds, cap + 1, maxAge, cap) - Place(ds, 0, maxAge, cap) == cap + 1
  {
    var ds := Burst(cap + 1) + [Burst(cap + 1)[0]];
    assert ds[..0] == [] && ds[..cap + 1] == Burst(cap + 1);
    BurstPasses(cap + 1, maxAge, cap);
    assert Passes(ds, 0, maxAge, cap);
    var p := Nonces(cap + 1);
    forall k: nat | 0 < k < |p| ensures p[k] != Nonce(0) {
      assert |p[k]| == k;
    }
    EvictedPasses(ds, 0, cap + 1, maxAge, cap);
  }
}
