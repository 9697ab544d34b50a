/** The append-only chains kept in content-addressed storage: RepChain, and the same machinery in SnapshotChain. */
module Chain {
  import opened Wrappers
  import opened Subsequences

  // The content hash is idealised as injective, so a root is identified with the record it addresses; a signature is
  // identified with the key and the unsigned record it was made over. Each step is the code between two awaits, so a
  // run of steps is one interleaving of any number of append calls.

  type Key = nat

  /** What a caller of append supplies. */
  datatype Input = Input(
    callerINFT: string, calleeINFT: string, skill: string, ok: bool, latencyMs: int, tee: Option<string>)

  /** The record without its signature: `prev` is the head at the moment the lock was granted. */
  datatype Base = Base(payload: Input, ts: int, prev: Option<Root>)

  datatype Sig = Sig(key: Key, over: Base)

  datatype Root = Root(base: Base, sig: Sig)

  predicate Verify(r: Root, key: Key) {
    r.sig == Sig(key, r.base)
  }

  datatype Phase = Idle | Signing(base: Base) | Storing(entry: Root)

  /**
   * `queue` is the promise chain behind `_lock`: inputs whose turn has not come, in call order. Once an
   * append rejects, `poisoned` makes every later one reject without running. `log`, `calls` and `rejected`
   * record what happened.
   */
  datatype State = State(
    head: Option<Root>,
    store: set<Root>,
    queue: seq<Input>,
    phase: Phase,
    poisoned: bool,
    log: seq<Root>,
    calls: seq<Input>,
    rejected: seq<Input>)

  datatype Event =
    | Append(p: Input)
    | Start(ts: int)
    | Signed(key: Key)
    | SignRejected
    | Stored
    | StoreRejected(uploaded: bool)
    | Foreign(r: Root)

  function Init(head: Option<Root>, store: set<Root>): State {
    State(head, store, [], Idle, false, [], [], [])
  }

  /** An event that is not enabled changes nothing. */
  function Step(s: State, e: Event): State {
    match e
    case Append(p) => s.(queue := s.queue + [p], calls := s.calls + [p])
    case Start(ts) =>
      if !s.phase.Idle? || s.queue == [] then s
      else if s.poisoned then s.(queue := s.queue[1..], rejected := s.rejected + [s.queue[0]])
      else s.(queue := s.queue[1..], phase := Signing(Base(s.queue[0], ts, s.head)))
    case Signed(key) =>
      if !s.phase.Signing? then s
      else s.(phase := Storing(Root(s.phase.base, Sig(key, s.phase.base))))
    case SignRejected =>
      if !s.phase.Signing? then s
      else s.(phase := Idle, poisoned := true, rejected := s.rejected + [s.phase.base.payload])
    case Stored =>
      if !s.phase.Storing? then s
      else
        var r := s.phase.entry;
        s.(phase := Idle, store := s.store + {r}, head := Some(r), log := s.log + [r])
    case StoreRejected(uploaded) =>
      if !s.phase.Storing? then s
      else s.(phase := Idle, poisoned := true, rejected := s.rejected + [s.phase.entry.base.payload],
              store := if uploaded then s.store + {s.phase.entry} else s.store)
    case Foreign(r) => s.(store := s.store + {r})
  }

  function Run(s: State, es: seq<Event>): State {
    if es == [] then s else Step(Run(s, es[..|es| - 1]), es[|es| - 1])
  }

  // ---- One linear chain ----

  /** Each record points at the one committed just before it. */
  ghost predicate Linked(before: Option<Root>, log: seq<Root>) {
    && (log != [] ==> log[0].base.prev == before)
    && forall i, j :: 0 <= i < |log| && j == i + 1 < |log| ==> log[j].base.prev == Some(log[i])
  }

  function Last(before: Option<Root>, log: seq<Root>): Option<Root> {
    if log == [] then before else Some(log[|log| - 1])
  }

  function Payloads(log: seq<Root>): (r: seq<Input>)
    ensures |r| == |log|
  {
    seq(|log|, i requires 0 <= i < |log| => log[i].base.payload)
  }

  function InFlight(phase: Phase): seq<Input> {
    match phase
    case Idle => []
    case Signing(b) => [b.payload]
    case Storing(r) => [r.base.payload]
  }

  ghost predicate Inv(before: Option<Root>, s: State) {
    && Linked(before, s.log)
    && s.head == Last(before, s.log)
    && (forall r :: r in s.log ==> r in s.store && r.sig.over == r.base)
    && (s.phase.Signing? ==> s.phase.base.prev == s.head)
    && (s.phase.Storing? ==> s.phase.entry.base.prev == s.head && s.phase.entry.sig.over == s.phase.entry.base)
    && (s.poisoned <==> s.rejected != [])
    && (s.poisoned ==> s.phase.Idle?)
    && s.calls == Payloads(s.log) + InFlight(s.phase) + s.rejected + s.queue
  }

  lemma PayloadsPushed(log: seq<Root>, r: Root)
    ensures Payloads(log + [r]) == Payloads(log) + [r.base.payload]
  {
  }

  lemma TakeNext(done: seq<Input>, rejected: seq<Input>, queue: seq<Input>)
    requires queue != []
    ensures done + [] + rejected + queue == done + [] + (rejected + [queue[0]]) + queue[1..]
    ensures done + [] + [] + queue == done + [queue[0]] + [] + queue[1..]
  {
    assert queue == [queue[0]] + queue[1..];
  }

  lemma EndCurrent(done: seq<Input>, x: Input, queue: seq<Input>)
    ensures done + [x] + [] + queue == done + [] + ([] + [x]) + queue
    ensures done + [x] + [] + queue == (done + [x]) + [] + [] + queue
  {
  }

  lemma StepKeepsCalls(before: Option<Root>, s: State, e: Event)
    requires Inv(before, s)
    ensures var t := Step(s, e); t.calls == Payloads(t.log) + InFlight(t.phase) + t.rejected + t.queue
  {
    var done := Payloads(s.log);
    match e
    case Append(p) => assert done + InFlight(s.phase) + s.rejected + (s.queue + [p]) == s.calls + [p];
    case Start(_) =>
      if s.phase.Idle? && s.queue != [] {
        TakeNext(done, s.rejected, s.queue);
      }
    case Signed(_) =>
    case SignRejected =>
      if s.phase.Signing? {
        EndCurrent(done, s.phase.base.payload, s.queue);
      }
    case StoreRejected(_) =>
      if s.phase.Storing? {
        EndCurrent(done, s.phase.entry.base.payload, s.queue);
      }
    case Stored =>
      if s.phase.Storing? {
        PayloadsPushed(s.log, s.phase.entry);
        EndCurrent(done, s.phase.entry.base.payload, s.queue);
      }
    case Foreign(_) =>
  }

  lemma StepKeepsInv(before: Option<Root>, s: State, e: Event)
    requires Inv(before, s)
    ensures Inv(before, Step(s, e))
  {
    StepKeepsCalls(before, s, e);
    if e.Stored? && s.phase.Storing? {
      LinkedPush(before, s.log, s.phase.entry);
    }
  }

  lemma LinkedPush(before: Option<Root>, log: seq<Root>, r: Root)
    requires Linked(before, log) && r.base.prev == Last(before, log)
    ensures Linked(before, log + [r]) && Last(before, log + [r]) == Some(r)
  {
  }

  /**
   * Any interleaving of appends, failures and foreign writes yields one linear chain: every committed record
   * points at the previous one, the head is the last, all are stored, and the calls are committed in call order.
   */
  lemma {:induction false} LinearChain(before: Option<Root>, store: set<Root>, es: seq<Event>)
    ensures Inv(before, Run(Init(before, store), es))
  {
    if es != [] {
      LinearChain(before, store, es[..|es| - 1]);
      StepKeepsInv(before, Run(Init(before, store), es[..|es| - 1]), es[|es| - 1]);
    }
  }

  /** Once nothing is pending, the calls are the committed ones followed by the rejected ones. */
  lemma QuiescentLog(before: Option<Root>, store: set<Root>, es: seq<Event>)
    requires Run(Init(before, store), es).phase.Idle? && Run(Init(before, store), es).queue == []
    ensures var s := Run(Init(before, store), es);
      s.calls == Payloads(s.log) + s.rejected && (s.calls == Payloads(s.log) <==> !s.poisoned)
  {
    LinearChain(before, store, es);
    var s := Run(Init(before, store), es);
    assert s.calls == Payloads(s.log) + s.rejected;
    assert |s.calls| == |Payloads(s.log)| + |s.rejected|;
  }

  /** Without a rejected signature or upload, nothing is rejected: once nothing is pending, every call is committed. */
  lemma {:induction false} NothingRejected(before: Option<Root>, store: set<Root>, es: seq<Event>)
    requires forall e :: e in es ==> !e.SignRejected? && !e.StoreRejected?
    ensures var s := Run(Init(before, store), es);
      && !s.poisoned && s.rejected == []
      && (s.phase.Idle? && s.queue == [] ==> s.calls == Payloads(s.log))
  {
    if es != [] {
      NothingRejected(before, store, es[..|es| - 1]);
      assert es[|es| - 1] in es;
    }
    LinearChain(before, store, es);
    var s := Run(Init(before, store), es);
    assert Payloads(s.log) + [] + [] + [] == Payloads(s.log);
  }

  /** After one rejected append nothing is ever committed again by this chain object. */
  lemma {:induction false} PoisonIsFinal(before: Option<Root>, s: State, es: seq<Event>)
    requires Inv(before, s) && s.poisoned
    ensures Inv(before, Run(s, es))
    ensures Run(s, es).poisoned && Run(s, es).log == s.log && Run(s, es).head == s.head
  {
    if es != [] {
      PoisonIsFinal(before, s, es[..|es| - 1]);
      StepKeepsInv(before, Run(s, es[..|es| - 1]), es[|es| - 1]);
    }
  }

  /** No two commits share a root: a record contains everything it descends from. */
  lemma {:induction false} CommitsAreDistinct(before: Option<Root>, log: seq<Root>, i: nat, j: nat)
    requires Linked(before, log) && i < j < |log|
    ensures Depth(log[i]) + (j - i) == Depth(log[j])
    ensures log[i] != log[j]
  {
    if i < j - 1 {
      CommitsAreDistinct(before, log, i, j - 1);
    }
    assert log[j].base.prev == Some(log[j - 1]);
  }

  function Depth(r: Root): nat {
    match r.base.prev
    case None => 1
    case Some(p) => 1 + Depth(p)
  }

  /** An upload that landed, whoever made it and even if its append was then rejected. */
  function Uploaded(s: State, e: Event): set<Root> {
    if e.Foreign? then {e.r}
    else if s.phase.Storing? && (e.Stored? || e == StoreRejected(true)) then {s.phase.entry}
    else {}
  }

  function AllUploaded(s: State, es: seq<Event>): set<Root> {
    if es == [] then {}
    else AllUploaded(s, es[..|es| - 1]) + Uploaded(Run(s, es[..|es| - 1]), es[|es| - 1])
  }

  /** The storage holds what it held and every upload that landed, and nothing else. */
  lemma {:induction false} StoreIsUploads(s: State, es: seq<Event>)
    ensures Run(s, es).store == s.store + AllUploaded(s, es)
  {
    if es != [] {
      StoreIsUploads(s, es[..|es| - 1]);
    }
  }

  // ---- Walking back ----

  datatype Walked = NotFound | Found(entries: seq<Root>)

  function Prepend(out: seq<Root>, w: Walked): Walked {
    if w.Found? then Found(out + w.entries) else w
  }

  /** Newest first from `cur`; a missing blob makes the whole walk fail, a bad signature ends it. */
  function WalkFrom(store: set<Root>, cur: Option<Root>, limit: int, verifyKey: Option<Key>): Walked
    decreases if limit < 0 then 0 else limit
  {
    if cur.None? || limit <= 0 then Found([])
    else if cur.value !in store then NotFound
    else if verifyKey.Some? && !Verify(cur.value, verifyKey.value) then Found([])
    else Prepend([cur.value], WalkFrom(store, cur.value.base.prev, limit - 1, verifyKey))
  }

  lemma PrependTwice(out: seq<Root>, r: Root, w: Walked)
    ensures Prepend(out, Prepend([r], w)) == Prepend(out + [r], w)
    ensures Prepend(out, Found([])) == Found(out)
  {
    if w.Found? {
      assert out + ([r] + w.entries) == (out + [r]) + w.entries;
    }
    assert out + [] == out;
  }

  function Reverse<T>(s: seq<T>): (r: seq<T>)
    ensures |r| == |s|
    ensures forall i :: 0 <= i < |s| ==> r[i] == s[|s| - 1 - i]
  {
    seq(|s|, i requires 0 <= i < |s| => s[|s| - 1 - i])
  }

  /** The newest `limit` entries, newest first. */
  function Newest<T>(log: seq<T>, limit: int): (r: seq<T>)
    ensures |r| <= |log|
  {
    if limit <= 0 then [] else if limit < |log| then Reverse(log)[..limit] else Reverse(log)
  }

  /** The longest run of good signatures at the front. */
  function TakeVerified(rs: seq<Root>, key: Key): seq<Root> {
    if rs == [] || !Verify(rs[0], key) then [] else [rs[0]] + TakeVerified(rs[1..], key)
  }

  function Checked(rs: seq<Root>, verifyKey: Option<Key>): seq<Root> {
    if verifyKey.None? then rs else TakeVerified(rs, verifyKey.value)
  }

  lemma NewestStep<T>(log: seq<T>, limit: int)
    requires log != [] && limit > 0
    ensures Newest(log, limit) == [log[|log| - 1]] + Newest(log[..|log| - 1], limit - 1)
  {
    var front := log[..|log| - 1];
    assert Reverse(log) == [log[|log| - 1]] + Reverse(front);
  }

  lemma CheckedFirst(r: Root, rs: seq<Root>, verifyKey: Option<Key>)
    ensures Checked([r] + rs, verifyKey) ==
      if verifyKey.Some? && !Verify(r, verifyKey.value) then [] else [r] + Checked(rs, verifyKey)
  {
    assert ([r] + rs)[1..] == rs;
  }

  /** One turn of the walk takes the newest record, if the rest of the walk takes the others. */
  lemma WalkOne(store: set<Root>, r: Root, rest: seq<Root>, limit: int, verifyKey: Option<Key>)
    requires r in store && limit > 0
    requires WalkFrom(store, r.base.prev, limit - 1, verifyKey) == Found(Checked(rest, verifyKey))
    ensures WalkFrom(store, Some(r), limit, verifyKey) == Found(Checked([r] + rest, verifyKey))
  {
    CheckedFirst(r, rest, verifyKey);
  }

  lemma FrontIsLinked(log: seq<Root>)
    requires Linked(None, log) && log != []
    ensures Linked(None, log[..|log| - 1])
    ensures log[|log| - 1].base.prev == Last(None, log[..|log| - 1])
  {
  }

  lemma {:induction false} WalkIsNewest(store: set<Root>, log: seq<Root>, limit: int, verifyKey: Option<Key>)
    requires Linked(None, log) && forall r :: r in log ==> r in store
    ensures WalkFrom(store, Last(None, log), limit, verifyKey) == Found(Checked(Newest(log, limit), verifyKey))
    decreases |log|
  {
    if log != [] && limit > 0 {
      var front, last := log[..|log| - 1], log[|log| - 1];
      FrontIsLinked(log);
      WalkIsNewest(store, front, limit - 1, verifyKey);
      WalkOne(store, last, Newest(front, limit - 1), limit, verifyKey);
      NewestStep(log, limit);
    }
  }

  /**
   * In every reachable state of a chain started empty, walking from the head returns the newest `limit`
   * records in reverse commit order, cut at the first one the given key did not sign.
   */
  lemma WalkReturnsNewest(store: set<Root>, es: seq<Event>, limit: int, verifyKey: Option<Key>)
    ensures var s := Run(Init(None, store), es);
      WalkFrom(s.store, s.head, limit, verifyKey) == Found(Checked(Newest(s.log, limit), verifyKey))
  {
    LinearChain(None, store, es);
    var s := Run(Init(None, store), es);
    WalkIsNewest(s.store, s.log, limit, verifyKey);
  }

  lemma {:induction false} TakesAll(rs: seq<Root>, key: Key)
    requires forall r :: r in rs ==> Verify(r, key)
    ensures TakeVerified(rs, key) == rs
  {
    if rs != [] {
      TakesAll(rs[1..], key);
    }
  }

  ghost predicate SignedBy(log: seq<Root>, phase: Phase, key: Key) {
    && (forall r :: r in log ==> Verify(r, key))
    && (phase.Storing? ==> Verify(phase.entry, key))
  }

  lemma {:induction false} OneSigner(store: set<Root>, es: seq<Event>, key: Key)
    requires forall e :: e in es && e.Signed? ==> e.key == key
    ensures SignedBy(Run(Init(None, store), es).log, Run(Init(None, store), es).phase, key)
  {
    if es != [] {
      var last := es[|es| - 1];
      assert last in es && forall e :: e in es[..|es| - 1] ==> e in es;
      OneSigner(store, es[..|es| - 1], key);
    }
  }

  /**
   * When every append is signed with one key, checking against that key cuts nothing off: the walk returns the
   * newest `limit` records of the chain, whatever failed or was uploaded by others.
   */
  lemma OneSignerWalk(store: set<Root>, es: seq<Event>, limit: int, key: Key)
    requires forall e :: e in es && e.Signed? ==> e.key == key
    ensures var s := Run(Init(None, store), es);
      WalkFrom(s.store, s.head, limit, Some(key)) == Found(Newest(s.log, limit))
  {
    var s := Run(Init(None, store), es);
    OneSigner(store, es, key);
    WalkReturnsNewest(store, es, limit, Some(key));
    NewestIsFromLog(s.log, limit);
    TakesAll(Newest(s.log, limit), key);
  }

  lemma NewestIsFromLog(log: seq<Root>, limit: int)
    ensures forall r :: r in Newest(log, limit) ==> r in log
  {
  }

  // ---- What a walk finds in any store ----

  /** The `n`-th record before `cur`, which is the 0-th. */
  function Back(cur: Option<Root>, n: nat): Option<Root> {
    if n == 0 || cur.None? then cur else Back(cur.value.base.prev, n - 1)
  }

  /** Where a walk from `cur` stops after `n` records, and why. */
  predicate StopsAt(store: set<Root>, cur: Option<Root>, limit: int, verifyKey: Option<Key>, n: nat) {
    var r := Back(cur, n);
    n as int >= limit || r.None? || r.value !in store || (verifyKey.Some? && !Verify(r.value, verifyKey.value))
  }

  /**
   * A walk goes back link by link and stops at the limit, at the first record of the chain, at the first record the
   * key did not sign, or at the first that is not in storage; only the last makes it fail.
   */
  lemma {:induction false} WalkStops(store: set<Root>, cur: Option<Root>, limit: int, verifyKey: Option<Key>)
    returns (n: nat)
    ensures StopsAt(store, cur, limit, verifyKey, n)
    ensures forall k: nat :: k < n ==> !StopsAt(store, cur, limit, verifyKey, k)
    ensures var w := WalkFrom(store, cur, limit, verifyKey);
      && (w.NotFound? <==> (n as int) < limit && Back(cur, n).Some? && Back(cur, n).value !in store)
      && (w.Found? ==> |w.entries| == n && forall k :: 0 <= k < n ==> Back(cur, k) == Some(w.entries[k]))
    decreases if limit < 0 then 0 else limit
  {
    if StopsAt(store, cur, limit, verifyKey, 0) {
      n := 0;
    } else {
      var m := WalkStops(store, cur.value.base.prev, limit - 1, verifyKey);
      n := m + 1;
      forall k: nat | k < n ensures !StopsAt(store, cur, limit, verifyKey, k) {
        if k > 0 {
          assert !StopsAt(store, cur.value.base.prev, limit - 1, verifyKey, k - 1);
        }
      }
    }
  }

  // ---- The time in a record ----

  function Times(log: seq<Root>): (r: seq<int>)
    ensures |r| == |log| && forall i :: 0 <= i < |r| ==> r[i] == log[i].base.ts
  {
    seq(|log|, i requires 0 <= i < |log| => log[i].base.ts)
  }

  function TimeInFlight(phase: Phase): seq<int> {
    match phase
    case Idle => []
    case Signing(b) => [b.ts]
    case Storing(r) => [r.base.ts]
  }

  /** The times at which appends were let in. */
  function Starts(es: seq<Event>): seq<int> {
    if es == [] then []
    else Starts(es[..|es| - 1]) + if es[|es| - 1].Start? then [es[|es| - 1].ts] else []
  }

  lemma StepKeepsTimes(s: State, e: Event)
    ensures var t := Step(s, e);
      var was, now := Times(s.log) + TimeInFlight(s.phase), Times(t.log) + TimeInFlight(t.phase);
      || now == was
      || (e.Start? && s.phase.Idle? && now == was + [e.ts])
      || (!e.Start? && !s.phase.Idle? && now + TimeInFlight(s.phase) == was)
  {
    var t := Step(s, e);
    var c := Times(s.log);
    assert c + [] == c && forall x :: c + [] + [x] == c + [x];
    if e.Stored? && s.phase.Storing? {
      assert Times(t.log) + [] == c + [s.phase.entry.base.ts];
    }
  }

  lemma {:induction false} TimesWithStarts(before: Option<Root>, store: set<Root>, es: seq<Event>)
    ensures var s := Run(Init(before, store), es);
      Within(Times(s.log) + TimeInFlight(s.phase), Starts(es))
  {
    if es == [] {
      assert Times([]) + [] == [];
    } else {
      var front, e := es[..|es| - 1], es[|es| - 1];
      var s := Run(Init(before, store), front);
      TimesWithStarts(before, store, front);
      StepKeepsTimes(s, e);
      var t := Step(s, e);
      var was, now := Times(s.log) + TimeInFlight(s.phase), Times(t.log) + TimeInFlight(t.phase);
      if e.Start? {
        WithinSkips(was, Starts(front), e.ts);
        WithinTakes(was, Starts(front), e.ts);
      } else {
        assert Starts(es) == Starts(front);
        if now != was {
          WithinDrops(now, TimeInFlight(s.phase)[0], Starts(front));
        }
      }
    }
  }

  /** Each record carries the time at which its append was let in, in commit order. */
  lemma RecordsAreTimed(before: Option<Root>, store: set<Root>, es: seq<Event>)
    ensures Within(Times(Run(Init(before, store), es).log), Starts(es))
  {
    TimesWithStarts(before, store, es);
    var s := Run(Init(before, store), es);
    if s.phase.Idle? {
      assert Times(s.log) + [] == Times(s.log);
    } else {
      WithinDrops(Times(s.log), TimeInFlight(s.phase)[0], Starts(es));
    }
  }

  // ---- The object ----

  /** One method per stretch of code between awaits. */
  class RepChain {
    var head: Option<Root>
    var store: set<Root>
    var queue: seq<Input>
    var phase: Phase
    var poisoned: bool
    ghost var log: seq<Root>
    ghost var calls: seq<Input>
    ghost var rejected: seq<Input>

    ghost function Abs(): State
      reads this
    {
      State(head, store, queue, phase, poisoned, log, calls, rejected)
    }

    constructor (store: set<Root>, head: Option<Root>)
      ensures Abs() == Init(head, store)
    {
      this.head, this.store := head, store;
      queue, phase, poisoned := [], Idle, false;
      log, calls, rejected := [], [], [];
    }

    method AppendCall(p: Input)
      modifies this
      ensures Abs() == Step(old(Abs()), Append(p))
    {
      queue := queue + [p];
      calls := calls + [p];
    }

    /** The lock's `then` callback for the oldest waiting call. */
    method StartNext(ts: int)
      modifies this
      ensures Abs() == Step(old(Abs()), Start(ts))
    {
      if phase.Idle? && queue != [] {
        var p := queue[0];
        queue := queue[1..];
        if poisoned {
          rejected := rejected + [p];
        } else {
          phase := Signing(Base(p, ts, head));
        }
      }
    }

    method OnSigned(key: Key)
      modifies this
      ensures Abs() == Step(old(Abs()), Signed(key))
    {
      if phase.Signing? {
        phase := Storing(Root(phase.base, Sig(key, phase.base)));
      }
    }

    method OnSignRejected()
      modifies this
      ensures Abs() == Step(old(Abs()), SignRejected)
    {
      if phase.Signing? {
        rejected := rejected + [phase.base.payload];
        phase, poisoned := Idle, true;
      }
    }

    method OnStored()
      modifies this
      ensures Abs() == Step(old(Abs()), Stored)
    {
      if phase.Storing? {
        var r := phase.entry;
        store := store + {r};
        head := Some(r);
        log := log + [r];
        phase := Idle;
      }
    }

    method OnStoreRejected(uploaded: bool)
      modifies this
      ensures Abs() == Step(old(Abs()), StoreRejected(uploaded))
    {
      if phase.Storing? {
        rejected := rejected + [phase.entry.base.payload];
        if uploaded {
          store := store + {phase.entry};
        }
        phase, poisoned := Idle, true;
      }
    }

    method Walk(from: Root, limit: int, verifyKey: Option<Key>) returns (r: Walked)
      ensures r == WalkFrom(store, Some(from), limit, verifyKey)
    {
      var out: seq<Root> := [];
      var cur: Option<Root> := Some(from);
      while cur.Some? && |out| < limit
        invariant |out| <= limit || out == []
        invariant WalkFrom(store, Some(from), limit, verifyKey)
               == Prepend(out, WalkFrom(store, cur, limit - |out|, verifyKey))
        decreases limit - |out|
      {
        if cur.value !in store {
          return NotFound;
        }
        PrependTwice(out, cur.value, WalkFrom(store, cur.value.base.prev, limit - |out| - 1, verifyKey));
        if verifyKey.Some? && !Verify(cur.value, verifyKey.value) {
          break;
        }
        out := out + [cur.value];
        cur := cur.value.base.prev;
      }
      assert out + [] == out;
      r := Found(out);
    }
  }
}
