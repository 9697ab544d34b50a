/**
 * Direct calls of `snapshotNow` that overlap. Any number of calls are in flight, each seeding, appending under the
 * chain's lock and anchoring; no step fails. Seeding and anchoring are outside the lock.
 */
module Overlap {
  import opened Wrappers
  import opened Snapshot

  /** What a call has still to do. */
  datatype Call = Reading | Appending | Sending(root: Root)

  datatype Process = Process(anchored: Option<Root>, history: seq<Root>, head: Option<Root>, calls: map<nat, Call>)

  datatype Move = Begin(i: nat) | Read(i: nat) | Append(i: nat, content: nat) | Anchor(i: nat)

  function Fresh(anchored: Option<Root>): Process {
    Process(anchored, [], None, map[])
  }

  /** The head is tested when a call begins, and set when its read returns. */
  function Do(p: Process, m: Move): Process {
    match m
    case Begin(i) =>
      if i in p.calls then p else p.(calls := p.calls[i := if p.head.None? then Reading else Appending])
    case Read(i) =>
      if i !in p.calls || !p.calls[i].Reading? then p
      else p.(calls := p.calls[i := Appending], head := if p.anchored.Some? then p.anchored else p.head)
    case Append(i, content) =>
      if i !in p.calls || !p.calls[i].Appending? then p
      else
        var root := Root(content, p.head);
        p.(calls := p.calls[i := Sending(root)], head := Some(root))
    case Anchor(i) =>
      if i !in p.calls || !p.calls[i].Sending? then p
      else
        var root := p.calls[i].root;
        p.(calls := p.calls - {i}, anchored := Some(root), history := p.history + [root])
  }

  function Moves(p: Process, ms: seq<Move>): Process
    decreases |ms|
  {
    if ms == [] then p else Moves(Do(p, ms[0]), ms[1..])
  }

  /** No call begins while another is in flight, as `maybeSnapshot` ensures. */
  predicate OneAtATime(p: Process, ms: seq<Move>)
    decreases |ms|
  {
    ms == [] || ((ms[0].Begin? ==> p.calls == map[]) && OneAtATime(Do(p, ms[0]), ms[1..]))
  }

  predicate Alone(p: Process) {
    forall i, j :: i in p.calls && j in p.calls ==> i == j
  }

  predicate InOrder(first: Option<Root>, p: Process) {
    && Ordered(first, p.history) && Alone(p)
    && p.anchored == (if p.history == [] then first else Some(p.history[|p.history| - 1]))
    && (p.head.Some? ==> Covers(p.head, p.anchored))
    && (forall i :: i in p.calls && p.calls[i].Reading? ==> p.head.None?)
    && (forall i :: i in p.calls && p.calls[i].Appending? ==> Covers(p.head, p.anchored))
    && (forall i :: i in p.calls && p.calls[i].Sending? ==>
          p.head == Some(p.calls[i].root) && Extends(p.calls[i].root, p.anchored))
  }

  lemma MoveKeepsInv(first: Option<Root>, p: Process, m: Move)
    requires InOrder(first, p) && (m.Begin? ==> p.calls == map[])
    ensures InOrder(first, Do(p, m))
  {
    match m
    case Begin(i) =>
    case Read(i) =>
    case Append(i, content) =>
      if i in p.calls && p.calls[i].Appending? {
        assert Extends(Root(content, p.head), p.anchored);
      }
    case Anchor(i) =>
      if i in p.calls && p.calls[i].Sending? {
        assert Extends(p.calls[i].root, p.anchored);
      }
  }

  /** With one call at a time, each anchored root is a proper ancestor of the next. */
  lemma {:induction false} OneAtATimeIsLinear(first: Option<Root>, p: Process, ms: seq<Move>)
    requires InOrder(first, p) && OneAtATime(p, ms)
    ensures InOrder(first, Moves(p, ms)) && Ordered(first, Moves(p, ms).history)
    decreases |ms|
  {
    if ms != [] {
      MoveKeepsInv(first, p, ms[0]);
      OneAtATimeIsLinear(first, Do(p, ms[0]), ms[1..]);
    }
  }

  lemma Unroll(p: Process, m: Move, ms: seq<Move>)
    ensures Moves(p, [m] + ms) == Moves(Do(p, m), ms)
  {
    assert ([m] + ms)[1..] == ms;
  }

  /**
   * Two overlapping first calls can fork the chain: the second's read returns after the first has appended, sets
   * the head back to the anchored root, and both snapshots are anchored with the same parent.
   */
  lemma OverlapForks(r: Root)
    ensures var ms := [Begin(0), Begin(1), Read(0), Append(0, 1), Read(1), Append(1, 2), Anchor(0), Anchor(1)];
      var p := Moves(Fresh(Some(r)), ms);
      p.history == [Root(1, Some(r)), Root(2, Some(r))] && !Ordered(Some(r), p.history)
  {
    var p0 := Fresh(Some(r));
    var p4 := Do(Do(Do(Do(p0, Begin(0)), Begin(1)), Read(0)), Append(0, 1));
    var p8 := Do(Do(Do(Do(p4, Read(1)), Append(1, 2)), Anchor(0)), Anchor(1));
    var tail := [Read(1), Append(1, 2), Anchor(0), Anchor(1)];
    FourMoves(p0, Begin(0), Begin(1), Read(0), Append(0, 1), tail);
    FourMoves(p4, Read(1), Append(1, 2), Anchor(0), Anchor(1), []);
    assert [Read(1), Append(1, 2), Anchor(0), Anchor(1)] + [] == tail;
    assert p8.history == [Root(1, Some(r)), Root(2, Some(r))];
    NoAncestor(r, p8.history);
  }

  /** Before anything is anchored the same schedule does not fork: a read that finds no root keeps the head. */
  lemma FirstSnapshotsDoNotFork()
    ensures var ms := [Begin(0), Begin(1), Read(0), Append(0, 1), Read(1), Append(1, 2), Anchor(0), Anchor(1)];
      Moves(Fresh(None), ms).history == [Root(1, None), Root(2, Some(Root(1, None)))]
  {
    var p0 := Fresh(None);
    var p4 := Do(Do(Do(Do(p0, Begin(0)), Begin(1)), Read(0)), Append(0, 1));
    var tail := [Read(1), Append(1, 2), Anchor(0), Anchor(1)];
    FourMoves(p0, Begin(0), Begin(1), Read(0), Append(0, 1), tail);
    FourMoves(p4, Read(1), Append(1, 2), Anchor(0), Anchor(1), []);
    assert [Read(1), Append(1, 2), Anchor(0), Anchor(1)] + [] == tail;
  }

  /** Two overlapping calls can also anchor out of order: the older snapshot ends up as the contract's root. */
  lemma OverlapReorders(r: Root, h: Root)
    ensures var ms := [Begin(0), Begin(1), Append(0, 1), Append(1, 2), Anchor(1), Anchor(0)];
      var p := Moves(Fresh(Some(r)).(head := Some(h)), ms);
      && p.history == [Root(2, Some(Root(1, Some(h)))), Root(1, Some(h))] && !Ordered(Some(r), p.history)
      && p.anchored == Some(Root(1, Some(h))) && p.head == Some(Root(2, p.anchored))
  {
    var p0 := Fresh(Some(r)).(head := Some(h));
    var tail := [Anchor(1), Anchor(0)];
    var p4 := Do(Do(Do(Do(p0, Begin(0)), Begin(1)), Append(0, 1)), Append(1, 2));
    FourMoves(p0, Begin(0), Begin(1), Append(0, 1), Append(1, 2), tail);
    Unroll(p4, Anchor(1), [Anchor(0)]);
    Unroll(Do(p4, Anchor(1)), Anchor(0), []);
    var a := Root(1, Some(h));
    OutOfOrder(Some(r), [], a, Root(2, Some(a)));
    assert [] + [Root(2, Some(a)), a] == [Root(2, Some(a)), a];
  }

  /** Two calls that begin together and anchor in the wrong order. */
  function Crossed(content: nat): seq<Move> {
    [Begin(0), Begin(1), Read(0), Read(1)] + [Append(0, content), Append(1, content), Anchor(1), Anchor(0)]
  }

  lemma BothAppending(p: Process)
    requires p.calls == map[]
    ensures var q := Do(Do(Do(Do(p, Begin(0)), Begin(1)), Read(0)), Read(1));
      q.calls == map[0 := Appending, 1 := Appending] && q.history == p.history
  {
  }

  lemma AnchorsCrossed(q: Process, content: nat)
    requires q.calls == map[0 := Appending, 1 := Appending]
    ensures var a := Root(content, q.head); var b := Root(content, Some(a));
      Do(Do(Do(Do(q, Append(0, content)), Append(1, content)), Anchor(1)), Anchor(0)).history
        == (q.history + [b]) + [a]
  {
    var a := Root(content, q.head);
    var b := Root(content, Some(a));
    var q2 := Do(Do(q, Append(0, content)), Append(1, content));
    assert q2.calls == map[0 := Sending(a), 1 := Sending(b)];
    assert Do(q2, Anchor(1)).calls == map[0 := Sending(a)];
  }

  lemma CrossedHistory(p: Process, content: nat) returns (a: Root, b: Root)
    requires p.calls == map[]
    ensures Moves(p, Crossed(content)).history == p.history + [b, a] && b.prev == Some(a)
  {
    var q := Do(Do(Do(Do(p, Begin(0)), Begin(1)), Read(0)), Read(1));
    a := Root(content, q.head);
    b := Root(content, Some(a));
    BothAppending(p);
    AnchorsCrossed(q, content);
    CrossedMoves(p, q, content);
    assert (p.history + [b]) + [a] == p.history + [b, a];
  }

  lemma CrossedMoves(p: Process, q: Process, content: nat)
    requires q == Do(Do(Do(Do(p, Begin(0)), Begin(1)), Read(0)), Read(1))
    ensures Moves(p, Crossed(content)) ==
      Do(Do(Do(Do(q, Append(0, content)), Append(1, content)), Anchor(1)), Anchor(0))
  {
    var tail := [Append(0, content), Append(1, content), Anchor(1), Anchor(0)];
    FourMoves(p, Begin(0), Begin(1), Read(0), Read(1), tail);
    FourMoves(q, Append(0, content), Append(1, content), Anchor(1), Anchor(0), []);
    assert tail + [] == tail;
  }

  lemma CrossedOverlaps(p: Process, content: nat)
    requires p.calls == map[]
    ensures !OneAtATime(p, Crossed(content))
  {
    assert Crossed(content)[1..][0] == Begin(1);
  }

  /**
   * The guard is needed everywhere: from every ordered state at rest, whatever is anchored and whether or not the
   * head is known, some overlapping schedule without a single failure anchors out of order.
   */
  lemma EveryStateCanBreak(first: Option<Root>, p: Process) returns (ms: seq<Move>)
    requires p.calls == map[] && InOrder(first, p)
    ensures !OneAtATime(p, ms) && !Ordered(first, Moves(p, ms).history)
  {
    ms := Crossed(0);
    CrossedOverlaps(p, 0);
    var a, b := CrossedHistory(p, 0);
    OutOfOrder(first, p.history, a, b);
  }

  /** A root anchored right after one that links to it. */
  lemma OutOfOrder(first: Option<Root>, before: seq<Root>, a: Root, b: Root)
    requires b.prev == Some(a)
    ensures !Ordered(first, before + [b, a])
  {
    var h := before + [b, a];
    var n := |before|;
    assert h[n] == b && h[n + 1] == a;
    if ProperAncestor(b, a) {
      AncestorIsShallower(b, a);
    }
  }

  lemma FourMoves(p: Process, a: Move, b: Move, c: Move, d: Move, rest: seq<Move>)
    ensures Moves(p, [a, b, c, d] + rest) == Moves(Do(Do(Do(Do(p, a), b), c), d), rest)
  {
    Unroll(p, a, [b, c, d] + rest);
    Unroll(Do(p, a), b, [c, d] + rest);
    Unroll(Do(Do(p, a), b), c, [d] + rest);
    Unroll(Do(Do(Do(p, a), b), c), d, rest);
    assert [a] + ([b, c, d] + rest) == [a, b, c, d] + rest;
    assert [b] + ([c, d] + rest) == [b, c, d] + rest;
    assert [c] + ([d] + rest) == [c, d] + rest;
  }

  /** Two snapshots with the same parent: neither descends from the other. */
  lemma NoAncestor(r: Root, history: seq<Root>)
    requires history == [Root(1, Some(r)), Root(2, Some(r))]
    ensures !Ordered(Some(r), history)
  {
    if ProperAncestor(history[0], history[1]) {
      AncestorIsShallower(history[0], history[1]);
    }
  }
}
