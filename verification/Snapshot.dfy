/** Snapshot rotation: seed the chain head from the contract, append a snapshot, upload it, anchor its root. */
module Snapshot {
  import opened Wrappers
  import opened Subsequences

  // Steps are the code between awaits. Rotations do not overlap (`maybeSnapshot` skips while one is running), the
  // contract is written by this agent only, and a transaction either lands or does not. A process may crash at any
  // step and restart with empty memory; the contract and the storage survive.

  /** A stored snapshot, identified with its root: `content` is everything but the link. */
  datatype Root = Root(content: nat, prev: Option<Root>)

  datatype Phase =
    | Idle
    | Seeding(content: nat)
    | Signing(root: Root)
    | Uploading(root: Root)
    | Anchoring(root: Root)

  /** `anchored` is the contract's root (zero read as None), `history` the roots this agent anchored, in order. */
  datatype State = State(
    anchored: Option<Root>,
    history: seq<Root>,
    store: set<Root>,
    head: Option<Root>,
    poisoned: bool,
    phase: Phase,
    lostRoot: bool)

  datatype Event =
    | Rotate(content: nat)
    | ReadOk
    | ReadFailed
    | SignOk
    | SignFailed
    | UploadOk
    | UploadFailed(stored: bool)
    | AnchorOk
    | AnchorFailed
    | Crash

  /** A process starts with empty memory; the contract may already hold a root. */
  function Init(anchored: Option<Root>, store: set<Root>): State {
    State(anchored, [], store, None, false, Idle, false)
  }

  /** The append call: a poisoned lock rejects it without running. */
  function Begin(s: State, content: nat): State {
    if s.poisoned then s.(phase := Idle) else s.(phase := Signing(Root(content, s.head)))
  }

  /** `lostRoot` records that a failed read hid a root that was there. */
  function Step(s: State, e: Event): State {
    match e
    case Rotate(content) =>
      if !s.phase.Idle? then s
      else if s.head.None? then s.(phase := Seeding(content))
      else Begin(s, content)
    case ReadOk =>
      if !s.phase.Seeding? then s
      else Begin(s.(head := s.anchored), s.phase.content)
    case ReadFailed =>
      if !s.phase.Seeding? then s
      else Begin(s.(lostRoot := s.lostRoot || s.anchored.Some?), s.phase.content)
    case SignOk =>
      if s.phase.Signing? then s.(phase := Uploading(s.phase.root)) else s
    case SignFailed =>
      if s.phase.Signing? then s.(phase := Idle, poisoned := true) else s
    case UploadOk =>
      if s.phase.Uploading?
      then s.(phase := Anchoring(s.phase.root), store := s.store + {s.phase.root}, head := Some(s.phase.root))
      else s
    case UploadFailed(stored) =>
      if s.phase.Uploading?
      then s.(phase := Idle, poisoned := true, store := if stored then s.store + {s.phase.root} else s.store)
      else s
    case AnchorOk =>
      if s.phase.Anchoring?
      then s.(phase := Idle, anchored := Some(s.phase.root), history := s.history + [s.phase.root])
      else s
    case AnchorFailed =>
      if s.phase.Anchoring? then s.(phase := Idle) else s
    case Crash =>
      s.(head := None, poisoned := false, phase := Idle)
  }

  function Run(s: State, es: seq<Event>): State {
    if es == [] then s else Step(Run(s, es[..|es| - 1]), es[|es| - 1])
  }

  // ---- Ancestry ----

  predicate ProperAncestor(a: Root, r: Root) {
    r.prev.Some? && (r.prev.value == a || ProperAncestor(a, r.prev.value))
  }

  lemma {:induction false} AncestorTransitive(a: Root, b: Root, c: Root)
    requires ProperAncestor(a, b) && ProperAncestor(b, c)
    ensures ProperAncestor(a, c)
    decreases c
  {
    if c.prev.value != b {
      AncestorTransitive(a, b, c.prev.value);
    }
  }

  function Depth(r: Root): nat {
    if r.prev.None? then 1 else 1 + Depth(r.prev.value)
  }

  lemma {:induction false} AncestorIsShallower(a: Root, r: Root)
    requires ProperAncestor(a, r)
    ensures Depth(a) < Depth(r)
    decreases r
  {
    if r.prev.value != a {
      AncestorIsShallower(a, r.prev.value);
    }
  }

  /** Nothing anchored yet, or the anchored root is `head` or one of its ancestors. */
  predicate Covers(head: Option<Root>, anchored: Option<Root>) {
    anchored.None? || (head.Some? && (head.value == anchored.value || ProperAncestor(anchored.value, head.value)))
  }

  /** Anchoring `r` next extends the ancestry of what is anchored now. */
  predicate Extends(r: Root, anchored: Option<Root>) {
    anchored.None? || ProperAncestor(anchored.value, r)
  }

  predicate Ordered(first: Option<Root>, history: seq<Root>) {
    && (history != [] ==> Extends(history[0], first))
    && forall i, j :: 0 <= i < |history| && j == i + 1 < |history| ==> ProperAncestor(history[i], history[j])
  }

  predicate Inv(first: Option<Root>, s: State) {
    && Ordered(first, s.history)
    && s.anchored == (if s.history == [] then first else Some(s.history[|s.history| - 1]))
    && (s.head.Some? ==> Covers(s.head, s.anchored))
    && (s.phase.Seeding? ==> s.head.None?)
    && (s.phase.Signing? || s.phase.Uploading? ==> s.phase.root.prev == s.head && Covers(s.head, s.anchored))
    && (s.phase.Anchoring? ==> s.head == Some(s.phase.root) && Extends(s.phase.root, s.anchored))
    && (forall r :: r in s.history ==> r in s.store)
    && (s.phase.Anchoring? ==> s.phase.root in s.store)
  }

  lemma StepKeepsInv(first: Option<Root>, s: State, e: Event)
    requires Inv(first, s) && !Step(s, e).lostRoot
    ensures Inv(first, Step(s, e))
  {
    var t := Step(s, e);
    if e.AnchorOk? && s.phase.Anchoring? {
      assert t.history == s.history + [s.phase.root];
      assert forall i :: 0 <= i < |s.history| ==> t.history[i] == s.history[i];
      assert Ordered(first, t.history);
    }
  }

  lemma LostIsLost(s: State, e: Event)
    ensures s.lostRoot ==> Step(s, e).lostRoot
  {
  }

  lemma {:induction false} RunKeepsInv(first: Option<Root>, store: set<Root>, es: seq<Event>)
    requires !Run(Init(first, store), es).lostRoot
    ensures Inv(first, Run(Init(first, store), es))
  {
    if es != [] {
      var s := Run(Init(first, store), es[..|es| - 1]);
      LostIsLost(s, es[|es| - 1]);
      RunKeepsInv(first, store, es[..|es| - 1]);
      StepKeepsInv(first, s, es[|es| - 1]);
    }
  }

  lemma {:induction false} OrderedPairs(first: Option<Root>, history: seq<Root>, i: nat, j: nat)
    requires Ordered(first, history) && i < j < |history|
    ensures ProperAncestor(history[i], history[j])
  {
    if i < j - 1 {
      OrderedPairs(first, history, i, j - 1);
      AncestorTransitive(history[i], history[j - 1], history[j]);
    }
  }

  /**
   * Across any run of rotations, failed signatures, uploads and transactions, crashes and restarts, in which no
   * failed read hides a root: every anchored root descends properly from every root anchored before it and from
   * the root the contract held at the start, the contract holds the newest, all of them are in storage, and none
   * repeats.
   */
  lemma AnchoredRootsAreLinear(first: Option<Root>, store: set<Root>, es: seq<Event>)
    requires !Run(Init(first, store), es).lostRoot
    ensures var s := Run(Init(first, store), es);
      && (forall i, j :: 0 <= i < j < |s.history| ==>
            ProperAncestor(s.history[i], s.history[j]) && s.history[i] != s.history[j])
      && (forall i :: 0 <= i < |s.history| && first.Some? ==> ProperAncestor(first.value, s.history[i]))
      && (forall i :: 0 <= i < |s.history| ==> s.history[i] in s.store)
      && s.anchored == (if s.history == [] then first else Some(s.history[|s.history| - 1]))
  {
    RunKeepsInv(first, store, es);
    var s := Run(Init(first, store), es);
    forall i, j | 0 <= i < j < |s.history|
      ensures ProperAncestor(s.history[i], s.history[j]) && s.history[i] != s.history[j]
    {
      OrderedPairs(first, s.history, i, j);
      AncestorIsShallower(s.history[i], s.history[j]);
    }
    forall i | 0 <= i < |s.history| && first.Some? ensures ProperAncestor(first.value, s.history[i]) {
      if i > 0 {
        OrderedPairs(first, s.history, 0, i);
        AncestorTransitive(first.value, s.history[0], s.history[i]);
      }
    }
  }

  /** Successful reads are enough: `lostRoot` needs a failed one. */
  lemma {:induction false} GoodReadsLoseNothing(first: Option<Root>, store: set<Root>, es: seq<Event>)
    requires ReadFailed !in es
    ensures !Run(Init(first, store), es).lostRoot
  {
    if es != [] {
      assert es[|es| - 1] in es;
      GoodReadsLoseNothing(first, store, es[..|es| - 1]);
    }
  }

  // ---- When the link is lost ----

  function WholeRotation(content: nat, readOk: bool): seq<Event> {
    [Rotate(content), if readOk then ReadOk else ReadFailed, SignOk, UploadOk, AnchorOk]
  }

  lemma RunCons(s: State, es: seq<Event>, e: Event)
    ensures Run(s, es + [e]) == Step(Run(s, es), e)
  {
    assert (es + [e])[..|es|] == es;
  }

  /**
   * A process's first rotation links its snapshot to the contract's root exactly when the read succeeded or
   * there was no root to read: a failed read is treated as genesis.
   */
  lemma FirstRotationLinksIff(s: State, content: nat, readOk: bool)
    requires s.phase.Idle? && s.head.None? && !s.poisoned
    ensures var t := Run(s, WholeRotation(content, readOk));
      && t.anchored.Some? && t.history == s.history + [t.anchored.value]
      && (Extends(t.anchored.value, s.anchored) <==> readOk || s.anchored.None?)
  {
    var read := if readOk then ReadOk else ReadFailed;
    RunFive(s, Rotate(content), read, SignOk, UploadOk, AnchorOk);
  }

  // ---- Which snapshot is anchored ----

  function Contents(history: seq<Root>): (r: seq<nat>)
    ensures |r| == |history| && forall i :: 0 <= i < |r| ==> r[i] == history[i].content
  {
    seq(|history|, i requires 0 <= i < |history| => history[i].content)
  }

  /** The contents rotations were asked for, in order. */
  function Asked(es: seq<Event>): seq<nat> {
    if es == [] then []
    else Asked(es[..|es| - 1]) + if es[|es| - 1].Rotate? then [es[|es| - 1].content] else []
  }

  /** The content of the rotation in progress. */
  function InProgress(phase: Phase): seq<nat> {
    match phase
    case Idle => []
    case Seeding(content) => [content]
    case Signing(root) => [root.content]
    case Uploading(root) => [root.content]
    case Anchoring(root) => [root.content]
  }

  /** A step takes up the content it is asked for, keeps the one in progress, or lets it go. */
  lemma StepKeepsContents(s: State, e: Event)
    ensures var t := Step(s, e);
      var was, now := Contents(s.history) + InProgress(s.phase), Contents(t.history) + InProgress(t.phase);
      || now == was
      || (e.Rotate? && s.phase.Idle? && now == was + [e.content])
      || (e.Rotate? && s.phase.Idle? && now == was)
      || (!e.Rotate? && !s.phase.Idle? && now + InProgress(s.phase) == was)
  {
    var t := Step(s, e);
    var c := Contents(s.history);
    assert c + [] == c && forall x :: c + [] + [x] == c + [x];
    if e.AnchorOk? && s.phase.Anchoring? {
      assert Contents(t.history) + [] == c + [s.phase.root.content];
    }
  }

  lemma {:induction false} ContentsAreAsked(first: Option<Root>, store: set<Root>, es: seq<Event>)
    ensures var s := Run(Init(first, store), es);
      Within(Contents(s.history) + InProgress(s.phase), Asked(es))
  {
    if es == [] {
      assert Contents([]) + [] == [];
    } else {
      var front, e := es[..|es| - 1], es[|es| - 1];
      var s := Run(Init(first, store), front);
      ContentsAreAsked(first, store, front);
      StepKeepsContents(s, e);
      var t := Step(s, e);
      var was, now := Contents(s.history) + InProgress(s.phase), Contents(t.history) + InProgress(t.phase);
      if e.Rotate? {
        WithinSkips(was, Asked(front), e.content);
        WithinTakes(was, Asked(front), e.content);
      } else {
        assert Asked(es) == Asked(front);
        if now != was {
          WithinDrops(now, InProgress(s.phase)[0], Asked(front));
        }
      }
    }
  }

  /**
   * Over every run, the snapshots anchored are those that rotations were asked to take: their contents are among the
   * contents asked for, in that order, each rotation used at most once.
   */
  lemma AnchoredAsAsked(first: Option<Root>, store: set<Root>, es: seq<Event>)
    ensures Within(Contents(Run(Init(first, store), es).history), Asked(es))
  {
    ContentsAreAsked(first, store, es);
    var s := Run(Init(first, store), es);
    if s.phase.Idle? {
      assert Contents(s.history) + [] == Contents(s.history);
    } else {
      WithinDrops(Contents(s.history), InProgress(s.phase)[0], Asked(es));
    }
  }

  function LaterRotation(content: nat): seq<Event> {
    [Rotate(content), SignOk, UploadOk, AnchorOk]
  }

  lemma RunTwoMore(s: State, es: seq<Event>, a: Event, b: Event)
    ensures Run(s, es + [a, b]) == Step(Step(Run(s, es), a), b)
  {
    RunCons(s, es, a);
    RunCons(s, es + [a], b);
    assert (es + [a]) + [b] == es + [a, b];
  }

  lemma RunFour(s: State, a: Event, b: Event, c: Event, d: Event)
    ensures Run(s, [a, b, c, d]) == Step(Step(Step(Step(s, a), b), c), d)
  {
    RunTwoMore(s, [], a, b);
    RunTwoMore(s, [a, b], c, d);
    assert [] + [a, b] == [a, b];
    assert [a, b] + [c, d] == [a, b, c, d];
  }

  lemma RunFive(s: State, a: Event, b: Event, c: Event, d: Event, e: Event)
    ensures Run(s, [a, b, c, d, e]) == Step(Step(Step(Step(Step(s, a), b), c), d), e)
  {
    RunFour(s, a, b, c, d);
    RunCons(s, [a, b, c, d], e);
    assert [a, b, c, d] + [e] == [a, b, c, d, e];
  }

  /** The snapshot anchored last: stored, and the newest of the history. */
  predicate Anchored(s: State, t: State, root: Root) {
    && t.anchored == Some(root) && t.head == Some(root) && t.history == s.history + [root]
    && root in t.store && t.phase.Idle? && !t.poisoned
  }

  /**
   * A rotation without a failure anchors exactly the snapshot it was asked for: linked to the contract's root in a
   * process that knows no head, or to nothing if reading that root failed; and to the head in one that does.
   */
  lemma RotationAnchorsItsOwn(s: State, content: nat)
    requires s.phase.Idle? && !s.poisoned
    ensures s.head.None? ==> Anchored(s, Run(s, WholeRotation(content, true)), Root(content, s.anchored))
    ensures s.head.None? ==> Anchored(s, Run(s, WholeRotation(content, false)), Root(content, None))
    ensures s.head.Some? ==> Anchored(s, Run(s, LaterRotation(content)), Root(content, s.head))
  {
    RunFive(s, Rotate(content), ReadOk, SignOk, UploadOk, AnchorOk);
    RunFive(s, Rotate(content), ReadFailed, SignOk, UploadOk, AnchorOk);
    RunFour(s, Rotate(content), SignOk, UploadOk, AnchorOk);
  }

  /** A failed transaction leaves the contract alone, but the next snapshot still follows the one that was stored. */
  lemma FailedAnchorIsFollowed(s: State, content: nat, next: nat)
    requires s.phase.Idle? && !s.poisoned && s.head.Some?
    ensures var stored := Root(content, s.head);
      var t := Run(s, [Rotate(content), SignOk, UploadOk, AnchorFailed]);
      && t.anchored == s.anchored && t.history == s.history && stored in t.store
      && Anchored(t, Run(t, LaterRotation(next)), Root(next, Some(stored)))
  {
    RunFour(s, Rotate(content), SignOk, UploadOk, AnchorFailed);
    RotationAnchorsItsOwn(Run(s, [Rotate(content), SignOk, UploadOk, AnchorFailed]), next);
  }

  /** A restart forgets the head and any failure: the next rotation continues from what the contract holds. */
  lemma RestartContinues(s: State, content: nat)
    ensures var r := Step(s, Crash);
      && r.anchored == s.anchored && r.history == s.history && r.store == s.store
      && Anchored(s, Run(r, WholeRotation(content, true)), Root(content, s.anchored))
  {
    RotationAnchorsItsOwn(Step(s, Crash), content);
  }

  /** A failed signature or upload is final for the process: it anchors nothing more. */
  lemma FailureStopsAnchoring(s: State, e: Event, es: seq<Event>)
    requires (e.SignFailed? && s.phase.Signing?) || (e.UploadFailed? && s.phase.Uploading?)
    requires Crash !in es
    ensures Run(Step(s, e), es).history == s.history && Run(Step(s, e), es).anchored == s.anchored
  {
    PoisonedAnchorsNothing(Step(s, e), es);
  }

  lemma {:induction false} PoisonedAnchorsNothing(s: State, es: seq<Event>)
    requires s.poisoned && (s.phase.Idle? || s.phase.Seeding?) && Crash !in es
    ensures var t := Run(s, es);
      t.poisoned && (t.phase.Idle? || t.phase.Seeding?) && t.history == s.history && t.anchored == s.anchored
  {
    if es != [] {
      assert es[|es| - 1] in es;
      PoisonedAnchorsNothing(s, es[..|es| - 1]);
    }
  }

  // ---- The object ----

  /** The part of Agent and SnapshotChain that rotation touches, one method per stretch between awaits. */
  class Rotation {
    var anchored: Option<Root>
    var store: set<Root>
    var head: Option<Root>
    var poisoned: bool
    var phase: Phase
    ghost var history: seq<Root>
    ghost var lostRoot: bool

    ghost function Abs(): State
      reads this
    {
      State(anchored, history, store, head, poisoned, phase, lostRoot)
    }

    constructor (anchored: Option<Root>, store: set<Root>)
      ensures Abs() == Init(anchored, store)
    {
      this.anchored, this.store := anchored, store;
      head, poisoned, phase := None, false, Idle;
      history, lostRoot := [], false;
    }

    method BeginAppend(content: nat)
      modifies this`phase
      ensures Abs() == Begin(old(Abs()), content)
    {
      if poisoned {
        phase := Idle;
      } else {
        phase := Signing(Root(content, head));
      }
    }

    method MaybeSnapshot(content: nat)
      modifies this`phase
      ensures Abs() == Step(old(Abs()), Rotate(content))
    {
      if phase.Idle? {
        if head.None? {
          phase := Seeding(content);
        } else {
          BeginAppend(content);
        }
      }
    }

    method OnRootRead(ok: bool)
      modifies this
      ensures Abs() == Step(old(Abs()), if ok then ReadOk else ReadFailed)
    {
      if phase.Seeding? {
        if ok {
          if anchored.Some? {
            head := anchored;
          } else {
            head := None;
          }
        } else {
          lostRoot := lostRoot || anchored.Some?;
        }
        BeginAppend(phase.content);
      }
    }

    method OnSigned(ok: bool)
      modifies this
      ensures Abs() == Step(old(Abs()), if ok then SignOk else SignFailed)
    {
      if phase.Signing? {
        if ok {
          phase := Uploading(phase.root);
        } else {
          phase, poisoned := Idle, true;
        }
      }
    }

    method OnUploaded(ok: bool, stored: bool)
      modifies this
      ensures Abs() == Step(old(Abs()), if ok then UploadOk else UploadFailed(stored))
    {
      if phase.Uploading? {
        var r := phase.root;
        if ok || stored {
          store := store + {r};
        }
        if ok {
          head := Some(r);
          phase := Anchoring(r);
        } else {
          phase, poisoned := Idle, true;
        }
      }
    }

    method OnAnchored(ok: bool)
      modifies this
      ensures Abs() == Step(old(Abs()), if ok then AnchorOk else AnchorFailed)
    {
      if phase.Anchoring? {
        if ok {
          anchored := Some(phase.root);
          history := history + [phase.root];
        }
        phase := Idle;
      }
    }

    method Restart()
      modifies this
      ensures Abs() == Step(old(Abs()), Crash)
    {
      head, poisoned, phase := None, false, Idle;
    }
  }
}
