/**
 * The framing both server-sent-event readers share: each read is normalised from CRLF to LF and appended to a
 * buffer, from which everything up to the next blank line is cut off as one frame.
 */
module Framing {
  import opened CodeUnits

  const BLANK_LINE: Text := [LF, LF]

  predicate BlankAt(t: Text, i: int) {
    0 <= i < |t| - 1 && t[i] == LF && t[i + 1] == LF
  }

  /** The position of the first blank line, or -1. */
  function IndexOfBlank(t: Text): (i: int)
    ensures i >= 0 ==> BlankAt(t, i) && forall j :: 0 <= j < i ==> !BlankAt(t, j)
    ensures i < 0 ==> i == -1 && forall j :: !BlankAt(t, j)
  {
    if |t| < 2 then -1
    else if t[0] == LF && t[1] == LF then 0
    else
      var i := IndexOfBlank(t[1..]);
      assert forall j :: 0 < j ==> (BlankAt(t, j) <==> BlankAt(t[1..], j - 1));
      if i < 0 then -1 else i + 1
  }

  datatype Cut = Cut(frames: seq<Text>, rest: Text)

  /** All complete frames of a text, and the unterminated tail. */
  function CutFrames(t: Text): Cut
    decreases |t|
  {
    var i := IndexOfBlank(t);
    if i < 0 then Cut([], t)
    else
      var c := CutFrames(t[i + 2..]);
      Cut([t[..i]] + c.frames, c.rest)
  }

  /** Replacing every CRLF by LF. */
  function Normalise(t: Text): Text {
    if t == [] then []
    else if |t| >= 2 && t[0] == CR && t[1] == LF then [LF] + Normalise(t[2..])
    else [t[0]] + Normalise(t[1..])
  }

  /** The reader: buffer, normalise each read on its own, cut. */
  function Feed(pieces: seq<Text>): Cut {
    if pieces == [] then Cut([], [])
    else
      var before := Feed(pieces[..|pieces| - 1]);
      var c := CutFrames(before.rest + Normalise(pieces[|pieces| - 1]));
      Cut(before.frames + c.frames, c.rest)
  }

  /** What the reader has appended to its buffer in all. */
  function NormaliseEach(pieces: seq<Text>): Text {
    if pieces == [] then [] else NormaliseEach(pieces[..|pieces| - 1]) + Normalise(pieces[|pieces| - 1])
  }

  // ---- Cutting ----

  lemma IndexOfBlankUnique(t: Text, i: nat)
    requires BlankAt(t, i) && forall j :: 0 <= j < i ==> !BlankAt(t, j)
    ensures IndexOfBlank(t) == i
  {
    assert !(0 <= IndexOfBlank(t) < i);
  }

  lemma CutAt(t: Text, r: Text)
    requires IndexOfBlank(t) < 0 && (t != [] ==> t[|t| - 1] != LF)
    ensures CutFrames(t + BLANK_LINE + r) == Cut([t] + CutFrames(r).frames, CutFrames(r).rest)
  {
    var all := t + BLANK_LINE + r;
    forall j | 0 <= j < |t| ensures !BlankAt(all, j) {
      assert !BlankAt(t, j);
      assert all[j] == t[j];
    }
    IndexOfBlankUnique(all, |t|);
    assert all[..|t|] == t && all[|t| + 2..] == r;
  }

  lemma FirstBlankAppend(a: Text, b: Text)
    requires IndexOfBlank(a) >= 0
    ensures IndexOfBlank(a + b) == IndexOfBlank(a)
  {
    var i := IndexOfBlank(a);
    forall j | 0 <= j < i ensures !BlankAt(a + b, j) {
      assert !BlankAt(a, j);
    }
    IndexOfBlankUnique(a + b, i);
  }

  lemma CutFirst(a: Text, b: Text)
    requires IndexOfBlank(a) >= 0
    ensures var i := IndexOfBlank(a); var c := CutFrames(a[i + 2..] + b);
      CutFrames(a + b) == Cut([a[..i]] + c.frames, c.rest)
  {
    var i := IndexOfBlank(a);
    FirstBlankAppend(a, b);
    assert (a + b)[..i] == a[..i] && (a + b)[i + 2..] == a[i + 2..] + b;
  }

  lemma ConsAppend(x: Text, fs: seq<Text>, gs: seq<Text>)
    ensures [x] + (fs + gs) == ([x] + fs) + gs
  {
  }

  lemma {:induction false} CutAppend(a: Text, b: Text)
    ensures var c := CutFrames(a); var d := CutFrames(c.rest + b);
      CutFrames(a + b) == Cut(c.frames + d.frames, d.rest)
    decreases |a|
  {
    var i := IndexOfBlank(a);
    if i >= 0 {
      CutFirst(a, b);
      CutAppend(a[i + 2..], b);
      var c := CutFrames(a[i + 2..]);
      ConsAppend(a[..i], c.frames, CutFrames(c.rest + b).frames);
    } else {
      assert [] + CutFrames(a + b).frames == CutFrames(a + b).frames;
    }
  }

  /** However the text is split into reads, the reader finds the frames of what it appended to its buffer. */
  lemma {:induction false} FeedIsCut(pieces: seq<Text>)
    ensures Feed(pieces) == CutFrames(NormaliseEach(pieces))
  {
    if pieces != [] {
      var front := pieces[..|pieces| - 1];
      FeedIsCut(front);
      CutAppend(NormaliseEach(front), Normalise(pieces[|pieces| - 1]));
    }
  }

  /** Between reads the buffer holds no blank line. */
  lemma {:induction false} NoBlankLineLeft(t: Text)
    ensures IndexOfBlank(CutFrames(t).rest) < 0
    decreases |t|
  {
    if IndexOfBlank(t) >= 0 {
      NoBlankLineLeft(t[IndexOfBlank(t) + 2..]);
    }
  }

  /** Frames, each closed by its blank line. */
  function Closed(frames: seq<Text>): Text {
    if frames == [] then [] else frames[0] + BLANK_LINE + Closed(frames[1..])
  }

  /** Nothing is lost: the closed frames and the tail are the whole text. */
  lemma {:induction false} CutLosesNothing(t: Text)
    ensures Closed(CutFrames(t).frames) + CutFrames(t).rest == t
    decreases |t|
  {
    var i := IndexOfBlank(t);
    if i >= 0 {
      CutLosesNothing(t[i + 2..]);
      var c := CutFrames(t[i + 2..]);
      ClosedCons(t[..i], c.frames, c.rest);
      SplitAtBlank(t, i);
    }
  }

  lemma ClosedCons(f: Text, fs: seq<Text>, r: Text)
    ensures Closed([f] + fs) + r == f + BLANK_LINE + (Closed(fs) + r)
  {
    assert ([f] + fs)[1..] == fs;
  }

  lemma SplitAtBlank(t: Text, i: nat)
    requires BlankAt(t, i)
    ensures t == t[..i] + BLANK_LINE + t[i + 2..]
  {
  }

  // ---- Line ends ----

  predicate NoCR(t: Text) {
    forall i :: 0 <= i < |t| ==> t[i] != CR
  }

  lemma {:induction false} NormaliseNoCR(t: Text)
    requires NoCR(t)
    ensures Normalise(t) == t
  {
    if t != [] {
      NormaliseNoCR(t[1..]);
    }
  }

  lemma {:induction false} NoCRReads(pieces: seq<Text>)
    requires NoCR(Concat(pieces))
    ensures NormaliseEach(pieces) == Concat(pieces)
  {
    if pieces != [] {
      var front, last := pieces[..|pieces| - 1], pieces[|pieces| - 1];
      assert Concat(pieces) == Concat(front) + last;
      forall i | 0 <= i < |Concat(front)| ensures Concat(front)[i] != CR {
        assert Concat(front)[i] == Concat(pieces)[i];
      }
      forall i | 0 <= i < |last| ensures last[i] != CR { assert last[i] == Concat(pieces)[|Concat(front)| + i]; }
      NoCRReads(front);
      NormaliseNoCR(last);
    }
  }

  /** On text without carriage returns, reading piecemeal is the same as cutting the whole text at once. */
  lemma SplitInvisible(pieces: seq<Text>)
    requires NoCR(Concat(pieces))
    ensures Feed(pieces) == CutFrames(Concat(pieces))
  {
    FeedIsCut(pieces);
    NoCRReads(pieces);
  }

  predicate CutsPair(a: Text, b: Text) {
    a != [] && b != [] && a[|a| - 1] == CR && b[0] == LF
  }

  lemma NormalisePair(r: Text)
    ensures Normalise([CR, LF] + r) == [LF] + Normalise(r)
  {
    assert ([CR, LF] + r)[2..] == r;
  }

  lemma NormaliseUnit(u: Unit, r: Text)
    requires !CutsPair([u], r)
    ensures Normalise([u] + r) == [u] + Normalise(r)
  {
    assert ([u] + r)[1..] == r;
  }

  /**
   * Normalising two texts apart differs from normalising them together by one unit if a pair is cut, else not at
   * all.
   */
  predicate AppendsWell(a: Text, b: Text) {
    if CutsPair(a, b) then |Normalise(a + b)| == |Normalise(a)| + |Normalise(b)| - 1
    else Normalise(a + b) == Normalise(a) + Normalise(b)
  }

  lemma PairAppends(rest: Text, b: Text)
    requires AppendsWell(rest, b)
    ensures AppendsWell([CR, LF] + rest, b)
  {
    hide Normalise;
    NormalisePair(rest);
    NormalisePair(rest + b);
    assert [CR, LF] + rest + b == [CR, LF] + (rest + b);
    assert rest == [] ==> ([CR, LF] + rest)[1] == LF;
  }

  lemma UnitAppends(u: Unit, rest: Text, b: Text)
    requires AppendsWell(rest, b) && !CutsPair([u], rest) && (rest == [] ==> !CutsPair([u], b))
    ensures AppendsWell([u] + rest, b)
  {
    hide Normalise;
    assert !CutsPair([u], rest + b) by {
      if rest == [] { assert rest + b == b; }
    }
    NormaliseUnit(u, rest);
    NormaliseUnit(u, rest + b);
    assert [u] + rest + b == [u] + (rest + b);
    assert rest == [] ==> [u] + rest == [u];
  }

  lemma CutPairAppends(b: Text)
    requires b != [] && b[0] == LF
    ensures AppendsWell([CR], b)
  {
    assert b == [LF] + b[1..] && [CR] + b == [CR, LF] + b[1..];
    NormalisePair(b[1..]);
    NormaliseUnit(CR, []);
    NormaliseUnit(LF, b[1..]);
    assert [CR] + [] == [CR];
  }

  lemma {:induction false} NormaliseAppend(a: Text, b: Text)
    ensures AppendsWell(a, b)
  {
    if a == [] {
      assert a + b == b;
    } else if |a| >= 2 && a[0] == CR && a[1] == LF {
      NormaliseAppend(a[2..], b);
      PairAppends(a[2..], b);
      assert a == [CR, LF] + a[2..];
    } else if |a| == 1 && CutsPair(a, b) {
      CutPairAppends(b);
      assert a == [CR];
    } else {
      NormaliseAppend(a[1..], b);
      UnitAppends(a[0], a[1..], b);
      assert a == [a[0]] + a[1..];
    }
  }

  /** Some read boundary falls between a CR and the LF after it. */
  predicate SomeBoundaryCutsPair(pieces: seq<Text>) {
    pieces != [] &&
    (SomeBoundaryCutsPair(pieces[..|pieces| - 1]) || CutsPair(Concat(pieces[..|pieces| - 1]), pieces[|pieces| - 1]))
  }

  lemma {:induction false} NormaliseEachLength(pieces: seq<Text>)
    ensures |NormaliseEach(pieces)| >= |Normalise(Concat(pieces))|
    ensures |NormaliseEach(pieces)| == |Normalise(Concat(pieces))| <==> !SomeBoundaryCutsPair(pieces)
    ensures !SomeBoundaryCutsPair(pieces) ==> NormaliseEach(pieces) == Normalise(Concat(pieces))
  {
    if pieces != [] {
      NormaliseEachLength(pieces[..|pieces| - 1]);
      NormaliseAppend(Concat(pieces[..|pieces| - 1]), pieces[|pieces| - 1]);
    }
  }

  /**
   * Normalising each read on its own gives the normalised whole exactly when no read boundary cuts a CRLF pair, and
   * exactly then the reader finds the frames and the tail of the normalised whole.
   */
  lemma PerReadNormalisationExact(pieces: seq<Text>)
    ensures NormaliseEach(pieces) == Normalise(Concat(pieces)) <==> !SomeBoundaryCutsPair(pieces)
    ensures Feed(pieces) == CutFrames(Normalise(Concat(pieces))) <==> !SomeBoundaryCutsPair(pieces)
  {
    NormaliseEachLength(pieces);
    FeedIsCut(pieces);
    CutLosesNothing(NormaliseEach(pieces));
    CutLosesNothing(Normalise(Concat(pieces)));
  }

  lemma CutPairExampleWhole()
    ensures Normalise([0x61, CR, LF, CR, LF]) == [0x61] + BLANK_LINE + []
  {
    var whole: Text := [0x61, CR, LF, CR, LF];
    assert whole[1..] == [CR, LF, CR, LF] && whole[1..][2..] == [CR, LF] && whole[1..][2..][2..] == [];
    assert Normalise([CR, LF]) == [LF] + Normalise([CR, LF][2..]);
    assert Normalise(whole[1..]) == [LF] + [LF];
  }

  lemma CutPairExampleEach()
    ensures NormaliseEach([[0x61, CR, LF, CR], [LF]]) == [0x61, LF, CR, LF]
    ensures Concat([[0x61, CR, LF, CR], [LF]]) == [0x61, CR, LF, CR, LF]
  {
    var first: Text := [0x61, CR, LF, CR];
    var pieces: seq<Text> := [first, [LF]];
    assert pieces[..1] == [first] && [first][..0] == [];
    assert first[1..] == [CR, LF, CR] && first[1..][2..] == [CR];
    assert Normalise([CR]) == [CR] && Normalise([LF]) == [LF];
    assert Normalise(first[1..]) == [LF] + [CR];
    assert Normalise(first) == [0x61, LF, CR];
    assert NormaliseEach([first]) == [] + [0x61, LF, CR];
    assert Concat([first]) == [] + first;
  }

  lemma NoBlankInExample()
    ensures CutFrames([0x61, LF, CR, LF]).frames == []
  {
    var joined: Text := [0x61, LF, CR, LF];
    assert !BlankAt(joined, 0) && !BlankAt(joined, 1) && !BlankAt(joined, 2);
  }

  /** A cut pair can cost a frame: here the second of two CRLF line ends is split, and no frame is found. */
  lemma CutPairLosesFrame()
    ensures var pieces := [[0x61, CR, LF, CR], [LF]];
      CutFrames(Normalise(Concat(pieces))).frames == [[0x61]] && Feed(pieces).frames == []
  {
    CutPairExampleWhole();
    CutPairExampleEach();
    CutAt([0x61], []);
    FeedIsCut([[0x61, CR, LF, CR], [LF]]);
    NoBlankInExample();
  }

  // ---- What normalising does ----

  lemma {:induction false} NormalisePlain(t: Text)
    requires forall i :: 0 <= i < |t| - 1 ==> !(t[i] == CR && t[i + 1] == LF)
    ensures Normalise(t) == t
  {
    if t != [] {
      assert !(|t| >= 2 && t[0] == CR && t[1] == LF);
      NormalisePlain(t[1..]);
    }
  }

  /** Text without a pair stays as it is, and each pair, wherever it is, becomes one line feed. */
  lemma NormaliseAtPair(a: Text, b: Text)
    ensures Normalise(a + [CR, LF] + b) == Normalise(a) + [LF] + Normalise(b)
    ensures (forall i :: 0 <= i < |a| - 1 ==> !(a[i] == CR && a[i + 1] == LF)) ==> Normalise(a) == a
  {
    NormaliseAppend(a, [CR, LF] + b);
    NormalisePair(b);
    assert a + ([CR, LF] + b) == a + [CR, LF] + b;
    if forall i :: 0 <= i < |a| - 1 ==> !(a[i] == CR && a[i + 1] == LF) {
      NormalisePlain(a);
    }
  }

  // ---- Lines ----

  function Lines(t: Text): (ls: seq<Text>)
    ensures ls != []
  {
    if t == [] then [[]]
    else
      var rest := Lines(t[1..]);
      if t[0] == LF then [[]] + rest else [[t[0]] + rest[0]] + rest[1..]
  }

  /** Lines with a line feed between any two. */
  function Joined(ls: seq<Text>): Text
    requires ls != []
  {
    if |ls| == 1 then ls[0] else ls[0] + [LF] + Joined(ls[1..])
  }

  lemma JoinedFirst(x: Text, first: Text, rest: seq<Text>)
    ensures Joined([x + first] + rest) == x + Joined([first] + rest)
    ensures rest != [] ==> Joined([x] + rest) == x + [LF] + Joined(rest)
  {
    assert ([x + first] + rest)[1..] == rest && ([first] + rest)[1..] == rest && ([x] + rest)[1..] == rest;
    if rest != [] {
      assert x + first + [LF] + Joined(rest) == x + (first + [LF] + Joined(rest));
    }
  }

  /** Splitting at line feeds: joining undoes it, and no line holds one. */
  lemma {:induction false} LinesJoin(t: Text)
    ensures Joined(Lines(t)) == t && forall i :: 0 <= i < |Lines(t)| ==> LF !in Lines(t)[i]
  {
    if t != [] {
      LinesJoin(t[1..]);
      var rest := Lines(t[1..]);
      assert rest == [rest[0]] + rest[1..];
      if t[0] == LF {
        JoinedFirst([], [], rest);
        assert [] + [LF] + t[1..] == t;
      } else {
        JoinedFirst([t[0]], rest[0], rest[1..]);
        assert [t[0]] + t[1..] == t;
      }
    }
  }

  lemma {:induction false} OneLine(t: Text)
    requires LF !in t
    ensures Lines(t) == [t]
  {
    if t != [] {
      OneLine(t[1..]);
      assert t == [t[0]] + t[1..];
    }
  }

  lemma {:induction false} TwoLines(a: Text, b: Text)
    requires LF !in a && LF !in b
    ensures Lines(a + [LF] + b) == [a, b]
  {
    var t := a + [LF] + b;
    if a == [] {
      OneLine(b);
      assert t[1..] == b;
    } else {
      TwoLines(a[1..], b);
      assert t[1..] == a[1..] + [LF] + b;
      assert a == [a[0]] + a[1..];
    }
  }

  predicate StartsWith(t: Text, prefix: Text) {
    |prefix| <= |t| && t[..|prefix|] == prefix
  }
}
