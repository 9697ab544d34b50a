/** JavaScript strings: sequences of 16-bit code units, compared unit by unit. */
module CodeUnits {

  type Unit = u: int | 0 <= u < 0x10000
  type Text = seq<Unit>

  const BACKSPACE: Unit := 0x08
  const TAB: Unit := 0x09
  const LF: Unit := 0x0A
  const FORM_FEED: Unit := 0x0C
  const CR: Unit := 0x0D
  const SPACE: Unit := 0x20
  const QUOTE: Unit := 0x22
  const COMMA: Unit := 0x2C
  const COLON: Unit := 0x3A
  const BACKSLASH: Unit := 0x5C
  const OPEN_BRACKET: Unit := 0x5B
  const CLOSE_BRACKET: Unit := 0x5D
  const OPEN_BRACE: Unit := 0x7B
  const CLOSE_BRACE: Unit := 0x7D

  predicate IsAscii(s: string) {
    forall i :: 0 <= i < |s| ==> s[i] < 128 as char
  }

  /** An ASCII literal as code units. */
  function Ascii(s: string): (t: Text)
    requires IsAscii(s)
    ensures |t| == |s| && forall i :: 0 <= i < |s| ==> t[i] == s[i] as int
  {
    seq(|s|, i requires 0 <= i < |s| => s[i] as int)
  }

  lemma AsciiInjective(a: string, b: string)
    requires IsAscii(a) && IsAscii(b) && Ascii(a) == Ascii(b)
    ensures a == b
  {
    forall i | 0 <= i < |a| ensures a[i] == b[i] {
      assert Ascii(a)[i] == Ascii(b)[i];
    }
  }

  // ---- Lexicographic order on code units: the default order of Array.prototype.sort ----

  predicate Less(a: Text, b: Text) {
    if b == [] then false
    else if a == [] then true
    else if a[0] != b[0] then a[0] < b[0]
    else Less(a[1..], b[1..])
  }

  lemma {:induction false} LessIrreflexive(a: Text)
    ensures !Less(a, a)
  {
    if a != [] {
      LessIrreflexive(a[1..]);
    }
  }

  lemma {:induction false} LessTotal(a: Text, b: Text)
    ensures a == b || Less(a, b) || Less(b, a)
  {
    if a != [] && b != [] && a[0] == b[0] {
      LessTotal(a[1..], b[1..]);
      assert a == [a[0]] + a[1..] && b == [b[0]] + b[1..];
    }
  }

  lemma {:induction false} LessTransitive(a: Text, b: Text, c: Text)
    requires Less(a, b) && Less(b, c)
    ensures Less(a, c)
  {
    if a != [] && a[0] == b[0] && b[0] == c[0] {
      LessTransitive(a[1..], b[1..], c[1..]);
    }
  }

  /** `a` comes before `b`: after what they share, it ends first or goes on with the smaller unit. */
  ghost predicate Precedes(a: Text, b: Text) {
    exists n: nat :: PrecedesAt(a, b, n)
  }

  predicate PrecedesAt(a: Text, b: Text, n: nat) {
    && n <= |a| && n <= |b| && a[..n] == b[..n]
    && (n == |a| < |b| || (n < |a| && n < |b| && a[n] < b[n]))
  }

  /** The order is ascending by code units. */
  lemma {:induction false} LessIff(a: Text, b: Text)
    ensures Less(a, b) <==> Precedes(a, b)
  {
    if a != [] && b != [] && a[0] == b[0] {
      LessIff(a[1..], b[1..]);
      assert a == [a[0]] + a[1..] && b == [b[0]] + b[1..];
      if Precedes(a[1..], b[1..]) {
        var n: nat :| PrecedesAt(a[1..], b[1..], n);
        assert a[..n + 1] == [a[0]] + a[1..][..n] && b[..n + 1] == [b[0]] + b[1..][..n];
        assert PrecedesAt(a, b, n + 1);
      }
      if Precedes(a, b) {
        var n: nat :| PrecedesAt(a, b, n);
        assert n > 0;
        assert a[1..][..n - 1] == a[..n][1..] && b[1..][..n - 1] == b[..n][1..];
        assert PrecedesAt(a[1..], b[1..], n - 1);
      }
    } else {
      OrderFromTheStart(a, b);
    }
  }

  lemma SharedStart(a: Text, b: Text, n: nat)
    requires 0 < n && PrecedesAt(a, b, n)
    ensures a != [] && b != [] && a[0] == b[0]
  {
    assert a[0] == a[..n][0] && b[0] == b[..n][0];
  }

  lemma OrderFromTheStart(a: Text, b: Text)
    requires a == [] || b == [] || a[0] != b[0]
    ensures Less(a, b) <==> Precedes(a, b)
  {
    if Precedes(a, b) {
      var n: nat :| PrecedesAt(a, b, n);
      if n > 0 {
        SharedStart(a, b, n);
      }
    }
    if Less(a, b) {
      assert PrecedesAt(a, b, 0);
    }
  }

  predicate StrictlySorted(ks: seq<Text>) {
    forall i, j :: 0 <= i < j < |ks| ==> Less(ks[i], ks[j])
  }

  function Insert(k: Text, ks: seq<Text>): seq<Text> {
    if ks == [] || Less(k, ks[0]) then [k] + ks else [ks[0]] + Insert(k, ks[1..])
  }

  /** The result of sorting distinct strings. */
  function SortKeys(ks: seq<Text>): seq<Text> {
    if ks == [] then [] else Insert(ks[0], SortKeys(ks[1..]))
  }

  predicate Distinct<T(==)>(s: seq<T>) {
    forall i, j :: 0 <= i < j < |s| ==> s[i] != s[j]
  }

  lemma {:induction false} InsertMembers(k: Text, ks: seq<Text>)
    ensures multiset(Insert(k, ks)) == multiset(ks) + multiset{k}
    ensures |Insert(k, ks)| == |ks| + 1
    ensures forall x :: x in Insert(k, ks) <==> x == k || x in ks
  {
    if ks != [] && !Less(k, ks[0]) {
      assert ks == [ks[0]] + ks[1..];
      InsertMembers(k, ks[1..]);
    }
  }

  lemma {:induction false} InsertProperties(k: Text, ks: seq<Text>)
    requires StrictlySorted(ks) && k !in ks
    ensures StrictlySorted(Insert(k, ks))
    ensures multiset(Insert(k, ks)) == multiset(ks) + multiset{k}
    ensures |Insert(k, ks)| == |ks| + 1
    ensures forall x :: x in Insert(k, ks) <==> x == k || x in ks
  {
    InsertMembers(k, ks);
    if ks == [] {
    } else if Less(k, ks[0]) {
      forall j | 0 < j < |ks| ensures Less(k, ks[j]) {
        LessTransitive(k, ks[0], ks[j]);
      }
    } else {
      LessTotal(k, ks[0]);
      InsertProperties(k, ks[1..]);
      var rest := Insert(k, ks[1..]);
      forall j | 0 <= j < |rest| ensures Less(ks[0], rest[j]) {
        assert rest[j] in rest;
        if rest[j] != k {
          var n :| 0 <= n < |ks[1..]| && ks[1..][n] == rest[j];
          assert ks[n + 1] == rest[j];
        }
      }
    }
  }

  lemma {:induction false} SortKeysProperties(ks: seq<Text>)
    requires Distinct(ks)
    ensures StrictlySorted(SortKeys(ks))
    ensures |SortKeys(ks)| == |ks|
    ensures forall x :: x in SortKeys(ks) <==> x in ks
  {
    if ks != [] {
      assert ks == [ks[0]] + ks[1..];
      SortKeysProperties(ks[1..]);
      forall n | 0 <= n < |ks[1..]| ensures ks[1..][n] != ks[0] {
        assert ks[1..][n] == ks[n + 1];
      }
      InsertProperties(ks[0], SortKeys(ks[1..]));
    }
  }

  /** A strictly sorted listing of a set is unique, so the sort algorithm is irrelevant. */
  lemma {:induction false} StrictlySortedUnique(a: seq<Text>, b: seq<Text>)
    requires StrictlySorted(a) && StrictlySorted(b)
    requires forall x :: x in a <==> x in b
    ensures a == b
  {
    assert a != [] ==> a[0] in b;
    assert b != [] ==> b[0] in a;
    if a != [] && b != [] {
      HeadIsLeast(a, b);
      HeadIsLeast(b, a);
      if a[0] != b[0] {
        LessTransitive(a[0], b[0], a[0]);
        LessIrreflexive(a[0]);
      }
      TailMembers(a, b);
      TailMembers(b, a);
      StrictlySortedUnique(a[1..], b[1..]);
      assert a == [a[0]] + a[1..] && b == [b[0]] + b[1..];
    }
  }

  lemma HeadIsLeast(a: seq<Text>, b: seq<Text>)
    requires a != [] && b != [] && StrictlySorted(a) && b[0] in a
    ensures a[0] == b[0] || Less(a[0], b[0])
  {
  }

  lemma TailMembers(a: seq<Text>, b: seq<Text>)
    requires a != [] && b != [] && a[0] == b[0]
    requires StrictlySorted(a)
    requires forall x :: x in a ==> x in b
    ensures forall x :: x in a[1..] ==> x in b[1..]
  {
    forall x | x in a[1..] ensures x in b[1..] {
      var n :| 0 <= n < |a[1..]| && a[1..][n] == x;
      assert Less(a[0], a[n + 1]);
      LessIrreflexive(a[0]);
      assert a[n + 1] in b;
      assert b == [b[0]] + b[1..];
    }
  }

  // ---- Trimming ----

  /** White space as String.prototype.trim sees it. */
  predicate IsSpace(u: Unit) {
    || 0x09 <= u <= 0x0D || u == 0x20 || u == 0xA0 || u == 0x1680 || 0x2000 <= u <= 0x200A
    || u == 0x2028 || u == 0x2029 || u == 0x202F || u == 0x205F || u == 0x3000 || u == 0xFEFF
  }

  function TrimStart(t: Text): Text {
    if t != [] && IsSpace(t[0]) then TrimStart(t[1..]) else t
  }

  function TrimEnd(t: Text): Text {
    if t != [] && IsSpace(t[|t| - 1]) then TrimEnd(t[..|t| - 1]) else t
  }

  function Trim(t: Text): Text {
    TrimEnd(TrimStart(t))
  }

  /** A text that neither starts nor ends with white space. */
  predicate Tight(t: Text) {
    t != [] && !IsSpace(t[0]) && !IsSpace(t[|t| - 1])
  }

  lemma TrimTight(t: Text)
    requires Tight(t)
    ensures Trim(t) == t && Trim([SPACE] + t) == t
  {
    assert ([SPACE] + t)[1..] == t;
  }

  predicate Blank(t: Text) {
    forall i :: 0 <= i < |t| ==> IsSpace(t[i])
  }

  lemma {:induction false} TrimStartAppend(x: Text, r: Text)
    ensures Blank(x) ==> TrimStart(x + r) == TrimStart(r) && TrimStart(x) == []
    ensures !Blank(x) ==> TrimStart(x) != [] && !Blank(TrimStart(x)) && TrimStart(x + r) == TrimStart(x) + r
  {
    if x == [] {
      assert x + r == r;
    } else {
      assert (x + r)[1..] == x[1..] + r;
      if IsSpace(x[0]) {
        TrimStartAppend(x[1..], r);
      }
    }
  }

  lemma {:induction false} TrimEndAppend(y: Text, r: Text)
    ensures Blank(r) ==> TrimEnd(y + r) == TrimEnd(y)
    ensures !Blank(r) ==> TrimEnd(r) != [] && TrimEnd(y + r) == y + TrimEnd(r)
  {
    if r == [] {
      assert y + r == y;
    } else {
      var n := |r| - 1;
      assert (y + r)[..|y + r| - 1] == y + r[..n];
      if IsSpace(r[n]) {
        TrimEndAppend(y, r[..n]);
      }
    }
  }

  lemma {:induction false} TrimStartSplits(t: Text) returns (i: nat)
    ensures i <= |t| && TrimStart(t) == t[i..] && Blank(t[..i])
    ensures TrimStart(t) == [] || !IsSpace(TrimStart(t)[0])
  {
    if t != [] && IsSpace(t[0]) {
      i := TrimStartSplits(t[1..]);
      assert t[1..][i..] == t[i + 1..];
      assert forall k :: 0 < k < i + 1 ==> t[k] == t[1..][..i][k - 1];
      i := i + 1;
    } else {
      i := 0;
    }
  }

  lemma {:induction false} TrimEndSplits(t: Text)
    ensures var j := |TrimEnd(t)|; j <= |t| && TrimEnd(t) == t[..j] && Blank(t[j..])
    ensures TrimEnd(t) == [] || !IsSpace(TrimEnd(t)[|TrimEnd(t)| - 1])
  {
    if t != [] && IsSpace(t[|t| - 1]) {
      var front := t[..|t| - 1];
      TrimEndSplits(front);
      var j := |TrimEnd(front)|;
      assert forall k :: j <= k < |t| - 1 ==> t[k] == front[j..][k - j];
    }
  }

  /** What trimming takes off is white space, and what it leaves has none at its ends. */
  lemma TrimSplits(t: Text) returns (i: nat, j: nat)
    ensures i <= j <= |t| && Trim(t) == t[i..j] && Blank(t[..i]) && Blank(t[j..])
    ensures Trim(t) == [] || Tight(Trim(t))
  {
    i := TrimStartSplits(t);
    TrimEndSplits(t[i..]);
    j := i + |Trim(t)|;
    assert t[i..][..j - i] == t[i..j] && t[i..][j - i..] == t[j..];
  }

  lemma {:induction false} TrimEndShrinks(t: Text)
    ensures |TrimEnd(t)| <= |t|
    ensures Blank(t) ==> TrimEnd(t) == []
  {
    if t != [] {
      TrimEndShrinks(t[..|t| - 1]);
    }
  }

  /** Appending changes the trim of a text exactly when something other than white space is appended. */
  lemma TrimUnchangedIff(x: Text, r: Text)
    ensures Trim(x + r) == Trim(x) <==> Blank(r)
  {
    TrimStartAppend(x, r);
    if Blank(x) {
      assert Trim(x) == [];
      TrimStartAppend(r, []);
      assert r + [] == r;
      if Blank(r) {
        assert Trim(x + r) == [];
      } else {
        TrimEndAppend([], TrimStart(r));
      }
    } else {
      var y := TrimStart(x);
      TrimEndAppend(y, r);
      TrimEndShrinks(y);
    }
  }

  // ---- Concatenation ----

  function Concat(ts: seq<Text>): Text {
    if ts == [] then [] else Concat(ts[..|ts| - 1]) + ts[|ts| - 1]
  }

  lemma {:induction false} ConcatFirst(ts: seq<Text>)
    requires ts != []
    ensures Concat(ts) == ts[0] + Concat(ts[1..])
  {
    var front, last := ts[..|ts| - 1], ts[|ts| - 1];
    if front == [] {
      assert ts[1..] == [];
    } else {
      ConcatFirst(front);
      assert ts[1..][..|ts| - 2] == front[1..];
      assert (front[0] + Concat(front[1..])) + last == front[0] + (Concat(front[1..]) + last);
    }
  }

  lemma ConcatPrepend(t: Text, ts: seq<Text>)
    ensures Concat([t] + ts) == t + Concat(ts)
  {
    ConcatFirst([t] + ts);
    assert ([t] + ts)[1..] == ts;
  }

  lemma {:induction false} ConcatAppend(xs: seq<Text>, ys: seq<Text>)
    ensures Concat(xs + ys) == Concat(xs) + Concat(ys)
  {
    if ys == [] {
      assert xs + ys == xs;
    } else {
      var front, last := ys[..|ys| - 1], ys[|ys| - 1];
      ConcatAppend(xs, front);
      assert (xs + ys)[..|xs + ys| - 1] == xs + front;
      assert (Concat(xs) + Concat(front)) + last == Concat(xs) + (Concat(front) + last);
    }
  }
}
