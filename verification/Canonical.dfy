/** canonicalJson: the text behind every signature, and why two values share it only if they mean the same. */
module Canonical {
  import opened CodeUnits
  import opened Json
  import opened JsonParse

  /** The keys whose value is not undefined, in insertion order. */
  function DefinedKeys(ms: seq<Member>): seq<Text> {
    if ms == [] then []
    else if ms[0].val.Undefined? then DefinedKeys(ms[1..])
    else [ms[0].key] + DefinedKeys(ms[1..])
  }

  /** The position of key `k`, or the length when the object has no such key. */
  function Find(ms: seq<Member>, k: Text): (i: nat)
    ensures i <= |ms|
    ensures i < |ms| ==> ms[i].key == k
    ensures forall j :: 0 <= j < i ==> ms[j].key != k
  {
    if ms == [] || ms[0].key == k then 0 else 1 + Find(ms[1..], k)
  }

  function CanonicalJson(v: Json): Text
    decreases v, 1
  {
    match v
    case Undefined => NULL_TEXT
    case Arr(es) => [OPEN_BRACKET] + CanonicalElems(es, true) + [CLOSE_BRACKET]
    case Obj(ms) => [OPEN_BRACE] + CanonicalKeys(ms, SortKeys(DefinedKeys(ms)), true) + [CLOSE_BRACE]
    case _ => Stringify(v)
  }

  function CanonicalElems(es: seq<Json>, first: bool): Text
    decreases es, 0
  {
    if es == [] then [] else Separator(first) + CanonicalJson(es[0]) + CanonicalElems(es[1..], false)
  }

  function CanonicalKeys(ms: seq<Member>, keys: seq<Text>, first: bool): Text
    decreases ms, 0, |keys|
  {
    if keys == [] then []
    else
      var i := Find(ms, keys[0]);
      Separator(first) + Quoted(keys[0]) + [COLON]
      + (if i < |ms| then CanonicalJson(ms[i].val) else NULL_TEXT)
      + CanonicalKeys(ms, keys[1..], false)
  }

  // ---- The same text, seen as JSON.stringify of a sorted copy ----

  ghost function Sorted(v: Json): (w: Json)
    ensures !w.Undefined?
    decreases v, 1
  {
    match v
    case Undefined => Null
    case Arr(es) => Arr(SortedElems(es))
    case Obj(ms) => Obj(SortedMembers(ms, SortKeys(DefinedKeys(ms))))
    case _ => v
  }

  ghost function SortedElems(es: seq<Json>): (r: seq<Json>)
    ensures |r| == |es|
    ensures forall i :: 0 <= i < |es| ==> r[i] == Sorted(es[i])
    decreases es, 0
  {
    if es == [] then [] else [Sorted(es[0])] + SortedElems(es[1..])
  }

  ghost function SortedValue(ms: seq<Member>, k: Text): (w: Json)
    ensures !w.Undefined?
    decreases ms, 0, 0
  {
    var i := Find(ms, k);
    if i < |ms| then Sorted(ms[i].val) else Null
  }

  ghost function SortedMembers(ms: seq<Member>, keys: seq<Text>): (r: seq<Member>)
    ensures |r| == |keys|
    ensures forall i :: 0 <= i < |keys| ==> r[i] == Member(keys[i], SortedValue(ms, keys[i]))
    decreases ms, 0, |keys| + 1
  {
    if keys == [] then []
    else [Member(keys[0], SortedValue(ms, keys[0]))] + SortedMembers(ms, keys[1..])
  }

  lemma {:induction false} CanonicalIsStringifySorted(v: Json)
    ensures CanonicalJson(v) == Stringify(Sorted(v))
    decreases v, 1
  {
    match v
    case Arr(es) => ElemsAreStringifySorted(es, true);
    case Obj(ms) => KeysAreStringifySorted(ms, SortKeys(DefinedKeys(ms)), true);
    case _ =>
  }

  lemma {:induction false} ElemsAreStringifySorted(es: seq<Json>, first: bool)
    ensures CanonicalElems(es, first) == StringifyElems(SortedElems(es), first)
    decreases es, 0
  {
    if es != [] {
      CanonicalIsStringifySorted(es[0]);
      ElemsAreStringifySorted(es[1..], false);
      assert SortedElems(es)[1..] == SortedElems(es[1..]);
    }
  }

  lemma {:induction false} KeysAreStringifySorted(ms: seq<Member>, keys: seq<Text>, first: bool)
    ensures CanonicalKeys(ms, keys, first) == StringifyMembers(SortedMembers(ms, keys), first)
    decreases ms, 0, |keys|
  {
    if keys != [] {
      var i := Find(ms, keys[0]);
      if i < |ms| { CanonicalIsStringifySorted(ms[i].val); }
      KeysAreStringifySorted(ms, keys[1..], false);
      assert SortedMembers(ms, keys)[1..] == SortedMembers(ms, keys[1..]);
    }
  }

  // ---- Sorting keeps the meaning ----

  lemma {:induction false} DefinedKeysProperties(ms: seq<Member>)
    requires UniqueKeys(ms)
    ensures Distinct(DefinedKeys(ms))
    ensures forall i :: 0 <= i < |ms| ==> (ms[i].key in DefinedKeys(ms) <==> !ms[i].val.Undefined?)
    ensures forall k :: k in DefinedKeys(ms) ==> exists i :: 0 <= i < |ms| && ms[i].key == k
  {
    if ms != [] {
      var rest := ms[1..];
      DefinedKeysProperties(rest);
      assert forall i :: 0 <= i < |rest| ==> rest[i] == ms[i + 1];
      var keys := DefinedKeys(rest);
      forall j | 0 <= j < |keys| ensures keys[j] != ms[0].key {
        assert keys[j] in keys;
        var i :| 0 <= i < |rest| && rest[i].key == keys[j];
        assert ms[i + 1].key != ms[0].key;
      }
    }
  }

  lemma FindUnique(ms: seq<Member>, i: nat)
    requires UniqueKeys(ms) && i < |ms|
    ensures Find(ms, ms[i].key) == i
  {
  }

  /** A key is a field of the meaning exactly when it is one of the sorted defined keys. */
  lemma FieldsAreDefinedKeys(ms: seq<Member>, k: Text)
    requires UniqueKeys(ms)
    ensures k in SortKeys(DefinedKeys(ms)) <==> k in MeaningMembers(ms)
    ensures k in MeaningMembers(ms) ==> Find(ms, k) < |ms|
    ensures k in MeaningMembers(ms) ==> !ms[Find(ms, k)].val.Undefined?
    ensures k in MeaningMembers(ms) ==> MeaningMembers(ms)[k] == Meaning(ms[Find(ms, k)].val)
  {
    DefinedKeysProperties(ms);
    SortKeysProperties(DefinedKeys(ms));
    if k in SortKeys(DefinedKeys(ms)) {
      var i :| 0 <= i < |ms| && ms[i].key == k;
      FieldOfMember(ms, i);
    }
    if k in MeaningMembers(ms) {
      var i := MemberOfField(ms, k);
      FieldOfMember(ms, i);
      FindUnique(ms, i);
    }
  }

  lemma {:induction false} SortedKeepsMeaning(v: Json)
    requires Valid(v)
    ensures Valid(Sorted(v)) && Meaning(Sorted(v)) == Meaning(v)
    decreases v
  {
    match v
    case Arr(es) =>
      forall i | 0 <= i < |es| ensures Valid(Sorted(es[i])) && Meaning(Sorted(es[i])) == Meaning(es[i]) {
        SortedKeepsMeaning(es[i]);
      }
      assert MeaningElems(SortedElems(es)) == MeaningElems(es);
    case Obj(ms) =>
      forall i | 0 <= i < |ms| ensures Valid(Sorted(ms[i].val)) && Meaning(Sorted(ms[i].val)) == Meaning(ms[i].val) {
        assert ms[i] in ms;
        SortedKeepsMeaning(ms[i].val);
      }
      SortedMembersKeepMeaning(ms);
    case _ =>
  }

  ghost function SortedObject(ms: seq<Member>): seq<Member> {
    SortedMembers(ms, SortKeys(DefinedKeys(ms)))
  }

  /** Where a member of the sorted copy comes from. */
  lemma SortedMemberSource(ms: seq<Member>, j: nat) returns (i: nat)
    requires UniqueKeys(ms) && j < |SortedObject(ms)|
    ensures i < |ms| && SortedObject(ms)[j].key == ms[i].key && !ms[i].val.Undefined?
    ensures SortedObject(ms)[j].val == Sorted(ms[i].val)
  {
    var keys := SortKeys(DefinedKeys(ms));
    DefinedKeysProperties(ms);
    SortKeysProperties(DefinedKeys(ms));
    assert keys[j] in DefinedKeys(ms);
    i :| 0 <= i < |ms| && ms[i].key == keys[j];
    FindUnique(ms, i);
  }

  /** Where a defined member goes. */
  lemma SortedMemberTarget(ms: seq<Member>, i: nat) returns (j: nat)
    requires UniqueKeys(ms) && i < |ms| && !ms[i].val.Undefined?
    ensures j < |SortedObject(ms)| && SortedObject(ms)[j].key == ms[i].key
    ensures SortedObject(ms)[j].val == Sorted(ms[i].val)
  {
    var keys := SortKeys(DefinedKeys(ms));
    DefinedKeysProperties(ms);
    SortKeysProperties(DefinedKeys(ms));
    j :| 0 <= j < |keys| && keys[j] == ms[i].key;
    FindUnique(ms, i);
  }

  lemma SortedObjectUnique(ms: seq<Member>)
    requires UniqueKeys(ms)
    ensures UniqueKeys(SortedObject(ms))
  {
    var keys := SortKeys(DefinedKeys(ms));
    DefinedKeysProperties(ms);
    SortKeysProperties(DefinedKeys(ms));
    forall i, j | 0 <= i < j < |keys| ensures keys[i] != keys[j] {
      LessIrreflexive(keys[i]);
    }
  }

  lemma SortedMembersKeepMeaning(ms: seq<Member>)
    requires UniqueKeys(ms)
    requires forall i :: 0 <= i < |ms| ==> Valid(Sorted(ms[i].val)) && Meaning(Sorted(ms[i].val)) == Meaning(ms[i].val)
    ensures Valid(Obj(SortedObject(ms)))
    ensures MeaningMembers(SortedObject(ms)) == MeaningMembers(ms)
  {
    var ns := SortedObject(ms);
    SortedObjectUnique(ms);
    forall j | 0 <= j < |ns|
      ensures Valid(ns[j].val)
      ensures exists i :: 0 <= i < |ms| && ns[j].key == ms[i].key && !ms[i].val.Undefined?
    {
      var i := SortedMemberSource(ms, j);
    }
    forall i | 0 <= i < |ms| && !ms[i].val.Undefined?
      ensures exists j :: 0 <= j < |ns| && ns[j].key == ms[i].key
                          && !ns[j].val.Undefined? && Meaning(ns[j].val) == Meaning(ms[i].val)
    {
      var j := SortedMemberTarget(ms, i);
    }
    SameFields(ms, ns);
  }

  // ---- The order of the keys ----

  /** In every object of the value, however deep, each key precedes those after it. */
  ghost predicate Ascending(v: Json) {
    match v
    case Arr(es) => forall e | e in es :: Ascending(e)
    case Obj(ms) =>
      && (forall i, j :: 0 <= i < j < |ms| ==> Precedes(ms[i].key, ms[j].key))
      && (forall m | m in ms :: Ascending(m.val))
    case _ => true
  }

  lemma SortedKeysAscend(ms: seq<Member>)
    requires UniqueKeys(ms)
    ensures forall i, j :: 0 <= i < j < |SortedObject(ms)| ==>
      Precedes(SortedObject(ms)[i].key, SortedObject(ms)[j].key)
  {
    var keys := SortKeys(DefinedKeys(ms));
    DefinedKeysProperties(ms);
    SortKeysProperties(DefinedKeys(ms));
    forall i, j | 0 <= i < j < |keys| ensures Precedes(keys[i], keys[j]) {
      LessIff(keys[i], keys[j]);
    }
  }

  /** Where no member is undefined, the wire drops none. */
  lemma {:induction false} WireDefined(ms: seq<Member>)
    requires forall i :: 0 <= i < |ms| ==> !ms[i].val.Undefined?
    ensures |WireMembers(ms)| == |ms|
    ensures forall i :: 0 <= i < |ms| ==> WireMembers(ms)[i] == Member(ms[i].key, Wire(ms[i].val))
  {
    if ms != [] {
      WireDefined(ms[1..]);
    }
  }

  lemma {:induction false} WireSortedAscends(v: Json)
    requires Valid(v)
    ensures Ascending(Wire(Sorted(v)))
    decreases v
  {
    match v
    case Arr(es) =>
      forall e | e in WireElems(SortedElems(es)) ensures Ascending(e) {
        var i :| 0 <= i < |es| && WireElems(SortedElems(es))[i] == e;
        WireSortedAscends(es[i]);
      }
    case Obj(ms) =>
      forall i | 0 <= i < |ms| ensures Ascending(Wire(Sorted(ms[i].val))) {
        assert ms[i] in ms;
        WireSortedAscends(ms[i].val);
      }
      WireSortedObjectAscends(ms);
    case _ =>
  }

  lemma WireSortedObjectAscends(ms: seq<Member>)
    requires UniqueKeys(ms)
    requires forall i :: 0 <= i < |ms| ==> Ascending(Wire(Sorted(ms[i].val)))
    ensures Ascending(Obj(WireMembers(SortedObject(ms))))
  {
    var ns := SortedObject(ms);
    SortedKeysAscend(ms);
    WireDefined(ns);
    forall m | m in WireMembers(ns) ensures Ascending(m.val) {
      var j :| 0 <= j < |ns| && WireMembers(ns)[j] == m;
      var i := SortedMemberSource(ms, j);
    }
  }

  // ---- Main results ----

  /** The canonical text is JSON: it parses, back to a value of the same meaning. */
  lemma CanonicalParses(v: Json)
    requires Valid(v)
    ensures Parse(CanonicalJson(v)).Done?
    ensures Valid(Parse(CanonicalJson(v)).value)
    ensures Meaning(Parse(CanonicalJson(v)).value) == Meaning(v)
  {
    CanonicalIsStringifySorted(v);
    SortedKeepsMeaning(v);
    ParseUndoesStringify(Sorted(v));
  }

  /** In the canonical text the keys of every object ascend by code units, however deep. */
  lemma CanonicalAscends(v: Json)
    requires Valid(v)
    ensures Parse(CanonicalJson(v)).Done? && Ascending(Parse(CanonicalJson(v)).value)
  {
    CanonicalIsStringifySorted(v);
    SortedKeepsMeaning(v);
    ParseUndoesStringify(Sorted(v));
    WireSortedAscends(v);
  }

  // ---- The text itself ----

  lemma PlainKey(u: Unit)
    requires IsPlain(u)
    ensures Quoted([u]) == [QUOTE, u, QUOTE]
  {
    SpelledAs(u);
    assert Escape([u]) == EscapeUnit(u) + Escape([u][1..]);
  }

  lemma PairSorted(x: Unit, y: Unit)
    requires x < y
    ensures SortKeys([[x], [y]]) == [[x], [y]] && SortKeys([[y], [x]]) == [[x], [y]]
  {
    assert [[x], [y]][1..] == [[y]] && [[y], [x]][1..] == [[x]] && [[x]][1..] == [] && [[y]][1..] == [];
    assert Less([x], [y]) && !Less([y], [x]);
    assert SortKeys([[x]]) == [[x]] && SortKeys([[y]]) == [[y]];
  }

  function Defined(m: Member): seq<Text> {
    if m.val.Undefined? then [] else [m.key]
  }

  lemma OneDefined(a: Member, rest: seq<Member>)
    ensures DefinedKeys([a] + rest) == Defined(a) + DefinedKeys(rest)
  {
    assert ([a] + rest)[0] == a && ([a] + rest)[1..] == rest;
  }

  lemma PairDefined(a: Member, b: Member)
    ensures DefinedKeys([a, b]) == Defined(a) + Defined(b)
  {
    hide DefinedKeys;
    OneDefined(a, [b]);
    OneDefined(b, []);
    NoneDefined();
    assert [a] + [b] == [a, b] && [b] + [] == [b] && Defined(b) + [] == Defined(b);
  }

  lemma NoneDefined()
    ensures DefinedKeys([]) == []
  {
  }

  lemma PairFound(ms: seq<Member>, i: nat)
    requires |ms| == 2 && i < 2 && ms[0].key != ms[1].key
    ensures Find(ms, ms[i].key) == i
  {
  }

  lemma OneMoreKey(ms: seq<Member>, keys: seq<Text>, i: nat, first: bool)
    requires keys != [] && i < |ms| && Find(ms, keys[0]) == i
    ensures CanonicalKeys(ms, keys, first) ==
      Separator(first) + Quoted(ms[i].key) + [COLON] + CanonicalJson(ms[i].val) + CanonicalKeys(ms, keys[1..], false)
  {
  }

  /** The members of an object with two keys, each found at its place, printed in the order of `keys`. */
  lemma PairText(ms: seq<Member>, keys: seq<Text>, i: nat, j: nat)
    requires |ms| == 2 && i < 2 && j < 2 && i != j && ms[0].key != ms[1].key
    requires keys == [ms[i].key, ms[j].key]
    ensures CanonicalKeys(ms, keys, true) ==
      Quoted(ms[i].key) + [COLON] + CanonicalJson(ms[i].val) + [COMMA]
      + Quoted(ms[j].key) + [COLON] + CanonicalJson(ms[j].val)
  {
    hide CanonicalJson;
    hide Quoted;
    PairFound(ms, i);
    PairFound(ms, j);
    assert keys[1..] == [ms[j].key] && keys[1..][1..] == [];
    OneMoreKey(ms, keys, i, true);
    OneMoreKey(ms, keys[1..], j, false);
    assert CanonicalKeys(ms, [], false) == [];
  }

  /** The text of an object with keys `x` and `y`, in either order of insertion. */
  function PairJson(x: Unit, v: Json, y: Unit, w: Json): Text {
    [OPEN_BRACE] + ([QUOTE, x, QUOTE] + [COLON] + CanonicalJson(v) + [COMMA]
                    + [QUOTE, y, QUOTE] + [COLON] + CanonicalJson(w)) + [CLOSE_BRACE]
  }

  lemma CanonicalPair(x: Unit, v: Json, y: Unit, w: Json)
    requires x < y && IsPlain(x) && IsPlain(y) && !v.Undefined? && !w.Undefined?
    ensures CanonicalJson(Obj([Member([x], v), Member([y], w)])) == PairJson(x, v, y, w)
    ensures CanonicalJson(Obj([Member([y], w), Member([x], v)])) == PairJson(x, v, y, w)
  {
    var a, b := Member([x], v), Member([y], w);
    PlainKey(x);
    PlainKey(y);
    PairSorted(x, y);
    PairDefined(a, b);
    PairDefined(b, a);
    assert [[x]] + [[y]] == [[x], [y]] && [[y]] + [[x]] == [[y], [x]];
    PairText([a, b], [[x], [y]], 0, 1);
    PairText([b, a], [[x], [y]], 1, 0);
  }

  const C3D2: Json := Obj([Member([0x64], Num([0x32])), Member([0x63], Num([0x33]))])

  const C3D2_TEXT: Text :=
    [OPEN_BRACE, QUOTE, 0x63, QUOTE, COLON, 0x33, COMMA, QUOTE, 0x64, QUOTE, COLON, 0x32, CLOSE_BRACE]

  lemma CanonicalInner()
    ensures CanonicalJson(C3D2) == C3D2_TEXT
  {
    hide CanonicalJson;
    CanonicalPair(0x63, Num([0x33]), 0x64, Num([0x32]));
    CanonicalDigit(0x32);
    CanonicalDigit(0x33);
  }

  lemma CanonicalDigit(u: Unit)
    requires IsDigit(u)
    ensures CanonicalJson(Num([u])) == [u]
  {
  }

  /** `{b: 1, a: {d: 2, c: 3}}` is `{"a":{"c":3,"d":2},"b":1}`. */
  lemma CanonicalExample()
    ensures CanonicalJson(Obj([Member([0x62], Num([0x31])), Member([0x61], C3D2)])) ==
      [OPEN_BRACE, QUOTE, 0x61, QUOTE, COLON] + C3D2_TEXT + [COMMA, QUOTE, 0x62, QUOTE, COLON, 0x31, CLOSE_BRACE]
  {
    hide CanonicalJson;
    CanonicalInner();
    CanonicalDigit(0x31);
    CanonicalPair(0x61, C3D2, 0x62, Num([0x31]));
  }

  lemma {:induction false} MeaningFixesText(a: Json, b: Json)
    requires Valid(a) && Valid(b) && Meaning(a) == Meaning(b)
    ensures CanonicalJson(a) == CanonicalJson(b)
    decreases a, 1
  {
    match a
    case Arr(es) =>
      MeaningFixesElems(es, b.elems, true);
    case Obj(ms) =>
      var ns := b.members;
      var ks, ls := SortKeys(DefinedKeys(ms)), SortKeys(DefinedKeys(ns));
      DefinedKeysProperties(ms);
      DefinedKeysProperties(ns);
      SortKeysProperties(DefinedKeys(ms));
      SortKeysProperties(DefinedKeys(ns));
      forall k ensures (k in ks <==> k in ls)
        && (k in ks ==> Find(ms, k) < |ms| && Find(ns, k) < |ns|)
        && (k in ks ==> Meaning(ms[Find(ms, k)].val) == Meaning(ns[Find(ns, k)].val))
      {
        FieldsAreDefinedKeys(ms, k);
        FieldsAreDefinedKeys(ns, k);
      }
      StrictlySortedUnique(ks, ls);
      MeaningFixesKeys(ms, ns, ks, true);
    case _ =>
  }

  lemma {:induction false} MeaningFixesElems(es: seq<Json>, fs: seq<Json>, first: bool)
    requires (forall e | e in es :: Valid(e)) && forall f | f in fs :: Valid(f)
    requires MeaningElems(es) == MeaningElems(fs)
    ensures CanonicalElems(es, first) == CanonicalElems(fs, first)
    decreases es, 0
  {
    assert |es| == |fs|;
    if es != [] {
      assert Meaning(es[0]) == MeaningElems(es)[0] == Meaning(fs[0]);
      MeaningFixesText(es[0], fs[0]);
      assert MeaningElems(es[1..]) == MeaningElems(es)[1..];
      assert MeaningElems(fs[1..]) == MeaningElems(fs)[1..];
      MeaningFixesElems(es[1..], fs[1..], false);
    }
  }

  lemma {:induction false} MeaningFixesKeys(ms: seq<Member>, ns: seq<Member>, keys: seq<Text>, first: bool)
    requires (forall m | m in ms :: Valid(m.val)) && forall n | n in ns :: Valid(n.val)
    requires forall k :: k in keys ==> Find(ms, k) < |ms| && Find(ns, k) < |ns|
    requires forall k :: k in keys ==> Meaning(ms[Find(ms, k)].val) == Meaning(ns[Find(ns, k)].val)
    ensures CanonicalKeys(ms, keys, first) == CanonicalKeys(ns, keys, first)
    decreases ms, 0, |keys|
  {
    if keys != [] {
      var k := keys[0];
      assert ms[Find(ms, k)] in ms && ns[Find(ns, k)] in ns;
      MeaningFixesText(ms[Find(ms, k)].val, ns[Find(ns, k)].val);
      MeaningFixesKeys(ms, ns, keys[1..], false);
    }
  }

  /** canonicalJson is injective up to meaning. */
  lemma CanonicalInjective(a: Json, b: Json)
    requires Valid(a) && Valid(b)
    ensures CanonicalJson(a) == CanonicalJson(b) <==> Meaning(a) == Meaning(b)
  {
    CanonicalParses(a);
    CanonicalParses(b);
    if Meaning(a) == Meaning(b) {
      MeaningFixesText(a, b);
    }
  }

  /** The receiver recomputes the signer's text from the value it reads off the wire. */
  lemma SurvivesTheWire(v: Json)
    requires Valid(v) && !v.Undefined?
    ensures Parse(Stringify(v)).Done?
    ensures Valid(Parse(Stringify(v)).value)
    ensures CanonicalJson(Parse(Stringify(v)).value) == CanonicalJson(v)
  {
    ParseUndoesStringify(v);
    CanonicalInjective(Wire(v), v);
  }

  /** Re-encoding a decoded canonical text gives the same text. */
  lemma CanonicalIsStable(v: Json)
    requires Valid(v)
    ensures Parse(CanonicalJson(v)).Done?
    ensures CanonicalJson(Parse(CanonicalJson(v)).value) == CanonicalJson(v)
  {
    CanonicalParses(v);
    CanonicalInjective(Parse(CanonicalJson(v)).value, v);
  }

  /** Hashing the UTF-8 bytes of the text hashes the text itself, and the text fits on one line. */
  lemma CanonicalIsPlainText(v: Json)
    requires Valid(v)
    ensures Utf8Safe(CanonicalJson(v)) && Printable(CanonicalJson(v))
  {
    CanonicalIsStringifySorted(v);
    SortedKeepsMeaning(v);
    StringifyIsUtf8Safe(Sorted(v));
    StringifyIsPrintable(Sorted(v));
  }
}
