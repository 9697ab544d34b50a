/** JavaScript values as far as JSON sees them, what they mean, and the text JSON.stringify gives them. */
module Json {
  import opened CodeUnits

  // A finite number is identified by the text Number::toString gives it, which is injective on numbers (with -0 printed
  // as 0), so `Num` carries that text.

  datatype Json =
    | Undefined
    | Null
    | Bool(b: bool)
    | NonFinite
    | Num(lit: Text)
    | Str(s: Text)
    | Arr(elems: seq<Json>)
    | Obj(members: seq<Member>)

  datatype Member = Member(key: Text, val: Json)

  /** What a value means: members unordered, no undefined anywhere. */
  datatype Val =
    | VNull
    | VBool(b: bool)
    | VNum(lit: Text)
    | VStr(s: Text)
    | VArr(elems: seq<Val>)
    | VObj(fields: map<Text, Val>)

  predicate IsDigit(u: Unit) { 0x30 <= u <= 0x39 }

  predicate IsNumUnit(u: Unit) {
    IsDigit(u) || u == 0x2B || u == 0x2D || u == 0x2E || u == 0x45 || u == 0x65
  }

  /** Texts that begin like a JSON number and consist of number characters. */
  predicate IsNumLit(t: Text) {
    t != [] && (IsDigit(t[0]) || t[0] == 0x2D) && forall i :: 0 <= i < |t| ==> IsNumUnit(t[i])
  }

  predicate UniqueKeys(ms: seq<Member>) {
    forall i, j :: 0 <= i < j < |ms| ==> ms[i].key != ms[j].key
  }

  predicate Valid(v: Json) {
    match v
    case Num(lit) => IsNumLit(lit)
    case Arr(es) => forall e | e in es :: Valid(e)
    case Obj(ms) => UniqueKeys(ms) && forall m | m in ms :: Valid(m.val)
    case _ => true
  }

  function Meaning(v: Json): Val {
    match v
    case Undefined => VNull
    case Null => VNull
    case Bool(b) => VBool(b)
    case NonFinite => VNull
    case Num(lit) => VNum(lit)
    case Str(s) => VStr(s)
    case Arr(es) => VArr(MeaningElems(es))
    case Obj(ms) => VObj(MeaningMembers(ms))
  }

  function MeaningElems(es: seq<Json>): (r: seq<Val>)
    ensures |r| == |es|
    ensures forall i :: 0 <= i < |es| ==> r[i] == Meaning(es[i])
  {
    if es == [] then [] else [Meaning(es[0])] + MeaningElems(es[1..])
  }

  function MeaningMembers(ms: seq<Member>): map<Text, Val> {
    if ms == [] then map[]
    else if ms[0].val.Undefined? then MeaningMembers(ms[1..])
    else MeaningMembers(ms[1..])[ms[0].key := Meaning(ms[0].val)]
  }

  /** Each defined member is a field of the meaning. */
  lemma {:induction false} FieldOfMember(ms: seq<Member>, i: nat)
    requires i < |ms| && UniqueKeys(ms)
    ensures !ms[i].val.Undefined? ==>
      ms[i].key in MeaningMembers(ms) && MeaningMembers(ms)[ms[i].key] == Meaning(ms[i].val)
    ensures ms[i].val.Undefined? ==> ms[i].key !in MeaningMembers(ms)
  {
    if i == 0 {
      if ms[0].key in MeaningMembers(ms[1..]) {
        var j := MemberOfField(ms[1..], ms[0].key);
        assert false;
      }
    } else {
      FieldOfMember(ms[1..], i - 1);
    }
  }

  /** Each field of the meaning comes from a defined member. */
  lemma {:induction false} MemberOfField(ms: seq<Member>, k: Text) returns (i: nat)
    requires k in MeaningMembers(ms)
    ensures i < |ms| && ms[i].key == k && !ms[i].val.Undefined?
  {
    if !ms[0].val.Undefined? && ms[0].key == k {
      i := 0;
    } else {
      i := MemberOfField(ms[1..], k);
      i := i + 1;
    }
  }

  /** The meaning of an object is determined by its defined members, in whatever order. */
  lemma SameFields(ms: seq<Member>, ns: seq<Member>)
    requires UniqueKeys(ms) && UniqueKeys(ns)
    requires forall i :: 0 <= i < |ms| && !ms[i].val.Undefined? ==>
      exists j :: 0 <= j < |ns| && ns[j].key == ms[i].key
                  && !ns[j].val.Undefined? && Meaning(ns[j].val) == Meaning(ms[i].val)
    requires forall j :: 0 <= j < |ns| && !ns[j].val.Undefined? ==>
      exists i :: 0 <= i < |ms| && ns[j].key == ms[i].key && !ms[i].val.Undefined?
    ensures MeaningMembers(ms) == MeaningMembers(ns)
  {
    forall k | k in MeaningMembers(ms)
      ensures k in MeaningMembers(ns) && MeaningMembers(ns)[k] == MeaningMembers(ms)[k]
    {
      var i := MemberOfField(ms, k);
      FieldOfMember(ms, i);
      var j :| 0 <= j < |ns| && ns[j].key == ms[i].key
               && !ns[j].val.Undefined? && Meaning(ns[j].val) == Meaning(ms[i].val);
      FieldOfMember(ns, j);
    }
    forall k | k in MeaningMembers(ns) ensures k in MeaningMembers(ms) {
      var j := MemberOfField(ns, k);
      var i :| 0 <= i < |ms| && ns[j].key == ms[i].key && !ms[i].val.Undefined?;
      FieldOfMember(ms, i);
    }
  }

  // ---- Reading a property ----

  /** A property read: undefined unless `v` is an object with that key. */
  function Get(v: Json, key: Text): Json {
    if v.Obj? then Lookup(v.members, key) else Undefined
  }

  function Lookup(ms: seq<Member>, key: Text): Json {
    if ms == [] then Undefined else if ms[0].key == key then ms[0].val else Lookup(ms[1..], key)
  }

  predicate Truthy(v: Json) {
    match v
    case Undefined => false
    case Null => false
    case Bool(b) => b
    case NonFinite => true
    case Num(lit) => lit != [0x30]
    case Str(s) => s != []
    case Arr(_) => true
    case Obj(_) => true
  }

  // ---- JSON.stringify ----

  const NULL_TEXT: Text := Ascii("null")
  const TRUE_TEXT: Text := Ascii("true")
  const FALSE_TEXT: Text := Ascii("false")

  predicate IsHigh(u: Unit) { 0xD800 <= u <= 0xDBFF }

  predicate IsLow(u: Unit) { 0xDC00 <= u <= 0xDFFF }

  function HexDigit(n: int): Unit
    requires 0 <= n < 16
  {
    if n < 10 then 0x30 + n else 0x57 + n
  }

  function HexEscape(u: Unit): (t: Text)
    ensures |t| == 6
  {
    [BACKSLASH, 0x75, HexDigit(u / 16 / 16 / 16), HexDigit(u / 16 / 16 % 16), HexDigit(u / 16 % 16), HexDigit(u % 16)]
  }

  /** One unit on its own, outside a surrogate pair. */
  function EscapeUnit(u: Unit): Text {
    if u == QUOTE then [BACKSLASH, QUOTE]
    else if u == BACKSLASH then [BACKSLASH, BACKSLASH]
    else if u == BACKSPACE then [BACKSLASH, 0x62]
    else if u == FORM_FEED then [BACKSLASH, 0x66]
    else if u == LF then [BACKSLASH, 0x6E]
    else if u == CR then [BACKSLASH, 0x72]
    else if u == TAB then [BACKSLASH, 0x74]
    else if u < 0x20 || IsHigh(u) || IsLow(u) then HexEscape(u)
    else [u]
  }

  // How a unit is spelled, said apart from EscapeUnit.

  predicate IsPlain(u: Unit) {
    u >= 0x20 && u != QUOTE && u != BACKSLASH && !IsHigh(u) && !IsLow(u)
  }

  /** The letter of a two-unit escape. */
  const LETTERS: map<Unit, Unit> :=
    map[QUOTE := QUOTE, BACKSLASH := BACKSLASH, 0x08 := 0x62, 0x09 := 0x74, 0x0A := 0x6E, 0x0C := 0x66, 0x0D := 0x72]

  function HexOf(u: Unit): int {
    if 0x30 <= u <= 0x39 then u - 0x30 else if 0x61 <= u <= 0x66 then u - 0x57 else -1
  }

  /** Four lower-case hexadecimal digits, the most significant first. */
  predicate IsHexFor(t: Text, u: Unit) {
    && |t| == 4 && (forall i :: 0 <= i < 4 ==> HexOf(t[i]) >= 0)
    && ((HexOf(t[0]) * 16 + HexOf(t[1])) * 16 + HexOf(t[2])) * 16 + HexOf(t[3]) == u
  }

  /** Plain units stand for themselves, seven have a letter, and the rest are written out in lower-case digits. */
  lemma SpelledAs(u: Unit)
    ensures IsPlain(u) ==> EscapeUnit(u) == [u]
    ensures u in LETTERS ==> EscapeUnit(u) == [BACKSLASH, LETTERS[u]]
    ensures !IsPlain(u) && u !in LETTERS ==>
      EscapeUnit(u)[..2] == [BACKSLASH, 0x75] && IsHexFor(EscapeUnit(u)[2..], u)
  {
    if !IsPlain(u) && u !in LETTERS {
      HexIsExact(u);
    }
  }

  lemma HexIsExact(u: Unit)
    ensures HexEscape(u)[..2] == [BACKSLASH, 0x75] && IsHexFor(HexEscape(u)[2..], u)
  {
    var a, b, c, d := u / 16 / 16 / 16, u / 16 / 16 % 16, u / 16 % 16, u % 16;
    DigitOfHex(a);
    DigitOfHex(b);
    DigitOfHex(c);
    DigitOfHex(d);
    assert HexEscape(u)[2..] == [HexDigit(a), HexDigit(b), HexDigit(c), HexDigit(d)];
    assert u / 16 / 16 == a * 16 + b && u / 16 == (a * 16 + b) * 16 + c && u == ((a * 16 + b) * 16 + c) * 16 + d;
  }

  lemma DigitOfHex(n: int)
    requires 0 <= n < 16
    ensures HexOf(HexDigit(n)) == n
  {
  }

  predicate StartsWithPair(s: Text) {
    |s| >= 2 && IsHigh(s[0]) && IsLow(s[1])
  }

  /** Section 7 of RFC 8259, with lone surrogates escaped; surrogate pairs stay as they are. */
  function Escape(s: Text): Text {
    if s == [] then []
    else if StartsWithPair(s) then [s[0], s[1]] + Escape(s[2..])
    else EscapeUnit(s[0]) + Escape(s[1..])
  }

  function Quoted(s: Text): Text {
    [QUOTE] + Escape(s) + [QUOTE]
  }

  function Separator(first: bool): Text {
    if first then [] else [COMMA]
  }

  function Stringify(v: Json): Text
    requires !v.Undefined?
  {
    match v
    case Null => NULL_TEXT
    case Bool(b) => if b then TRUE_TEXT else FALSE_TEXT
    case NonFinite => NULL_TEXT
    case Num(lit) => lit
    case Str(s) => Quoted(s)
    case Arr(es) => [OPEN_BRACKET] + StringifyElems(es, true) + [CLOSE_BRACKET]
    case Obj(ms) => [OPEN_BRACE] + StringifyMembers(ms, true) + [CLOSE_BRACE]
  }

  /** An undefined element prints as null. */
  function StringifyElems(es: seq<Json>, first: bool): Text {
    if es == [] then []
    else Separator(first) + (if es[0].Undefined? then NULL_TEXT else Stringify(es[0])) + StringifyElems(es[1..], false)
  }

  /** An undefined member is skipped. */
  function StringifyMembers(ms: seq<Member>, first: bool): Text {
    if ms == [] then []
    else if ms[0].val.Undefined? then StringifyMembers(ms[1..], first)
    else Separator(first) + Quoted(ms[0].key) + [COLON] + Stringify(ms[0].val) + StringifyMembers(ms[1..], false)
  }

  // ---- What the text says: the value JSON.parse gives back ----

  function Wire(v: Json): (w: Json)
    ensures !w.Undefined?
  {
    match v
    case Undefined => Null
    case NonFinite => Null
    case Arr(es) => Arr(WireElems(es))
    case Obj(ms) => Obj(WireMembers(ms))
    case _ => v
  }

  function WireElems(es: seq<Json>): (r: seq<Json>)
    ensures |r| == |es|
    ensures forall i :: 0 <= i < |es| ==> r[i] == Wire(es[i])
  {
    if es == [] then [] else [Wire(es[0])] + WireElems(es[1..])
  }

  function WireMembers(ms: seq<Member>): seq<Member> {
    if ms == [] then []
    else if ms[0].val.Undefined? then WireMembers(ms[1..])
    else [Member(ms[0].key, Wire(ms[0].val))] + WireMembers(ms[1..])
  }

  lemma {:induction false} WireKeepsMeaning(v: Json)
    ensures Meaning(Wire(v)) == Meaning(v)
    decreases v, 1
  {
    match v
    case Arr(es) =>
      forall i | 0 <= i < |es| ensures Meaning(Wire(es[i])) == Meaning(es[i]) {
        WireKeepsMeaning(es[i]);
      }
      assert MeaningElems(WireElems(es)) == MeaningElems(es);
    case Obj(ms) => WireMembersKeepMeaning(ms);
    case _ =>
  }

  lemma {:induction false} WireMembersKeepMeaning(ms: seq<Member>)
    ensures MeaningMembers(WireMembers(ms)) == MeaningMembers(ms)
    decreases ms, 0
  {
    if ms != [] {
      WireMembersKeepMeaning(ms[1..]);
      if !ms[0].val.Undefined? {
        WireKeepsMeaning(ms[0].val);
        var w := WireMembers(ms);
        assert w[1..] == WireMembers(ms[1..]);
      }
    }
  }

  lemma {:induction false} WireIsValid(v: Json)
    requires Valid(v)
    ensures Valid(Wire(v))
    decreases v, 1
  {
    match v
    case Arr(es) =>
      forall e | e in WireElems(es) ensures Valid(e) {
        var i :| 0 <= i < |es| && WireElems(es)[i] == e;
        WireIsValid(es[i]);
      }
    case Obj(ms) =>
      WiredKeysAreUnique(ms);
      WireMembersAreValid(ms);
    case _ =>
  }

  predicate HasKey(ms: seq<Member>, k: Text) {
    exists i :: 0 <= i < |ms| && ms[i].key == k
  }

  lemma {:induction false} WiredKeysAreOld(ms: seq<Member>, j: nat)
    requires j < |WireMembers(ms)|
    ensures HasKey(ms, WireMembers(ms)[j].key)
  {
    if ms[0].val.Undefined? {
      WiredKeysAreOld(ms[1..], j);
      var i :| 0 <= i < |ms[1..]| && ms[1..][i].key == WireMembers(ms[1..])[j].key;
      assert ms[i + 1].key == WireMembers(ms)[j].key;
    } else if j == 0 {
      assert ms[0].key == WireMembers(ms)[0].key;
    } else {
      WiredKeysAreOld(ms[1..], j - 1);
      var i :| 0 <= i < |ms[1..]| && ms[1..][i].key == WireMembers(ms[1..])[j - 1].key;
      assert ms[i + 1].key == WireMembers(ms)[j].key;
    }
  }

  lemma {:induction false} WiredKeysAreUnique(ms: seq<Member>)
    requires UniqueKeys(ms)
    ensures UniqueKeys(WireMembers(ms))
  {
    if ms != [] {
      WiredKeysAreUnique(ms[1..]);
      var w := WireMembers(ms[1..]);
      forall j | 0 <= j < |w| ensures w[j].key != ms[0].key {
        WiredKeysAreOld(ms[1..], j);
        var i :| 0 <= i < |ms[1..]| && ms[1..][i].key == w[j].key;
        assert ms[i + 1].key == w[j].key;
      }
    }
  }

  lemma {:induction false} WireMembersAreValid(ms: seq<Member>)
    requires forall m | m in ms :: Valid(m.val)
    ensures forall m | m in WireMembers(ms) :: Valid(m.val)
    decreases ms, 0
  {
    if ms != [] {
      assert ms[0] in ms && forall m | m in ms[1..] :: m in ms;
      WireMembersAreValid(ms[1..]);
      WireIsValid(ms[0].val);
    }
  }
}
