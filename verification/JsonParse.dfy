/** A reader for the compact text JSON.stringify prints, and the proof that it undoes the printer. */
module JsonParse {
  import opened CodeUnits
  import opened Json

  datatype Parsed<+T> = Fail | Done(value: T, rest: Text)

  /** `rest` is what follows `prefix` in `t`, if `t` starts with it. */
  function Expect(t: Text, prefix: Text, v: Json): (r: Parsed<Json>)
    requires prefix != []
    ensures r.Done? ==> |r.rest| < |t|
  {
    if |prefix| <= |t| && t[..|prefix|] == prefix then Done(v, t[|prefix|..]) else Fail
  }

  function HexValue(u: Unit): (r: Parsed<int>)
    ensures r.Done? ==> 0 <= r.value < 16
  {
    if 0x30 <= u <= 0x39 then Done(u - 0x30, [])
    else if 0x41 <= u <= 0x46 then Done(u - 0x37, [])
    else if 0x61 <= u <= 0x66 then Done(u - 0x57, [])
    else Fail
  }

  function SimpleEscape(u: Unit): Parsed<Unit> {
    if u == QUOTE || u == BACKSLASH || u == 0x2F then Done(u, [])
    else if u == 0x62 then Done(BACKSPACE, [])
    else if u == 0x66 then Done(FORM_FEED, [])
    else if u == 0x6E then Done(LF, [])
    else if u == 0x72 then Done(CR, [])
    else if u == 0x74 then Done(TAB, [])
    else Fail
  }

  function HexUnit(t: Text): (r: Parsed<int>)
    requires |t| == 4
    ensures r.Done? ==> 0 <= r.value < 0x10000
  {
    var a, b, c, d := HexValue(t[0]), HexValue(t[1]), HexValue(t[2]), HexValue(t[3]);
    if a.Done? && b.Done? && c.Done? && d.Done? then
      Done(a.value * 4096 + b.value * 256 + c.value * 16 + d.value, [])
    else Fail
  }

  /** One unit of a string body, escaped or raw; the closing quote and control characters are refused. */
  function ParseUnit(t: Text): (r: Parsed<Unit>)
    ensures r.Done? ==> |r.rest| < |t|
  {
    if t == [] || t[0] == QUOTE || t[0] < 0x20 then Fail
    else if t[0] != BACKSLASH then Done(t[0], t[1..])
    else if |t| < 2 then Fail
    else if t[1] == 0x75 then
      if |t| < 6 then Fail
      else
        var h := HexUnit(t[2..6]);
        if h.Done? then Done(h.value, t[6..]) else Fail
    else
      var e := SimpleEscape(t[1]);
      if e.Done? then Done(e.value, t[2..]) else Fail
  }

  /** The text after an opening quote. */
  function ParseString(t: Text): (r: Parsed<Text>)
    ensures r.Done? ==> |r.rest| < |t|
  {
    if t != [] && t[0] == QUOTE then Done([], t[1..])
    else
      var u := ParseUnit(t);
      if u.Fail? then Fail
      else
        var s := ParseString(u.rest);
        if s.Fail? then Fail else Done([u.value] + s.value, s.rest)
  }

  /** The longest run of number characters. */
  function NumSpan(t: Text): (n: nat)
    ensures n <= |t|
    ensures forall i :: 0 <= i < n ==> IsNumUnit(t[i])
    ensures n < |t| ==> !IsNumUnit(t[n])
  {
    if t != [] && IsNumUnit(t[0]) then 1 + NumSpan(t[1..]) else 0
  }

  function ParseValue(t: Text): (r: Parsed<Json>)
    ensures r.Done? ==> |r.rest| < |t|
    decreases |t|, 0
  {
    if t == [] then Fail
    else if t[0] == 0x6E then Expect(t, NULL_TEXT, Null)
    else if t[0] == 0x74 then Expect(t, TRUE_TEXT, Bool(true))
    else if t[0] == 0x66 then Expect(t, FALSE_TEXT, Bool(false))
    else if t[0] == QUOTE then
      var s := ParseString(t[1..]);
      if s.Fail? then Fail else Done(Str(s.value), s.rest)
    else if t[0] == OPEN_BRACKET then
      var es := ParseElems(t[1..], true);
      if es.Fail? then Fail else Done(Arr(es.value), es.rest)
    else if t[0] == OPEN_BRACE then
      var ms := ParseMembers(t[1..], true);
      if ms.Fail? then Fail else Done(Obj(ms.value), ms.rest)
    else if IsDigit(t[0]) || t[0] == 0x2D then
      Done(Num(t[..NumSpan(t)]), t[NumSpan(t)..])
    else Fail
  }

  function ParseElems(t: Text, first: bool): (r: Parsed<seq<Json>>)
    ensures r.Done? ==> |r.rest| < |t|
    decreases |t|, 1
  {
    if t == [] then Fail
    else if t[0] == CLOSE_BRACKET then Done([], t[1..])
    else if !first && t[0] != COMMA then Fail
    else
      var e := ParseValue(if first then t else t[1..]);
      if e.Fail? then Fail
      else
        var es := ParseElems(e.rest, false);
        if es.Fail? then Fail else Done([e.value] + es.value, es.rest)
  }

  function ParseMembers(t: Text, first: bool): (r: Parsed<seq<Member>>)
    ensures r.Done? ==> |r.rest| < |t|
    decreases |t|, 1
  {
    if t == [] then Fail
    else if t[0] == CLOSE_BRACE then Done([], t[1..])
    else if !first && t[0] != COMMA then Fail
    else
      var body := if first then t else t[1..];
      if body == [] || body[0] != QUOTE then Fail
      else
        var k := ParseString(body[1..]);
        if k.Fail? || k.rest == [] || k.rest[0] != COLON then Fail
        else
          var v := ParseValue(k.rest[1..]);
          if v.Fail? then Fail
          else
            var ms := ParseMembers(v.rest, false);
            if ms.Fail? then Fail else Done([Member(k.value, v.value)] + ms.value, ms.rest)
  }

  /** JSON.parse: the whole text must be one value. */
  function Parse(t: Text): Parsed<Json> {
    var r := ParseValue(t);
    if r.Done? && r.rest == [] then r else Fail
  }

  // ---- Strings ----

  lemma HexDigitRoundTrip(n: int)
    requires 0 <= n < 16
    ensures HexValue(HexDigit(n)) == Done(n, [])
  {
  }

  lemma HexUnitRoundTrip(u: Unit)
    ensures HexUnit(HexEscape(u)[2..6]) == Done(u, [])
  {
    var a := u / 16;
    var b := a / 16;
    var c := b / 16;
    HexDigitRoundTrip(c);
    HexDigitRoundTrip(b % 16);
    HexDigitRoundTrip(a % 16);
    HexDigitRoundTrip(u % 16);
    assert HexEscape(u)[2..6] == [HexDigit(c), HexDigit(b % 16), HexDigit(a % 16), HexDigit(u % 16)];
    assert c * 4096 + b % 16 * 256 + a % 16 * 16 + u % 16 == u;
  }

  lemma HexRoundTrip(u: Unit, r: Text)
    ensures ParseUnit(HexEscape(u) + r) == Done(u, r)
  {
    var t := HexEscape(u) + r;
    HexUnitRoundTrip(u);
    assert t[2..6] == HexEscape(u)[2..6];
    assert t[6..] == r;
  }

  lemma UnitRoundTrip(u: Unit, r: Text)
    ensures ParseUnit(EscapeUnit(u) + r) == Done(u, r)
    ensures EscapeUnit(u)[0] != QUOTE
  {
    var t := EscapeUnit(u) + r;
    if EscapeUnit(u) == HexEscape(u) {
      HexRoundTrip(u, r);
    } else if |EscapeUnit(u)| == 2 {
      assert t[2..] == r;
    } else {
      assert t[1..] == r;
    }
  }

  lemma Regroup(x: Text, y: Text, z: Text, r: Text)
    ensures x + y + z + r == x + (y + z + r)
  {
  }

  lemma RegroupPair(a: Unit, b: Unit, y: Text, z: Text, r: Text)
    ensures [a, b] + y + z + r == [a] + ([b] + (y + z + r))
  {
  }

  lemma ParseStringStep(t: Text, u: Unit, t': Text, s: Text, r: Text)
    requires t != [] && t[0] != QUOTE
    requires ParseUnit(t) == Done(u, t') && ParseString(t') == Done(s, r)
    ensures ParseString(t) == Done([u] + s, r)
  {
  }

  lemma RawUnit(u: Unit, t: Text)
    requires u != QUOTE && u != BACKSLASH && u >= 0x20
    ensures ParseUnit([u] + t) == Done(u, t)
  {
    assert ([u] + t)[1..] == t;
  }

  lemma {:induction false} StringRoundTrip(s: Text, r: Text)
    ensures ParseString(Escape(s) + [QUOTE] + r) == Done(s, r)
  {
    if s == [] {
      assert Escape(s) + [QUOTE] + r == [QUOTE] + r;
      assert ([QUOTE] + r)[1..] == r;
    } else if StartsWithPair(s) {
      var t2 := Escape(s[2..]) + [QUOTE] + r;
      StringRoundTrip(s[2..], r);
      RawUnit(s[1], t2);
      ParseStringStep([s[1]] + t2, s[1], t2, s[2..], r);
      RawUnit(s[0], [s[1]] + t2);
      ParseStringStep([s[0]] + ([s[1]] + t2), s[0], [s[1]] + t2, [s[1]] + s[2..], r);
      RegroupPair(s[0], s[1], Escape(s[2..]), [QUOTE], r);
      assert s == [s[0]] + ([s[1]] + s[2..]);
    } else {
      var t1 := Escape(s[1..]) + [QUOTE] + r;
      StringRoundTrip(s[1..], r);
      UnitRoundTrip(s[0], t1);
      ParseStringStep(EscapeUnit(s[0]) + t1, s[0], t1, s[1..], r);
      Regroup(EscapeUnit(s[0]), Escape(s[1..]), [QUOTE], r);
      assert s == [s[0]] + s[1..];
    }
  }

  lemma QuotedRoundTrip(s: Text, r: Text)
    ensures (Quoted(s) + r)[0] == QUOTE
    ensures ParseString((Quoted(s) + r)[1..]) == Done(s, r)
  {
    hide ParseString;
    hide Escape;
    StringRoundTrip(s, r);
    assert (Quoted(s) + r)[1..] == Escape(s) + [QUOTE] + r;
  }

  // ---- Values ----

  /** `r` cannot extend a number printed before it. */
  predicate Delimited(r: Text) {
    r == [] || !IsNumUnit(r[0])
  }

  lemma {:induction false} NumSpanExact(lit: Text, r: Text)
    requires forall i :: 0 <= i < |lit| ==> IsNumUnit(lit[i])
    requires Delimited(r)
    ensures NumSpan(lit + r) == |lit|
  {
    if lit == [] {
      assert lit + r == r;
    } else {
      assert (lit + r)[1..] == lit[1..] + r;
      NumSpanExact(lit[1..], r);
    }
  }

  lemma ExpectExact(prefix: Text, r: Text, v: Json)
    requires prefix != []
    ensures Expect(prefix + r, prefix, v) == Done(v, r)
  {
    assert (prefix + r)[..|prefix|] == prefix;
    assert (prefix + r)[|prefix|..] == r;
  }

  /** What a value's text can start with. */
  lemma ValueHead(v: Json)
    requires Valid(v) && !v.Undefined?
    ensures Stringify(v) != []
    ensures Stringify(v)[0] != CLOSE_BRACKET && Stringify(v)[0] != COMMA
    ensures Stringify(v)[0] > SPACE && Stringify(v)[0] < 0x7F
  {
  }

  lemma ElemsTailDelimited(es: seq<Json>, r: Text)
    ensures Delimited(StringifyElems(es, false) + [CLOSE_BRACKET] + r)
  {
  }

  lemma {:induction false} MembersTailDelimited(ms: seq<Member>, r: Text)
    ensures Delimited(StringifyMembers(ms, false) + [CLOSE_BRACE] + r)
  {
    if ms != [] && ms[0].val.Undefined? {
      MembersTailDelimited(ms[1..], r);
    }
  }

  lemma ParseNumber(lit: Text, r: Text)
    requires IsNumLit(lit) && Delimited(r)
    ensures ParseValue(lit + r) == Done(Num(lit), r)
  {
    NumSpanExact(lit, r);
    assert (lit + r)[..|lit|] == lit && (lit + r)[|lit|..] == r;
    assert (lit + r)[0] == lit[0];
  }

  lemma ParseQuoted(s: Text, r: Text)
    ensures ParseValue(Quoted(s) + r) == Done(Str(s), r)
  {
    QuotedRoundTrip(s, r);
  }

  lemma ParseWord(v: Json, r: Text)
    requires v.Null? || v.NonFinite? || v.Bool?
    ensures ParseValue(Stringify(v) + r) == Done(Wire(v), r)
  {
    match v
    case Bool(b) => ExpectExact(if b then TRUE_TEXT else FALSE_TEXT, r, Bool(b));
    case _ => ExpectExact(NULL_TEXT, r, Null);
  }

  lemma ParseArr(t: Text, es: seq<Json>, r: Text)
    requires ParseElems(t, true) == Done(es, r)
    ensures ParseValue([OPEN_BRACKET] + t) == Done(Arr(es), r)
  {
    assert ([OPEN_BRACKET] + t)[1..] == t;
  }

  lemma ParseObj(t: Text, ms: seq<Member>, r: Text)
    requires ParseMembers(t, true) == Done(ms, r)
    ensures ParseValue([OPEN_BRACE] + t) == Done(Obj(ms), r)
  {
    assert ([OPEN_BRACE] + t)[1..] == t;
  }

  lemma ParseElemsStep(first: bool, body: Text, e: Json, after: Text, es: seq<Json>, r: Text)
    requires body != [] && body[0] != CLOSE_BRACKET
    requires ParseValue(body) == Done(e, after)
    requires ParseElems(after, false) == Done(es, r)
    ensures ParseElems(Separator(first) + body, first) == Done([e] + es, r)
  {
    assert ([COMMA] + body)[1..] == body && [] + body == body;
  }

  lemma ParseMembersStep(first: bool, k: Text, valued: Text, v: Json, after: Text, ms: seq<Member>, r: Text)
    requires ParseValue(valued) == Done(v, after)
    requires ParseMembers(after, false) == Done(ms, r)
    ensures ParseMembers(Separator(first) + (Quoted(k) + ([COLON] + valued)), first) == Done([Member(k, v)] + ms, r)
  {
    var rest := [COLON] + valued;
    var body := Quoted(k) + rest;
    QuotedRoundTrip(k, rest);
    assert rest[1..] == valued;
    assert ([COMMA] + body)[1..] == body && [] + body == body;
  }

  lemma RegroupElem(sep: Text, x: Text, tail: Text, close: Text, r: Text)
    ensures sep + x + tail + close + r == sep + (x + (tail + close + r))
  {
  }

  lemma RegroupMember(sep: Text, k: Text, x: Text, tail: Text, close: Text, r: Text)
    ensures sep + k + [COLON] + x + tail + close + r == sep + (k + ([COLON] + (x + (tail + close + r))))
  {
  }

  lemma ParseStringifyArr(es: seq<Json>, r: Text)
    requires ParseElems(StringifyElems(es, true) + [CLOSE_BRACKET] + r, true) == Done(WireElems(es), r)
    ensures ParseValue(Stringify(Arr(es)) + r) == Done(Wire(Arr(es)), r)
  {
    ParseArr(StringifyElems(es, true) + [CLOSE_BRACKET] + r, WireElems(es), r);
    Regroup([OPEN_BRACKET], StringifyElems(es, true), [CLOSE_BRACKET], r);
  }

  lemma ParseStringifyObj(ms: seq<Member>, r: Text)
    requires ParseMembers(StringifyMembers(ms, true) + [CLOSE_BRACE] + r, true) == Done(WireMembers(ms), r)
    ensures ParseValue(Stringify(Obj(ms)) + r) == Done(Wire(Obj(ms)), r)
  {
    ParseObj(StringifyMembers(ms, true) + [CLOSE_BRACE] + r, WireMembers(ms), r);
    Regroup([OPEN_BRACE], StringifyMembers(ms, true), [CLOSE_BRACE], r);
  }

  lemma {:induction false} ParseStringify(v: Json, r: Text)
    requires Valid(v) && !v.Undefined? && Delimited(r)
    ensures ParseValue(Stringify(v) + r) == Done(Wire(v), r)
    decreases v, 1
  {
    match v
    case Num(lit) => ParseNumber(lit, r);
    case Str(s) => ParseQuoted(s, r);
    case Arr(es) =>
      ParseStringifyElems(es, true, r);
      ParseStringifyArr(es, r);
    case Obj(ms) =>
      ParseStringifyMembers(ms, true, r);
      ParseStringifyObj(ms, r);
    case _ => ParseWord(v, r);
  }

  lemma {:induction false} ParseStringifyElems(es: seq<Json>, first: bool, r: Text)
    requires forall e | e in es :: Valid(e)
    ensures ParseElems(StringifyElems(es, first) + [CLOSE_BRACKET] + r, first) == Done(WireElems(es), r)
    decreases es, 0
  {
    var t := StringifyElems(es, first) + [CLOSE_BRACKET] + r;
    if es == [] {
      assert t == [CLOSE_BRACKET] + r;
    } else {
      var e := if es[0].Undefined? then Null else es[0];
      var after := StringifyElems(es[1..], false) + [CLOSE_BRACKET] + r;
      assert e == Null || e in es;
      ValueHead(e);
      ElemsTailDelimited(es[1..], r);
      if es[0].Undefined? {
        ParseWord(Null, after);
      } else {
        ParseStringify(es[0], after);
      }
      ParseStringifyElems(es[1..], false, r);
      ParseElemsStep(first, Stringify(e) + after, Wire(es[0]), after, WireElems(es[1..]), r);
      RegroupElem(Separator(first), Stringify(e), StringifyElems(es[1..], false), [CLOSE_BRACKET], r);
    }
  }

  lemma {:induction false} ParseStringifyMembers(ms: seq<Member>, first: bool, r: Text)
    requires forall m | m in ms :: Valid(m.val)
    ensures ParseMembers(StringifyMembers(ms, first) + [CLOSE_BRACE] + r, first) == Done(WireMembers(ms), r)
    decreases ms, 0
  {
    var t := StringifyMembers(ms, first) + [CLOSE_BRACE] + r;
    if ms == [] {
      assert t == [CLOSE_BRACE] + r;
    } else if ms[0].val.Undefined? {
      ParseStringifyMembers(ms[1..], first, r);
    } else {
      var after := StringifyMembers(ms[1..], false) + [CLOSE_BRACE] + r;
      var valued := Stringify(ms[0].val) + after;
      MembersTailDelimited(ms[1..], r);
      assert ms[0] in ms;
      ParseStringify(ms[0].val, after);
      ParseStringifyMembers(ms[1..], false, r);
      ParseMembersStep(first, ms[0].key, valued, Wire(ms[0].val), after, WireMembers(ms[1..]), r);
      RegroupMember(Separator(first), Quoted(ms[0].key), Stringify(ms[0].val), StringifyMembers(ms[1..], false),
        [CLOSE_BRACE], r);
    }
  }

  /** Reading back what JSON.stringify printed gives a value with the same meaning. */
  lemma ParseUndoesStringify(v: Json)
    requires Valid(v) && !v.Undefined?
    ensures Parse(Stringify(v)) == Done(Wire(v), [])
    ensures Valid(Wire(v)) && Meaning(Wire(v)) == Meaning(v)
  {
    ParseStringify(v, []);
    assert Stringify(v) + [] == Stringify(v);
    WireIsValid(v);
    WireKeepsMeaning(v);
  }

  // ---- What the text is made of ----

  /** No line breaks or other control characters. */
  predicate Printable(t: Text) {
    forall i :: 0 <= i < |t| ==> t[i] >= 0x20
  }

  lemma {:induction false} EscapeIsPrintable(s: Text)
    ensures Printable(Escape(s))
  {
    if s == [] {
    } else if StartsWithPair(s) {
      EscapeIsPrintable(s[2..]);
    } else {
      EscapeIsPrintable(s[1..]);
    }
  }

  lemma {:induction false} StringifyIsPrintable(v: Json)
    requires Valid(v) && !v.Undefined?
    ensures Printable(Stringify(v))
    decreases v, 1
  {
    match v
    case Str(s) => EscapeIsPrintable(s);
    case Arr(es) => ElemsArePrintable(es, true);
    case Obj(ms) => MembersArePrintable(ms, true);
    case _ =>
  }

  lemma {:induction false} ElemsArePrintable(es: seq<Json>, first: bool)
    requires forall e | e in es :: Valid(e)
    ensures Printable(StringifyElems(es, first))
    decreases es, 0
  {
    if es != [] {
      if !es[0].Undefined? { StringifyIsPrintable(es[0]); }
      ElemsArePrintable(es[1..], false);
    }
  }

  lemma {:induction false} MembersArePrintable(ms: seq<Member>, first: bool)
    requires forall m | m in ms :: Valid(m.val)
    ensures Printable(StringifyMembers(ms, first))
    decreases ms, 0
  {
    if ms != [] {
      assert ms[0] in ms;
      if !ms[0].val.Undefined? {
        EscapeIsPrintable(ms[0].key);
        StringifyIsPrintable(ms[0].val);
      }
      MembersArePrintable(ms[1..], if ms[0].val.Undefined? then first else false);
    }
  }

  /** No lone surrogate, so encoding the text as UTF-8 loses nothing. */
  predicate Utf8Safe(t: Text) {
    if t == [] then true
    else if StartsWithPair(t) then Utf8Safe(t[2..])
    else !IsHigh(t[0]) && !IsLow(t[0]) && Utf8Safe(t[1..])
  }

  lemma {:induction false} Utf8SafeConcat(a: Text, b: Text)
    requires Utf8Safe(a) && Utf8Safe(b)
    ensures Utf8Safe(a + b)
  {
    if a == [] {
      assert a + b == b;
    } else if StartsWithPair(a) {
      Utf8SafeConcat(a[2..], b);
      assert (a + b)[2..] == a[2..] + b;
    } else {
      Utf8SafeConcat(a[1..], b);
      assert (a + b)[1..] == a[1..] + b;
    }
  }

  lemma {:induction false} NoSurrogatesIsUtf8Safe(t: Text)
    requires forall i :: 0 <= i < |t| ==> t[i] < 0xD800
    ensures Utf8Safe(t)
  {
    if t != [] {
      NoSurrogatesIsUtf8Safe(t[1..]);
    }
  }

  /** Text without quotes, backslashes, control characters or lone surrogates is printed as it is. */
  lemma {:induction false} PlainTextIsItself(s: Text)
    requires Utf8Safe(s) && Printable(s) && QUOTE !in s && BACKSLASH !in s
    ensures Escape(s) == s && Quoted(s) == [QUOTE] + s + [QUOTE]
  {
    if s == [] {
    } else if StartsWithPair(s) {
      PlainTextIsItself(s[2..]);
      assert s == [s[0], s[1]] + s[2..];
    } else {
      PlainTextIsItself(s[1..]);
      SpelledAs(s[0]);
      assert s == [s[0]] + s[1..];
    }
  }

  lemma {:induction false} QuotedIsUtf8Safe(s: Text)
    ensures Utf8Safe(Escape(s)) && Utf8Safe(Quoted(s))
  {
    NoSurrogatesIsUtf8Safe([QUOTE]);
    if s == [] {
    } else if StartsWithPair(s) {
      QuotedIsUtf8Safe(s[2..]);
      assert Escape(s)[2..] == Escape(s[2..]);
    } else {
      QuotedIsUtf8Safe(s[1..]);
      if EscapeUnit(s[0]) != [s[0]] { NoSurrogatesIsUtf8Safe(EscapeUnit(s[0])); }
      Utf8SafeConcat(EscapeUnit(s[0]), Escape(s[1..]));
    }
    Utf8SafeConcat([QUOTE], Escape(s));
    Utf8SafeConcat([QUOTE] + Escape(s), [QUOTE]);
  }

  lemma {:induction false} StringifyIsUtf8Safe(v: Json)
    requires Valid(v) && !v.Undefined?
    ensures Utf8Safe(Stringify(v))
    decreases v, 1
  {
    match v
    case Str(s) => QuotedIsUtf8Safe(s);
    case Arr(es) =>
      ElemsAreUtf8Safe(es, true);
      Utf8SafeConcat([OPEN_BRACKET], StringifyElems(es, true));
      Utf8SafeConcat([OPEN_BRACKET] + StringifyElems(es, true), [CLOSE_BRACKET]);
    case Obj(ms) =>
      MembersAreUtf8Safe(ms, true);
      Utf8SafeConcat([OPEN_BRACE], StringifyMembers(ms, true));
      Utf8SafeConcat([OPEN_BRACE] + StringifyMembers(ms, true), [CLOSE_BRACE]);
    case Null => NoSurrogatesIsUtf8Safe(NULL_TEXT);
    case NonFinite => NoSurrogatesIsUtf8Safe(NULL_TEXT);
    case Bool(b) => NoSurrogatesIsUtf8Safe(if b then TRUE_TEXT else FALSE_TEXT);
    case Num(lit) => NoSurrogatesIsUtf8Safe(lit);
  }

  lemma {:induction false} ElemsAreUtf8Safe(es: seq<Json>, first: bool)
    requires forall e | e in es :: Valid(e)
    ensures Utf8Safe(StringifyElems(es, first))
    decreases es, 0
  {
    if es != [] {
      var e := if es[0].Undefined? then Null else es[0];
      if es[0].Undefined? { NoSurrogatesIsUtf8Safe(NULL_TEXT); } else { StringifyIsUtf8Safe(es[0]); }
      ElemsAreUtf8Safe(es[1..], false);
      NoSurrogatesIsUtf8Safe(Separator(first));
      Utf8SafeConcat(Separator(first), Stringify(e));
      Utf8SafeConcat(Separator(first) + Stringify(e), StringifyElems(es[1..], false));
    }
  }

  lemma {:induction false} MembersAreUtf8Safe(ms: seq<Member>, first: bool)
    requires forall m | m in ms :: Valid(m.val)
    ensures Utf8Safe(StringifyMembers(ms, first))
    decreases ms, 0
  {
    if ms != [] {
      assert ms[0] in ms;
      if ms[0].val.Undefined? {
        MembersAreUtf8Safe(ms[1..], first);
      } else {
        var k, x, tail := Quoted(ms[0].key), Stringify(ms[0].val), StringifyMembers(ms[1..], false);
        QuotedIsUtf8Safe(ms[0].key);
        StringifyIsUtf8Safe(ms[0].val);
        MembersAreUtf8Safe(ms[1..], false);
        NoSurrogatesIsUtf8Safe(Separator(first));
        NoSurrogatesIsUtf8Safe([COLON]);
        Utf8SafeConcat(Separator(first), k);
        Utf8SafeConcat(Separator(first) + k, [COLON]);
        Utf8SafeConcat(Separator(first) + k + [COLON], x);
        Utf8SafeConcat(Separator(first) + k + [COLON] + x, tail);
      }
    }
  }
}
