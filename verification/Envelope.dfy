/** The messages on the wire: how the agent lays one out as a JSON object, and how the caller reads it back. */
module Envelope {
  import opened Wrappers
  import opened CodeUnits
  import opened Json
  import opened JsonParse
  import opened Domains
  import opened Caller
  import opened Clock

  // The guards are included. A signature's hex text is idealised as a text that says its key and digest.

  const CHUNK_FIELDS: seq<string> :=
    ["v", "type", "id", "seq", "text", "ts", "responder", "caller", "skill", "sig", "signerPubkey"]
  const OK_FIELDS: seq<string> :=
    ["v", "type", "id", "ok", "output", "ts", "responder", "caller", "skill", "sig", "signerPubkey"]
  const ERR_FIELDS: seq<string> :=
    ["v", "type", "id", "ok", "error", "ts", "responder", "caller", "skill", "sig", "signerPubkey"]

  const REQ_TYPE: Text := Ascii("skill.req")
  const RES_TYPE: Text := Ascii("skill.res")
  const CHUNK_TYPE: Text := Ascii("skill.chunk")

  lemma ChunkFieldList()
    ensures KeyList(CHUNK_FIELDS)
  {
  }

  lemma OkFieldList()
    ensures KeyList(OK_FIELDS)
  {
  }

  lemma ErrFieldList()
    ensures KeyList(ERR_FIELDS)
  {
  }

  function SigText(s: Sig): Text {
    Stringify(Arr([Str(s.key), Str(s.digest)]))
  }

  /** A text that is no signature verifies under no key. */
  function ReadSig(t: Text): Sig {
    var p := Parse(t);
    if p.Done? && p.value.Arr? && |p.value.elems| == 2 && p.value.elems[0].Str? && p.value.elems[1].Str?
    then Sig(p.value.elems[0].s, p.value.elems[1].s)
    else Sig([], [])
  }

  lemma SigRoundTrip(s: Sig)
    ensures ReadSig(SigText(s)) == s
  {
    var v := Arr([Str(s.key), Str(s.digest)]);
    ParseUndoesStringify(v);
    assert WireElems(v.elems)[0] == Str(s.key) && WireElems(v.elems)[1] == Str(s.digest);
  }

  function Fields(m: Msg): (ks: seq<string>)
    requires m.ChunkMsg? || m.ResMsg?
    ensures KeyList(ks)
  {
    if m.ChunkMsg? then ChunkFieldList(); CHUNK_FIELDS
    else if m.body.OkBody? then OkFieldList(); OK_FIELDS
    else ErrFieldList(); ERR_FIELDS
  }

  function FieldValues(m: Msg): (vs: seq<Json>)
    requires m.ChunkMsg? || m.ResMsg?
    ensures |vs| == 11 == |Fields(m)|
  {
    match m
    case ChunkMsg(id, n, text, ts, responder, caller, skill, sig, signer) =>
      [Int(1), Str(CHUNK_TYPE), Str(id), Int(n), Str(text), Int(ts), Str(responder), Str(caller), Str(skill),
       Str(SigText(sig)), Str(signer)]
    case ResMsg(id, OkBody(output), ts, responder, caller, skill, sig, signer) =>
      [Int(1), Str(RES_TYPE), Str(id), Bool(true), output, Int(ts), Str(responder), Str(caller), Str(skill),
       Str(SigText(sig)), Str(signer)]
    case ResMsg(id, ErrBody(error), ts, responder, caller, skill, sig, signer) =>
      [Int(1), Str(RES_TYPE), Str(id), Bool(false), Str(error), Int(ts), Str(responder), Str(caller), Str(skill),
       Str(SigText(sig)), Str(signer)]
  }

  /** The object `sendJson` is given. */
  function Layout(m: Msg): Json
    requires m.ChunkMsg? || m.ResMsg?
  {
    Obj(Zip(Fields(m), FieldValues(m)))
  }

  // ---- Reading ----

  /** Every name asked for below is ASCII. */
  function Field(v: Json, name: string): Json {
    if IsAscii(name) then Get(v, Ascii(name)) else Undefined
  }

  function TextOf(v: Json): Text {
    if v.Str? then v.s else []
  }

  /** The integer a number is, if it is one. */
  function IntOf(v: Json): Option<int> {
    if !v.Num? || v.lit == [] then None
    else
      var n := if v.lit[0] == 0x2D then -NatValue(v.lit[1..]) else NatValue(v.lit);
      if Dec(n) == v.lit then Some(n) else None
  }

  lemma IntOfInt(n: int)
    ensures IntOf(Int(n)) == Some(n)
  {
    DecNatValue(if n < 0 then -n else n);
    assert n < 0 ==> Dec(n)[1..] == DecNat(-n);
  }

  predicate IsTyped(v: Json, kind: Text) {
    Truthy(v) && Field(v, "v") == Int(1) && Field(v, "type") == Str(kind) && Field(v, "id").Str?
  }

  predicate IsSkillRequest(v: Json) {
    && IsTyped(v, REQ_TYPE)
    && Field(v, "nonce").Str? && Field(v, "ts").Num? && Field(v, "skill").Str? && Field(v, "callerPubkey").Str?
  }

  predicate IsSkillResponse(v: Json) {
    IsTyped(v, RES_TYPE)
  }

  predicate IsSkillChunk(v: Json) {
    IsTyped(v, CHUNK_TYPE) && Field(v, "seq").Num? && Field(v, "text").Str? && Field(v, "sig").Str?
  }

  /** The fields compared as text are text. */
  predicate IsAddressed(v: Json) {
    && Field(v, "responder").Str? && Field(v, "caller").Str? && Field(v, "skill").Str?
    && Field(v, "signerPubkey").Str?
  }

  /** A chunk whose other fields no signed record can have makes the call fail, one way or another. */
  function ReadChunk(v: Json): Msg {
    var n, ts := IntOf(Field(v, "seq")), IntOf(Field(v, "ts"));
    if n.None? || ts.None? || !IsAddressed(v) then Malformed(TextOf(Field(v, "id")), true)
    else
      ChunkMsg(TextOf(Field(v, "id")), n.value, TextOf(Field(v, "text")), ts.value, TextOf(Field(v, "responder")),
               TextOf(Field(v, "caller")), TextOf(Field(v, "skill")), ReadSig(TextOf(Field(v, "sig"))),
               TextOf(Field(v, "signerPubkey")))
  }

  function ReadBody(v: Json): Body {
    if Truthy(Field(v, "ok")) then OkBody(Field(v, "output")) else ErrBody(TextOf(Field(v, "error")))
  }

  function ReadResponse(v: Json): Msg {
    var ts := IntOf(Field(v, "ts"));
    if ts.None? || !IsAddressed(v) || !Field(v, "sig").Str? || (!Truthy(Field(v, "ok")) && !Field(v, "error").Str?)
    then Malformed(TextOf(Field(v, "id")), false)
    else
      ResMsg(TextOf(Field(v, "id")), ReadBody(v), ts.value, TextOf(Field(v, "responder")), TextOf(Field(v, "caller")),
             TextOf(Field(v, "skill")), ReadSig(TextOf(Field(v, "sig"))), TextOf(Field(v, "signerPubkey")))
  }

  /** A parsed value as the caller's loop classifies it, chunks first. */
  function Classify(v: Json): Msg {
    if IsSkillChunk(v) then ReadChunk(v)
    else if IsSkillRequest(v) then Request
    else if IsSkillResponse(v) then ReadResponse(v)
    else Unrelated
  }

  function ReadMessage(body: Text): Msg {
    var p := Parse(body);
    if p.Fail? then NotJson else Classify(p.value)
  }

  /** A member's value after the wire: an undefined member is not there, which reads as undefined again. */
  function Carried(v: Json): Json {
    if v.Undefined? then Undefined else Wire(v)
  }

  function Seen(m: Msg): Msg {
    if m.ResMsg? && m.body.OkBody? then m.(body := OkBody(Carried(m.body.output))) else m
  }

  // ---- Round trip ----

  lemma {:induction false} LookupAbsent(ms: seq<Member>, k: Text)
    requires forall i :: 0 <= i < |ms| ==> ms[i].key != k
    ensures Lookup(WireMembers(ms), k).Undefined?
  {
    if ms != [] {
      LookupAbsent(ms[1..], k);
    }
  }

  /** A property read commutes with the wire. */
  lemma {:induction false} LookupWired(ms: seq<Member>, k: Text)
    requires UniqueKeys(ms)
    ensures Lookup(WireMembers(ms), k) == Carried(Lookup(ms, k))
  {
    if ms != [] {
      if ms[0].key == k {
        LookupAbsent(ms[1..], k);
      } else {
        LookupWired(ms[1..], k);
      }
    }
  }

  lemma {:induction false} LookupAt(ms: seq<Member>, i: nat)
    requires i < |ms| && UniqueKeys(ms)
    ensures Lookup(ms, ms[i].key) == ms[i].val
  {
    if i > 0 {
      LookupAt(ms[1..], i - 1);
    }
  }

  /** Every field of an object laid out with distinct keys is found again on the other side. */
  lemma FieldsCarried(ks: seq<string>, vs: seq<Json>)
    requires |ks| == |vs| && KeyList(ks)
    ensures forall i :: 0 <= i < |ks| ==> Field(Wire(Obj(Zip(ks, vs))), ks[i]) == Carried(vs[i])
  {
    ZipUnique(ks, vs);
    forall i | 0 <= i < |ks| ensures Field(Wire(Obj(Zip(ks, vs))), ks[i]) == Carried(vs[i]) {
      LookupWired(Zip(ks, vs), Ascii(ks[i]));
      LookupAt(Zip(ks, vs), i);
    }
  }

  lemma ChunkValues(m: Msg)
    requires m.ChunkMsg?
    ensures var vs := FieldValues(m);
      && vs[0] == Int(1) && vs[1] == Str(CHUNK_TYPE) && vs[2] == Str(m.id) && vs[3] == Int(m.seqNo)
      && vs[4] == Str(m.text) && vs[5] == Int(m.ts) && vs[6] == Str(m.responder) && vs[7] == Str(m.caller)
      && vs[8] == Str(m.skill) && vs[9] == Str(SigText(m.sig)) && vs[10] == Str(m.signer)
  {
  }

  lemma ResponseValues(m: Msg)
    requires m.ResMsg?
    ensures var vs := FieldValues(m);
      && vs[0] == Int(1) && vs[1] == Str(RES_TYPE) && vs[2] == Str(m.id) && vs[5] == Int(m.ts)
      && vs[6] == Str(m.responder) && vs[7] == Str(m.caller) && vs[8] == Str(m.skill)
      && vs[9] == Str(SigText(m.sig)) && vs[10] == Str(m.signer)
  {
    hide SigText;
    hide Dec;
  }

  lemma BodyValues(m: Msg)
    requires m.ResMsg?
    ensures FieldValues(m)[3] == Bool(m.body.OkBody?)
    ensures FieldValues(m)[4] == if m.body.OkBody? then m.body.output else Str(m.body.error)
  {
  }

  lemma FieldValuesAreValid(m: Msg, i: nat)
    requires m.ChunkMsg? || m.ResMsg?
    requires m.ResMsg? && m.body.OkBody? ==> Valid(m.body.output)
    requires i < |FieldValues(m)|
    ensures Valid(FieldValues(m)[i])
  {
    hide FieldValues;
    if m.ChunkMsg? {
      ChunkValues(m);
    } else {
      ResponseValues(m);
      BodyValues(m);
    }
  }

  lemma LayoutParses(m: Msg)
    requires m.ChunkMsg? || m.ResMsg?
    requires m.ResMsg? && m.body.OkBody? ==> Valid(m.body.output)
    ensures Parse(Stringify(Layout(m))) == Done(Wire(Layout(m)), [])
  {
    var ks, vs := Fields(m), FieldValues(m);
    ZipUnique(ks, vs);
    forall x | x in Zip(ks, vs) ensures Valid(x.val) {
      var i :| 0 <= i < |ks| && Zip(ks, vs)[i] == x;
      FieldValuesAreValid(m, i);
    }
    ParseUndoesStringify(Layout(m));
  }

  lemma TypesDiffer()
    ensures CHUNK_TYPE != RES_TYPE && REQ_TYPE != RES_TYPE && CHUNK_TYPE != REQ_TYPE
  {
    assert |CHUNK_TYPE| == 11 && |RES_TYPE| == 9 && |REQ_TYPE| == 9;
    assert RES_TYPE[8] == 0x73 && REQ_TYPE[8] == 0x71;
  }

  lemma FieldNames(m: Msg)
    requires m.ChunkMsg? || m.ResMsg?
    ensures var ks := Fields(m);
      && ks[0] == "v" && ks[1] == "type" && ks[2] == "id" && ks[5] == "ts" && ks[6] == "responder"
      && ks[7] == "caller" && ks[8] == "skill" && ks[9] == "sig" && ks[10] == "signerPubkey"
  {
  }

  lemma FieldAt(m: Msg, i: nat)
    requires (m.ChunkMsg? || m.ResMsg?) && i < |Fields(m)|
    ensures Field(Wire(Layout(m)), Fields(m)[i]) == Carried(FieldValues(m)[i])
  {
    FieldsCarried(Fields(m), FieldValues(m));
  }

  /** The fields a chunk and both kinds of response have at the same place. */
  lemma SharedFields(m: Msg)
    requires m.ChunkMsg? || m.ResMsg?
    ensures var v, vs := Wire(Layout(m)), FieldValues(m);
      && Field(v, "v") == Carried(vs[0]) && Field(v, "type") == Carried(vs[1]) && Field(v, "id") == Carried(vs[2])
      && Field(v, "ts") == Carried(vs[5]) && Field(v, "responder") == Carried(vs[6])
      && Field(v, "caller") == Carried(vs[7])
      && Field(v, "skill") == Carried(vs[8]) && Field(v, "sig") == Carried(vs[9])
      && Field(v, "signerPubkey") == Carried(vs[10])
  {
    FieldNames(m);
    FieldAt(m, 0);
    FieldAt(m, 1);
    FieldAt(m, 2);
    FieldAt(m, 5);
    FieldAt(m, 6);
    FieldAt(m, 7);
    FieldAt(m, 8);
    FieldAt(m, 9);
    FieldAt(m, 10);
  }

  lemma OwnFields(m: Msg)
    requires m.ChunkMsg? || m.ResMsg?
    ensures var v, vs := Wire(Layout(m)), FieldValues(m);
      if m.ChunkMsg? then Field(v, "seq") == Carried(vs[3]) && Field(v, "text") == Carried(vs[4])
      else
        Field(v, "ok") == Carried(vs[3]) && Field(v, if m.body.OkBody? then "output" else "error") == Carried(vs[4])
  {
    var ks := Fields(m);
    FieldsCarried(ks, FieldValues(m));
    assert ks[3] == if m.ChunkMsg? then "seq" else "ok";
    assert ks[4] == if m.ChunkMsg? then "text" else if m.body.OkBody? then "output" else "error";
  }

  lemma ChunkFields(m: Msg)
    requires m.ChunkMsg?
    ensures var v := Wire(Layout(m));
      && v.Obj? && Field(v, "v") == Int(1) && Field(v, "type") == Str(CHUNK_TYPE) && Field(v, "id") == Str(m.id)
      && Field(v, "seq") == Int(m.seqNo) && Field(v, "text") == Str(m.text) && Field(v, "ts") == Int(m.ts)
      && Field(v, "responder") == Str(m.responder) && Field(v, "caller") == Str(m.caller)
      && Field(v, "skill") == Str(m.skill) && Field(v, "sig") == Str(SigText(m.sig))
      && Field(v, "signerPubkey") == Str(m.signer)
  {
    SharedFields(m);
    OwnFields(m);
    ChunkValues(m);
  }

  lemma ChunkRoundTrip(m: Msg)
    requires m.ChunkMsg?
    ensures Classify(Wire(Layout(m))) == m
  {
    ChunkFields(m);
    SigRoundTrip(m.sig);
    IntOfInt(m.seqNo);
    IntOfInt(m.ts);
  }

  lemma ResponseIsClassified(v: Json, id: Text)
    requires v.Obj? && Field(v, "v") == Int(1) && Field(v, "type") == Str(RES_TYPE) && Field(v, "id") == Str(id)
    ensures Classify(v) == ReadResponse(v)
  {
    TypesDiffer();
  }

  lemma ResponseFields(m: Msg)
    requires m.ResMsg?
    ensures var v := Wire(Layout(m));
      && v.Obj? && Field(v, "v") == Int(1) && Field(v, "type") == Str(RES_TYPE) && Field(v, "id") == Str(m.id)
      && Field(v, "ts") == Int(m.ts) && Field(v, "responder") == Str(m.responder) && Field(v, "caller") == Str(m.caller)
      && Field(v, "skill") == Str(m.skill) && Field(v, "sig") == Str(SigText(m.sig))
      && Field(v, "signerPubkey") == Str(m.signer)
  {
    SharedFields(m);
    ResponseValues(m);
  }

  lemma BodyRoundTrip(m: Msg)
    requires m.ResMsg?
    ensures ReadBody(Wire(Layout(m))) == Seen(m).body
    ensures Truthy(Field(Wire(Layout(m)), "ok")) || Field(Wire(Layout(m)), "error").Str?
  {
    OwnFields(m);
  }

  lemma ResponseRoundTrip(m: Msg)
    requires m.ResMsg?
    ensures Classify(Wire(Layout(m))) == Seen(m)
  {
    ResponseFields(m);
    ResponseIsClassified(Wire(Layout(m)), m.id);
    BodyRoundTrip(m);
    SigRoundTrip(m.sig);
    IntOfInt(m.ts);
  }

  /**
   * Printing a message, parsing it and classifying it gives the message back: every field as sent, and a handler's
   * output up to what JSON cannot say.
   */
  lemma MessageRoundTrip(m: Msg)
    requires m.ChunkMsg? || m.ResMsg?
    requires m.ResMsg? && m.body.OkBody? ==> Valid(m.body.output)
    ensures ReadMessage(Stringify(Layout(m))) == Seen(m)
  {
    LayoutParses(m);
    if m.ChunkMsg? {
      ChunkRoundTrip(m);
    } else {
      ResponseRoundTrip(m);
    }
  }

  /** What the caller sees of an output differs from it in nothing a digest can tell. */
  lemma CarriedIsSame(output: Json)
    requires Valid(output)
    ensures SameOnTheWire(output, Carried(output))
  {
    WireKeepsMeaning(output);
    WireIsValid(output);
  }

  /**
   * Whatever a handler returns, its response verifies at the caller: signed over the value, printed, parsed, and
   * checked over what was read.
   */
  lemma ResponseVerifies(a: Args, output: Json, ts: int, now: int)
    requires Valid(output) && Distance(now, ts) <= a.maxAge
    ensures var m := ReadMessage(Stringify(Layout(SentResponse(a, output, output, ts))));
      m.ResMsg? && ResponseOutcome(a, m, now) == Returned(Carried(output))
  {
    MessageRoundTrip(SentResponse(a, output, output, ts));
    CarriedIsSame(output);
    SentResponseAccepted(a, output, Carried(output), ts, now);
  }

  /** So does every chunk, at its place in the stream. */
  lemma ChunkVerifies(a: Args, n: nat, text: Text, ts: int, now: int)
    requires Distance(now, ts) <= a.maxAge
    ensures var m := ReadMessage(Stringify(Layout(SentChunk(a, n, text, ts))));
      m.ChunkMsg? && m.text == text && ChunkFault(a, m, n, now).None?
  {
    MessageRoundTrip(SentChunk(a, n, text, ts));
    SentChunkAccepted(a, n, text, ts, now);
  }

  /** A chunk for this call with a field no signed record can have is not passed over: the call fails. */
  lemma BadChunkStopsTheCall(a: Args, v: Json, ps: seq<Poll>, next: nat)
    requires IsSkillChunk(v) && Field(v, "id") == Str(a.id)
    requires IntOf(Field(v, "seq")).None? || IntOf(Field(v, "ts")).None? || !IsAddressed(v)
    requires ps != [] && ps[0].loopNow < a.deadline && ps[0].msg == Some(Classify(v))
    ensures IsFor(a, Classify(v)) && Receive(a, ps, next) == Heard(Failed(BadField), [])
  {
    ReceiveMalformed(a, ps, next);
  }

  /** Exactly what passes for a chunk, well formed or not. */
  lemma ChunkGuardIff(v: Json)
    ensures var m := Classify(v);
      m.ChunkMsg? || (m.Malformed? && m.isChunk) <==>
        && v.Obj? && Field(v, "v") == Num([0x31]) && Field(v, "type") == Str(CHUNK_TYPE)
        && Field(v, "id").Str? && Field(v, "seq").Num? && Field(v, "text").Str? && Field(v, "sig").Str?
  {
    DecOne();
    TypesDiffer();
  }

  lemma DecOne()
    ensures Int(1) == Num([0x31])
  {
  }

  /** Exactly what passes for a response, and that any true-like `ok` makes it a success. */
  lemma ResponseGuardIff(v: Json)
    ensures var m := Classify(v);
      && (m.ResMsg? || (m.Malformed? && !m.isChunk) <==>
            && v.Obj? && Field(v, "v") == Num([0x31]) && Field(v, "type") == Str(RES_TYPE)
            && Field(v, "id").Str?)
      && (m.ResMsg? ==> (m.body.OkBody? <==> Truthy(Field(v, "ok"))))
  {
    DecOne();
    TypesDiffer();
  }

  // ---- Any other reader ----

  /**
   * `read` stands for JSON.parse and the guards on any text at all: it may read other spellings of JSON as it likes,
   * and agrees with ours on these messages as they are printed.
   */
  ghost predicate Agrees(read: Text -> Msg, ms: seq<Msg>) {
    forall i :: 0 <= i < |ms| ==> read(PrintOne(ms[i])) == ReadMessage(PrintOne(ms[i]))
  }

  function PrintOne(m: Msg): Text {
    if m.ChunkMsg? || m.ResMsg? then Stringify(Layout(m)) else []
  }
}
