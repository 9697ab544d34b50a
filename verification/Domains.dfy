/**
 * The six records agentdir signs, as the JSON values whose canonical text is hashed, and the proof
 * that a digest determines its record: a signature made for one purpose fits no other.
 */
module Domains {
  import opened Wrappers
  import opened CodeUnits
  import opened Json
  import opened JsonParse
  import opened Canonical

  // ---- Integers ----

  function DecNat(n: nat): (t: Text)
    ensures t != [] && forall i :: 0 <= i < |t| ==> IsDigit(t[i])
  {
    if n < 10 then [0x30 + n] else DecNat(n / 10) + [0x30 + n % 10]
  }

  /** Number::toString on integers below 10^21. */
  function Dec(n: int): (t: Text)
    ensures IsNumLit(t)
  {
    if n < 0 then [0x2D] + DecNat(-n) else DecNat(n)
  }

  function NatValue(t: Text): int {
    if t == [] then 0 else 10 * NatValue(t[..|t| - 1]) + t[|t| - 1] - 0x30
  }

  lemma {:induction false} DecNatValue(n: nat)
    ensures NatValue(DecNat(n)) == n
  {
    if n >= 10 {
      DecNatValue(n / 10);
      var t := DecNat(n);
      assert t[..|t| - 1] == DecNat(n / 10);
    } else {
      assert DecNat(n)[..0] == [];
    }
  }

  lemma DecInjective(m: int, n: int)
    requires Dec(m) == Dec(n)
    ensures m == n
  {
    DecNatValue(if m < 0 then -m else m);
    DecNatValue(if n < 0 then -n else n);
    assert m < 0 ==> Dec(m)[0] == 0x2D && Dec(m)[1..] == DecNat(-m);
    assert n < 0 ==> Dec(n)[0] == 0x2D && Dec(n)[1..] == DecNat(-n);
  }

  function Int(n: int): Json { Num(Dec(n)) }

  function NullableStr(s: Option<Text>): Json {
    if s.Some? then Str(s.value) else Null
  }

  datatype Tee = Tee(provider: Text, chatID: Text, verified: bool)

  /** One constructor per signed record; the fields are those bound by the signature. */
  datatype Domain =
    | Chunk(id: Text, seqNo: int, text: Text, responder: Text, caller: Text, skill: Text, ts: int)
    | ResOk(id: Text, output: Json, responder: Text, caller: Text, skill: Text, ts: int)
    | ResErr(id: Text, error: Text, responder: Text, caller: Text, skill: Text, ts: int)
    | Receipt(kind: Text, amount: Text, tokenAddress: Text, tokenSymbol: Text, network: Text, recipient: Text,
              txHash: Text, executionId: Text, callerPubkey: Text, skill: Text, ts: int)
    | Attestation(callerINFT: Text, calleeINFT: Text, skill: Text, ok: bool, latencyMs: int, ts: int,
                  prevRoot: Option<Text>, tee: Option<Tee>)
    | Snapshot(ensName: Text, signerPubkey: Text, inftTokenId: Text, ts: int, callsTotal: int, okTotal: int,
               skillStats: Json, repHead: Option<Text>, prevSnapshotRoot: Option<Text>)

  function TeeJson(t: Option<Tee>): Json {
    match t
    case None => Undefined
    case Some(Tee(p, c, v)) =>
      TeeKeyList();
      Obj(Zip(TEE_KEYS, [Str(p), Str(c), Bool(v)]))
  }

  datatype Kind = ChunkKind | ResOkKind | ResErrKind | ReceiptKind | AttestationKind | SnapshotKind

  function KindOf(d: Domain): Kind {
    match d
    case Chunk(_, _, _, _, _, _, _) => ChunkKind
    case ResOk(_, _, _, _, _, _) => ResOkKind
    case ResErr(_, _, _, _, _, _) => ResErrKind
    case Receipt(_, _, _, _, _, _, _, _, _, _, _) => ReceiptKind
    case Attestation(_, _, _, _, _, _, _, _) => AttestationKind
    case Snapshot(_, _, _, _, _, _, _, _, _) => SnapshotKind
  }

  predicate KeyList(ks: seq<string>) {
    Distinct(ks) && forall i :: 0 <= i < |ks| ==> IsAscii(ks[i])
  }

  const CHUNK_KEYS: seq<string> :=
    ["v", "id", "seq", "text", "responder", "caller", "skill", "ts"]
  const RES_OK_KEYS: seq<string> :=
    ["v", "id", "ok", "output", "responder", "caller", "skill", "ts"]
  const RES_ERR_KEYS: seq<string> :=
    ["v", "id", "ok", "error", "responder", "caller", "skill", "ts"]
  const RECEIPT_KEYS: seq<string> :=
    ["v", "kind", "amount", "tokenAddress", "tokenSymbol", "network", "recipient", "txHash", "executionId",
     "callerPubkey", "skill", "ts"]
  const ATTESTATION_KEYS: seq<string> :=
    ["v", "callerINFT", "calleeINFT", "skill", "ok", "latencyMs", "ts", "prevRoot", "teeAttestation"]
  const SNAPSHOT_KEYS: seq<string> :=
    ["v", "ensName", "signerPubkey", "inftTokenId", "ts", "callsTotal", "okTotal", "skillStats", "repHead",
     "prevSnapshotRoot"]
  const TEE_KEYS: seq<string> :=
    ["provider", "chatID", "verified"]

  lemma ChunkKeyList()
    ensures KeyList(CHUNK_KEYS)
  {
  }

  lemma ResOkKeyList()
    ensures KeyList(RES_OK_KEYS)
  {
  }

  lemma ResErrKeyList()
    ensures KeyList(RES_ERR_KEYS)
  {
  }

  lemma ReceiptKeyList()
    ensures KeyList(RECEIPT_KEYS)
  {
  }

  lemma AttestationKeyList()
    ensures KeyList(ATTESTATION_KEYS)
  {
  }

  lemma SnapshotKeysDiffer(i: nat, j: nat)
    requires i < j < |SNAPSHOT_KEYS|
    ensures i < 5 ==> SNAPSHOT_KEYS[i] != SNAPSHOT_KEYS[j]
  {
  }

  lemma LaterSnapshotKeysDiffer(i: nat, j: nat)
    requires 5 <= i < j < |SNAPSHOT_KEYS|
    ensures SNAPSHOT_KEYS[i] != SNAPSHOT_KEYS[j]
  {
  }

  lemma SnapshotKeysAreAscii()
    ensures forall i :: 0 <= i < |SNAPSHOT_KEYS| ==> IsAscii(SNAPSHOT_KEYS[i])
  {
  }

  lemma SnapshotKeyList()
    ensures KeyList(SNAPSHOT_KEYS)
  {
    forall i, j | 0 <= i < j < |SNAPSHOT_KEYS| ensures SNAPSHOT_KEYS[i] != SNAPSHOT_KEYS[j] {
      if i < 5 {
        SnapshotKeysDiffer(i, j);
      } else {
        LaterSnapshotKeysDiffer(i, j);
      }
    }
    SnapshotKeysAreAscii();
  }

  lemma TeeKeyList()
    ensures KeyList(TEE_KEYS)
  {
  }

  function Keys(d: Domain): (r: seq<string>)
    ensures KeyList(r)
  {
    match d
    case Chunk(_, _, _, _, _, _, _) => ChunkKeyList(); CHUNK_KEYS
    case ResOk(_, _, _, _, _, _) => ResOkKeyList(); RES_OK_KEYS
    case ResErr(_, _, _, _, _, _) => ResErrKeyList(); RES_ERR_KEYS
    case Receipt(_, _, _, _, _, _, _, _, _, _, _) => ReceiptKeyList(); RECEIPT_KEYS
    case Attestation(_, _, _, _, _, _, _, _) => AttestationKeyList(); ATTESTATION_KEYS
    case Snapshot(_, _, _, _, _, _, _, _, _) => SnapshotKeyList(); SNAPSHOT_KEYS
  }

  function Values(d: Domain): (r: seq<Json>)
    ensures |r| == |Keys(d)|
  {
    match d
    case Chunk(id, n, text, responder, caller, skill, ts) =>
      [Int(1), Str(id), Int(n), Str(text), Str(responder), Str(caller), Str(skill), Int(ts)]
    case ResOk(id, output, responder, caller, skill, ts) =>
      [Int(1), Str(id), Bool(true), output, Str(responder), Str(caller), Str(skill), Int(ts)]
    case ResErr(id, error, responder, caller, skill, ts) =>
      [Int(1), Str(id), Bool(false), Str(error), Str(responder), Str(caller), Str(skill), Int(ts)]
    case Receipt(kind, amount, tokenAddress, tokenSymbol, network, recipient, txHash, executionId, callerPubkey,
                 skill, ts) =>
      [Int(1), Str(kind), Str(amount), Str(tokenAddress), Str(tokenSymbol), Str(network), Str(recipient), Str(txHash),
       Str(executionId), Str(callerPubkey), Str(skill), Int(ts)]
    case Attestation(callerINFT, calleeINFT, skill, ok, latencyMs, ts, prevRoot, tee) =>
      [Int(1), Str(callerINFT), Str(calleeINFT), Str(skill), Bool(ok), Int(latencyMs), Int(ts), NullableStr(prevRoot),
       TeeJson(tee)]
    case Snapshot(ensName, signerPubkey, inftTokenId, ts, callsTotal, okTotal, skillStats, repHead, prevSnapshotRoot) =>
      [Int(1), Str(ensName), Str(signerPubkey), Str(inftTokenId), Int(ts), Int(callsTotal), Int(okTotal), skillStats,
       NullableStr(repHead), NullableStr(prevSnapshotRoot)]
  }

  function Zip(ks: seq<string>, vs: seq<Json>): (ms: seq<Member>)
    requires |ks| == |vs| && KeyList(ks)
    ensures |ms| == |ks|
    ensures forall i :: 0 <= i < |ms| ==> ms[i] == Member(Ascii(ks[i]), vs[i])
  {
    seq(|ks|, i requires 0 <= i < |ks| => Member(Ascii(ks[i]), vs[i]))
  }

  function Encode(d: Domain): Json {
    Obj(Zip(Keys(d), Values(d)))
  }

  /** The message a key signs: keccak256 is idealised as injective, so the digest is the text hashed. */
  function Digest(d: Domain): Text {
    CanonicalJson(Encode(d))
  }

  /** The free-form part of a record is a well-formed value. */
  predicate WellFormed(d: Domain) {
    (d.ResOk? ==> Valid(d.output)) && (d.Snapshot? ==> Valid(d.skillStats) && !d.skillStats.Undefined?)
  }

  /** Equal records, with free-form parts compared by meaning. */
  predicate SameRecord(a: Domain, b: Domain) {
    match a
    case ResOk(id, output, responder, caller, skill, ts) =>
      b.ResOk? && b.(output := output) == a
      && Meaning(output) == Meaning(b.output) && (output.Undefined? <==> b.output.Undefined?)
    case Snapshot(_, _, _, _, _, _, stats, _, _) =>
      b.Snapshot? && b.(skillStats := stats) == a
      && Meaning(stats) == Meaning(b.skillStats) && (stats.Undefined? <==> b.skillStats.Undefined?)
    case _ => a == b
  }

  lemma ZipUnique(ks: seq<string>, vs: seq<Json>)
    requires |ks| == |vs| && KeyList(ks)
    ensures UniqueKeys(Zip(ks, vs))
  {
    forall i, j | 0 <= i < j < |ks| ensures Ascii(ks[i]) != Ascii(ks[j]) {
      if Ascii(ks[i]) == Ascii(ks[j]) {
        AsciiInjective(ks[i], ks[j]);
      }
    }
  }

  lemma TeeIsValid(t: Option<Tee>)
    ensures Valid(TeeJson(t))
  {
    if t.Some? {
      TeeKeyList();
      ZipUnique(TEE_KEYS, [Str(t.value.provider), Str(t.value.chatID), Bool(t.value.verified)]);
    }
  }

  lemma EncodeIsValid(d: Domain)
    requires WellFormed(d)
    ensures Valid(Encode(d))
  {
    var ks, vs := Keys(d), Values(d);
    ZipUnique(ks, vs);
    if d.Attestation? { TeeIsValid(d.tee); }
    forall i | 0 <= i < |vs| ensures Valid(vs[i]) {}
  }

  /** Two objects with the same keys in the same places and the same meaning agree place by place. */
  lemma SameMeaningSameValues(ks: seq<string>, vs: seq<Json>, ws: seq<Json>, i: nat)
    requires |ks| == |vs| == |ws| && i < |ks| && KeyList(ks)
    requires MeaningMembers(Zip(ks, vs)) == MeaningMembers(Zip(ks, ws))
    ensures Meaning(vs[i]) == Meaning(ws[i]) && (vs[i].Undefined? <==> ws[i].Undefined?)
  {
    ZipUnique(ks, vs);
    ZipUnique(ks, ws);
    FieldOfMember(Zip(ks, vs), i);
    FieldOfMember(Zip(ks, ws), i);
  }

  /** A defined value under a key the other object lacks makes the meanings differ. */
  lemma KeySeparates(ks: seq<string>, vs: seq<Json>, ls: seq<string>, ws: seq<Json>, i: nat)
    requires |ks| == |vs| && i < |ks| && KeyList(ks)
    requires |ls| == |ws| && KeyList(ls)
    requires ks[i] !in ls && !vs[i].Undefined?
    ensures MeaningMembers(Zip(ks, vs)) != MeaningMembers(Zip(ls, ws))
  {
    ZipUnique(ks, vs);
    FieldOfMember(Zip(ks, vs), i);
    if Ascii(ks[i]) in MeaningMembers(Zip(ls, ws)) {
      var j := MemberOfField(Zip(ls, ws), Ascii(ks[i]));
      AsciiInjective(ks[i], ls[j]);
      assert false;
    }
  }

  /** The key that sets a kind of record apart; a successful response has none of its own. */
  function MarkIndex(d: Domain): (i: nat)
    requires !d.ResOk?
    ensures i < |Keys(d)| && !Values(d)[i].Undefined?
  {
    match d
    case Chunk(_, _, _, _, _, _, _) => 2
    case ResErr(_, _, _, _, _, _) => 3
    case Receipt(_, _, _, _, _, _, _, _, _, _, _) => 1
    case Attestation(_, _, _, _, _, _, _, _) => 2
    case Snapshot(_, _, _, _, _, _, _, _, _) => 1
  }

  predicate OnlyIn(k: string, own: Kind) {
    && (own == ChunkKind || k !in CHUNK_KEYS)
    && (own == ResOkKind || k !in RES_OK_KEYS)
    && (own == ResErrKind || k !in RES_ERR_KEYS)
    && (own == ReceiptKind || k !in RECEIPT_KEYS)
    && (own == AttestationKind || k !in ATTESTATION_KEYS)
    && (own == SnapshotKind || k !in SNAPSHOT_KEYS)
  }

  lemma ChunkMark()
    ensures OnlyIn("seq", ChunkKind)
  {
  }

  lemma ResErrMark()
    ensures OnlyIn("error", ResErrKind)
  {
  }

  lemma ReceiptMark()
    ensures OnlyIn("kind", ReceiptKind)
  {
  }

  lemma AttestationMark()
    ensures OnlyIn("calleeINFT", AttestationKind)
  {
  }

  lemma SnapshotMark()
    ensures OnlyIn("ensName", SnapshotKind)
  {
  }

  function MarkName(k: Kind): string {
    match k
    case ChunkKind => "seq"
    case ResOkKind => ""
    case ResErrKind => "error"
    case ReceiptKind => "kind"
    case AttestationKind => "calleeINFT"
    case SnapshotKind => "ensName"
  }

  lemma MarkNameIsOwn(k: Kind)
    requires k != ResOkKind
    ensures OnlyIn(MarkName(k), k)
  {
    match k
    case ChunkKind => ChunkMark();
    case ResErrKind => ResErrMark();
    case ReceiptKind => ReceiptMark();
    case AttestationKind => AttestationMark();
    case SnapshotKind => SnapshotMark();
  }

  lemma MarkKey(d: Domain)
    requires !d.ResOk?
    ensures Keys(d)[MarkIndex(d)] == MarkName(KindOf(d))
  {
  }

  lemma MarkIsOwn(d: Domain)
    requires !d.ResOk?
    ensures OnlyIn(Keys(d)[MarkIndex(d)], KindOf(d))
  {
    MarkKey(d);
    MarkNameIsOwn(KindOf(d));
  }

  lemma OnlyInMeansAbsent(k: string, own: Kind, d: Domain)
    requires OnlyIn(k, own) && KindOf(d) != own
    ensures k !in Keys(d)
  {
  }

  lemma MarkedDoesNotCollide(a: Domain, b: Domain)
    requires KindOf(a) != KindOf(b) && !a.ResOk?
    ensures Meaning(Encode(a)) != Meaning(Encode(b))
  {
    hide OnlyIn;
    hide Zip;
    MarkIsOwn(a);
    OnlyInMeansAbsent(Keys(a)[MarkIndex(a)], KindOf(a), b);
    KeySeparates(Keys(a), Values(a), Keys(b), Values(b), MarkIndex(a));
  }

  lemma KindsDoNotCollide(a: Domain, b: Domain)
    requires KindOf(a) != KindOf(b)
    ensures Meaning(Encode(a)) != Meaning(Encode(b))
  {
    if a.ResOk? {
      MarkedDoesNotCollide(b, a);
    } else {
      MarkedDoesNotCollide(a, b);
    }
  }

  lemma NullableStrInjective(a: Option<Text>, b: Option<Text>)
    requires Meaning(NullableStr(a)) == Meaning(NullableStr(b))
    ensures a == b
  {
  }

  lemma TeeInjective(a: Option<Tee>, b: Option<Tee>)
    requires Meaning(TeeJson(a)) == Meaning(TeeJson(b)) && (TeeJson(a).Undefined? <==> TeeJson(b).Undefined?)
    ensures a == b
  {
    if a.Some? {
      TeeKeyList();
      var ks := TEE_KEYS;
      var vs := [Str(a.value.provider), Str(a.value.chatID), Bool(a.value.verified)];
      var ws := [Str(b.value.provider), Str(b.value.chatID), Bool(b.value.verified)];
      SameMeaningSameValues(ks, vs, ws, 0);
      SameMeaningSameValues(ks, vs, ws, 1);
      SameMeaningSameValues(ks, vs, ws, 2);
    }
  }

  predicate SameAt(v: Json, w: Json) {
    Meaning(v) == Meaning(w) && (v.Undefined? <==> w.Undefined?)
  }

  predicate SameValues(a: Domain, b: Domain) {
    |Values(a)| == |Values(b)| && forall i :: 0 <= i < |Values(a)| ==> SameAt(Values(a)[i], Values(b)[i])
  }

  lemma Agree(a: Domain, b: Domain, i: nat)
    requires SameValues(a, b) && i < |Values(a)|
    ensures SameAt(Values(a)[i], Values(b)[i])
  {
  }

  predicate IsMessage(d: Domain) {
    d.Chunk? || d.ResOk? || d.ResErr?
  }

  /** Whom a message is from and for. */
  lemma SameParties(a: Domain, b: Domain)
    requires IsMessage(a) && KindOf(a) == KindOf(b) && SameValues(a, b)
    ensures a.id == b.id && a.responder == b.responder && a.caller == b.caller
  {
    Agree(a, b, 1);
    Agree(a, b, 4);
    Agree(a, b, 5);
  }

  lemma SameSkillAndTime(a: Domain, b: Domain)
    requires IsMessage(a) && KindOf(a) == KindOf(b) && SameValues(a, b)
    ensures a.skill == b.skill && a.ts == b.ts
  {
    Agree(a, b, 6);
    Agree(a, b, 7);
    DecInjective(a.ts, b.ts);
  }

  lemma SamePiece(a: Domain, b: Domain)
    requires KindOf(a) == KindOf(b) == ChunkKind && SameValues(a, b)
    ensures a.seqNo == b.seqNo && a.text == b.text
  {
    Agree(a, b, 2);
    Agree(a, b, 3);
    DecInjective(a.seqNo, b.seqNo);
  }

  lemma SameChunk(a: Domain, b: Domain)
    requires KindOf(a) == KindOf(b) == ChunkKind && SameValues(a, b)
    ensures SameRecord(a, b)
  {
    SameParties(a, b);
    SameSkillAndTime(a, b);
    SamePiece(a, b);
  }

  lemma SameResOk(a: Domain, b: Domain)
    requires KindOf(a) == KindOf(b) == ResOkKind && SameValues(a, b)
    ensures SameRecord(a, b)
  {
    SameParties(a, b);
    SameSkillAndTime(a, b);
    Agree(a, b, 3);
  }

  lemma SameResErr(a: Domain, b: Domain)
    requires KindOf(a) == KindOf(b) == ResErrKind && SameValues(a, b)
    ensures SameRecord(a, b)
  {
    SameParties(a, b);
    SameSkillAndTime(a, b);
    Agree(a, b, 3);
  }

  lemma SameReceiptAmount(a: Domain, b: Domain)
    requires KindOf(a) == KindOf(b) == ReceiptKind && SameValues(a, b)
    ensures a.kind == b.kind && a.amount == b.amount && a.tokenAddress == b.tokenAddress
  {
    Agree(a, b, 1);
    Agree(a, b, 2);
    Agree(a, b, 3);
  }

  lemma SameReceiptPayment(a: Domain, b: Domain)
    requires KindOf(a) == KindOf(b) == ReceiptKind && SameValues(a, b)
    ensures a.kind == b.kind && a.amount == b.amount && a.tokenAddress == b.tokenAddress
    ensures a.tokenSymbol == b.tokenSymbol && a.network == b.network && a.recipient == b.recipient
  {
    SameReceiptAmount(a, b);
    Agree(a, b, 4);
    Agree(a, b, 5);
    Agree(a, b, 6);
  }

  lemma SameReceiptBinding(a: Domain, b: Domain)
    requires KindOf(a) == KindOf(b) == ReceiptKind && SameValues(a, b)
    ensures a.txHash == b.txHash && a.executionId == b.executionId && a.callerPubkey == b.callerPubkey
    ensures a.skill == b.skill && a.ts == b.ts
  {
    Agree(a, b, 7);
    Agree(a, b, 8);
    Agree(a, b, 9);
    Agree(a, b, 10);
    Agree(a, b, 11);
    DecInjective(a.ts, b.ts);
  }

  lemma SameReceipt(a: Domain, b: Domain)
    requires KindOf(a) == KindOf(b) == ReceiptKind && SameValues(a, b)
    ensures SameRecord(a, b)
  {
    SameReceiptPayment(a, b);
    SameReceiptBinding(a, b);
  }

  lemma SameCall(a: Domain, b: Domain)
    requires KindOf(a) == KindOf(b) == AttestationKind && SameValues(a, b)
    ensures a.callerINFT == b.callerINFT && a.calleeINFT == b.calleeINFT && a.skill == b.skill && a.ok == b.ok
  {
    Agree(a, b, 1);
    Agree(a, b, 2);
    Agree(a, b, 3);
    Agree(a, b, 4);
  }

  lemma SameEntry(a: Domain, b: Domain)
    requires KindOf(a) == KindOf(b) == AttestationKind && SameValues(a, b)
    ensures a.latencyMs == b.latencyMs && a.ts == b.ts && a.prevRoot == b.prevRoot && a.tee == b.tee
  {
    Agree(a, b, 5);
    Agree(a, b, 6);
    Agree(a, b, 7);
    Agree(a, b, 8);
    DecInjective(a.latencyMs, b.latencyMs);
    DecInjective(a.ts, b.ts);
    NullableStrInjective(a.prevRoot, b.prevRoot);
    TeeInjective(a.tee, b.tee);
  }

  lemma SameAttestation(a: Domain, b: Domain)
    requires KindOf(a) == KindOf(b) == AttestationKind && SameValues(a, b)
    ensures SameRecord(a, b)
  {
    SameCall(a, b);
    SameEntry(a, b);
  }

  lemma SameSnapshotOwner(a: Domain, b: Domain)
    requires KindOf(a) == KindOf(b) == SnapshotKind && SameValues(a, b)
    ensures a.ensName == b.ensName && a.signerPubkey == b.signerPubkey && a.inftTokenId == b.inftTokenId
  {
    Agree(a, b, 1);
    Agree(a, b, 2);
    Agree(a, b, 3);
  }

  lemma SameSnapshotTotals(a: Domain, b: Domain)
    requires KindOf(a) == KindOf(b) == SnapshotKind && SameValues(a, b)
    ensures a.ts == b.ts && a.callsTotal == b.callsTotal && a.okTotal == b.okTotal
  {
    Agree(a, b, 4);
    Agree(a, b, 5);
    Agree(a, b, 6);
    DecInjective(a.ts, b.ts);
    DecInjective(a.callsTotal, b.callsTotal);
    DecInjective(a.okTotal, b.okTotal);
  }

  lemma SameSnapshotRoots(a: Domain, b: Domain)
    requires KindOf(a) == KindOf(b) == SnapshotKind && SameValues(a, b)
    ensures a.repHead == b.repHead && a.prevSnapshotRoot == b.prevSnapshotRoot
    ensures SameAt(a.skillStats, b.skillStats)
  {
    Agree(a, b, 7);
    Agree(a, b, 8);
    Agree(a, b, 9);
    NullableStrInjective(a.repHead, b.repHead);
    NullableStrInjective(a.prevSnapshotRoot, b.prevSnapshotRoot);
  }

  lemma SameSnapshot(a: Domain, b: Domain)
    requires KindOf(a) == KindOf(b) == SnapshotKind && SameValues(a, b)
    ensures SameRecord(a, b)
  {
    SameSnapshotOwner(a, b);
    SameSnapshotTotals(a, b);
    SameSnapshotRoots(a, b);
  }

  lemma SameValuesSameRecord(a: Domain, b: Domain)
    requires KindOf(a) == KindOf(b) && SameValues(a, b)
    ensures SameRecord(a, b)
  {
    match KindOf(a)
    case ChunkKind => SameChunk(a, b);
    case ResOkKind => SameResOk(a, b);
    case ResErrKind => SameResErr(a, b);
    case ReceiptKind => SameReceipt(a, b);
    case AttestationKind => SameAttestation(a, b);
    case SnapshotKind => SameSnapshot(a, b);
  }

  lemma SameValuesSameMeaning(ks: seq<string>, vs: seq<Json>, ws: seq<Json>)
    requires |ks| == |vs| == |ws| && KeyList(ks)
    requires forall i :: 0 <= i < |ks| ==> SameAt(vs[i], ws[i])
    ensures MeaningMembers(Zip(ks, vs)) == MeaningMembers(Zip(ks, ws))
  {
    var ms, ns := Zip(ks, vs), Zip(ks, ws);
    ZipUnique(ks, vs);
    ZipUnique(ks, ws);
    forall i | 0 <= i < |ms| && !ms[i].val.Undefined?
      ensures ns[i].key == ms[i].key && !ns[i].val.Undefined? && Meaning(ns[i].val) == Meaning(ms[i].val)
    {
      assert SameAt(vs[i], ws[i]);
    }
    forall j | 0 <= j < |ns| && !ns[j].val.Undefined?
      ensures ns[j].key == ms[j].key && !ms[j].val.Undefined?
    {
      assert SameAt(vs[j], ws[j]);
    }
    SameFields(ms, ns);
  }

  lemma SameDigestSameRecord(a: Domain, b: Domain)
    requires KindOf(a) == KindOf(b) && Meaning(Encode(a)) == Meaning(Encode(b))
    ensures SameRecord(a, b)
  {
    forall i | 0 <= i < |Values(a)| ensures SameAt(Values(a)[i], Values(b)[i]) {
      SameMeaningSameValues(Keys(a), Values(a), Values(b), i);
    }
    SameValuesSameRecord(a, b);
  }

  lemma SameButOne(vs: seq<Json>, ws: seq<Json>, i: nat, w: Json)
    requires i < |vs| && ws == vs[i := w] && SameAt(vs[i], w)
    ensures |vs| == |ws| && forall j :: 0 <= j < |vs| ==> SameAt(vs[j], ws[j])
  {
  }

  lemma SameRecordSameValues(a: Domain, b: Domain)
    requires SameRecord(a, b)
    ensures KindOf(a) == KindOf(b) && SameValues(a, b)
  {
    if a.ResOk? {
      assert Values(a)[3] == a.output;
      SameButOne(Values(a), Values(b), 3, b.output);
    } else if a.Snapshot? {
      assert Values(a)[7] == a.skillStats;
      SameButOne(Values(a), Values(b), 7, b.skillStats);
    } else {
      assert Values(a) == Values(b);
    }
  }

  /** A digest determines the kind of record and every bound field, and nothing else. */
  lemma DigestBindsRecord(a: Domain, b: Domain)
    requires WellFormed(a) && WellFormed(b)
    ensures Digest(a) == Digest(b) <==> SameRecord(a, b)
  {
    EncodeIsValid(a);
    EncodeIsValid(b);
    CanonicalInjective(Encode(a), Encode(b));
    if Digest(a) == Digest(b) {
      if KindOf(a) != KindOf(b) { KindsDoNotCollide(a, b); }
      SameDigestSameRecord(a, b);
    }
    if SameRecord(a, b) {
      SameRecordSameValues(a, b);
      SameValuesSameMeaning(Keys(a), Values(a), Values(b));
    }
  }

  /** The record a verifier rebuilds from what it read off the wire has the signer's digest. */
  lemma DigestSurvivesTheWire(d: Domain)
    requires WellFormed(d)
    ensures d.ResOk? && !d.output.Undefined? ==>
      Parse(Stringify(d.output)).Done? && Digest(d.(output := Parse(Stringify(d.output)).value)) == Digest(d)
    ensures d.Snapshot? ==>
      var p := Parse(Stringify(d.skillStats)); p.Done? && Digest(d.(skillStats := p.value)) == Digest(d)
  {
    if d.ResOk? && !d.output.Undefined? {
      ParseUndoesStringify(d.output);
      DigestBindsRecord(d.(output := Wire(d.output)), d);
    } else if d.Snapshot? {
      ParseUndoesStringify(d.skillStats);
      DigestBindsRecord(d.(skillStats := Wire(d.skillStats)), d);
    }
  }
}
