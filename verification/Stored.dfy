/**
 * Signed records in storage: an attestation, a snapshot or a receipt is stored as its own members and a `sig`; a
 * verifier parses the text, takes the signature off, and checks it over the rest.
 */
module Stored {
  import opened CodeUnits
  import opened Json
  import opened JsonParse
  import opened Canonical
  import opened Domains
  import opened Wrappers
  import opened Caller
  import opened Envelope

  const SIG_KEY: Text := Ascii("sig")

  function Members(d: Domain): seq<Member> {
    Zip(Keys(d), Values(d))
  }

  /** `{...base, sig}`. */
  function WithSig(ms: seq<Member>, sig: Text): Json {
    Obj(ms + [Member(SIG_KEY, Str(sig))])
  }

  /** `const {sig, ...rest} = record`. */
  function Rest(ms: seq<Member>): seq<Member> {
    if ms == [] then [] else (if ms[0].key == SIG_KEY then [] else [ms[0]]) + Rest(ms[1..])
  }

  /** The text that is stored for a record and a signature. */
  function StoredText(d: Domain, sig: Sig): Text {
    Stringify(WithSig(Members(d), SigText(sig)))
  }

  /** The verifier on any stored text: false for anything that is not a signed object. */
  predicate VerifyStored(text: Text, key: Text) {
    var p := Parse(text);
    && p.Done? && p.value.Obj? && Get(p.value, SIG_KEY).Str?
    && ReadSig(Get(p.value, SIG_KEY).s) == Sig(key, CanonicalJson(Obj(Rest(p.value.members))))
  }

  // ---- Taking the signature off again ----

  predicate Unsigned(ms: seq<Member>) {
    forall i :: 0 <= i < |ms| ==> ms[i].key != SIG_KEY
  }

  lemma {:induction false} WirePush(ms: seq<Member>, k: Text, s: Text)
    ensures WireMembers(ms + [Member(k, Str(s))]) == WireMembers(ms) + [Member(k, Str(s))]
  {
    var x := Member(k, Str(s));
    if ms == [] {
      assert (ms + [x])[1..] == [];
    } else {
      WirePush(ms[1..], k, s);
      assert (ms + [x])[1..] == ms[1..] + [x];
    }
  }

  lemma {:induction false} RestPush(ms: seq<Member>, x: Member)
    requires Unsigned(ms) && x.key == SIG_KEY
    ensures Rest(ms + [x]) == ms
  {
    if ms == [] {
      assert (ms + [x])[1..] == [];
    } else {
      RestPush(ms[1..], x);
      assert (ms + [x])[1..] == ms[1..] + [x];
    }
  }

  lemma WireIsUnsigned(ms: seq<Member>)
    requires Unsigned(ms)
    ensures Unsigned(WireMembers(ms))
  {
    forall j | 0 <= j < |WireMembers(ms)| ensures WireMembers(ms)[j].key != SIG_KEY {
      WiredKeysAreOld(ms, j);
    }
  }

  lemma SigIsFound(ms: seq<Member>, s: Text)
    requires Unsigned(ms)
    ensures Lookup(ms + [Member(SIG_KEY, Str(s))], SIG_KEY) == Str(s)
    decreases |ms|
  {
    if ms != [] {
      SigIsFound(ms[1..], s);
      assert (ms + [Member(SIG_KEY, Str(s))])[1..] == ms[1..] + [Member(SIG_KEY, Str(s))];
    }
  }

  /** Parsing what was stored gives the signature as it was, and a rest with the canonical text of the record. */
  lemma SignedObjectSurvives(ms: seq<Member>, s: Text)
    requires Valid(Obj(ms)) && Unsigned(ms)
    ensures var p := Parse(Stringify(WithSig(ms, s)));
      && p.Done? && p.value.Obj? && Get(p.value, SIG_KEY) == Str(s)
      && Rest(p.value.members) == WireMembers(ms)
      && CanonicalJson(Obj(Rest(p.value.members))) == CanonicalJson(Obj(ms))
  {
    var all := ms + [Member(SIG_KEY, Str(s))];
    assert Valid(Obj(all));
    ParseUndoesStringify(Obj(all));
    WirePush(ms, SIG_KEY, s);
    WireIsUnsigned(ms);
    RestPush(WireMembers(ms), Member(SIG_KEY, Str(s)));
    SigIsFound(WireMembers(ms), s);
    WireKeepsMeaning(Obj(ms));
    WireIsValid(Obj(ms));
    CanonicalInjective(Wire(Obj(ms)), Obj(ms));
  }

  lemma ChunkHasNoSig()
    ensures "sig" !in CHUNK_KEYS
  {
  }

  lemma ResOkHasNoSig()
    ensures "sig" !in RES_OK_KEYS
  {
  }

  lemma ResErrHasNoSig()
    ensures "sig" !in RES_ERR_KEYS
  {
  }

  lemma ReceiptHasNoSig()
    ensures "sig" !in RECEIPT_KEYS
  {
  }

  lemma AttestationHasNoSig()
    ensures "sig" !in ATTESTATION_KEYS
  {
  }

  lemma SnapshotHasNoSig()
    ensures "sig" !in SNAPSHOT_KEYS
  {
  }

  lemma RecordIsUnsigned(d: Domain)
    ensures Unsigned(Members(d))
  {
    ChunkHasNoSig();
    ResOkHasNoSig();
    ResErrHasNoSig();
    ReceiptHasNoSig();
    AttestationHasNoSig();
    SnapshotHasNoSig();
    assert "sig" !in Keys(d);
    forall i | 0 <= i < |Members(d)| ensures Members(d)[i].key != SIG_KEY {
      if Members(d)[i].key == SIG_KEY {
        AsciiInjective(Keys(d)[i], "sig");
      }
    }
  }

  // ---- Verification ----

  /**
   * A stored record verifies if and only if the key asked for made the signature, over this very record up to what
   * JSON cannot say: every record a signer stored verifies, and a signature moved to another record does not.
   */
  lemma StoredVerifiesIff(d: Domain, over: Domain, signer: Text, key: Text)
    requires WellFormed(d) && WellFormed(over)
    ensures VerifyStored(StoredText(d, Sig(signer, Digest(over))), key) <==> signer == key && SameRecord(d, over)
  {
    RecordIsUnsigned(d);
    EncodeIsValid(d);
    SignedObjectSurvives(Members(d), SigText(Sig(signer, Digest(over))));
    SigRoundTrip(Sig(signer, Digest(over)));
    DigestBindsRecord(d, over);
  }

  /** Every record read back from storage verifies under the key that signed it, and under no other. */
  lemma OwnRecordVerifiesIff(d: Domain, signer: Text, key: Text)
    requires WellFormed(d)
    ensures VerifyStored(StoredText(d, Sig(signer, Digest(d))), key) <==> signer == key
  {
    StoredVerifiesIff(d, d, signer, key);
    assert SameRecord(d, d);
  }

  /** And each of its members is read as it was written, up to what JSON cannot say. */
  lemma MemberReadsBack(d: Domain, sig: Sig, i: nat)
    requires WellFormed(d) && i < |Keys(d)|
    ensures var p := Parse(StoredText(d, sig));
      p.Done? && Field(p.value, Keys(d)[i]) == Carried(Values(d)[i])
  {
    RecordIsUnsigned(d);
    EncodeIsValid(d);
    StoredFields(Members(d), SigText(sig));
    LinkMember(d, i);
  }

  // ---- Each field under its own name ----

  lemma Named(d: Domain, i: nat, name: string)
    requires i < |Keys(d)| && Keys(d)[i] == name
    ensures Field(Encode(d), name) == Values(d)[i]
  {
    LinkMember(d, i);
  }

  /** The names of a signed message's fields. */
  lemma MessageNames(d: Domain)
    requires IsMessage(d)
    ensures var v := Encode(d);
      && Field(v, "v") == Int(1) && Field(v, "id") == Str(d.id) && Field(v, "responder") == Str(d.responder)
      && Field(v, "caller") == Str(d.caller) && Field(v, "skill") == Str(d.skill) && Field(v, "ts") == Int(d.ts)
  {
    hide Encode;
    hide Field;
    Named(d, 0, "v");
    Named(d, 1, "id");
    Named(d, 4, "responder");
    Named(d, 5, "caller");
    Named(d, 6, "skill");
    Named(d, 7, "ts");
  }

  /** What a chunk has besides, and what tells a success from an error. */
  lemma MessageContent(d: Domain)
    requires IsMessage(d)
    ensures var v := Encode(d);
      && (d.Chunk? ==> Field(v, "seq") == Int(d.seqNo) && Field(v, "text") == Str(d.text))
      && (d.ResOk? ==> Field(v, "ok") == Bool(true) && Field(v, "output") == d.output)
      && (d.ResErr? ==> Field(v, "ok") == Bool(false) && Field(v, "error") == Str(d.error))
  {
    hide Encode;
    hide Field;
    Named(d, 2, if d.Chunk? then "seq" else "ok");
    Named(d, 3, if d.Chunk? then "text" else if d.ResOk? then "output" else "error");
  }

  /** What a receipt says was paid, */
  lemma ReceiptAmountNames(d: Domain)
    requires d.Receipt?
    ensures var v := Encode(d);
      && Field(v, "v") == Int(1) && Field(v, "kind") == Str(d.kind) && Field(v, "amount") == Str(d.amount)
  {
    hide Encode;
    hide Field;
    Named(d, 0, "v");
    Named(d, 1, "kind");
    Named(d, 2, "amount");
  }

  /** in which token, */
  lemma ReceiptTokenNames(d: Domain)
    requires d.Receipt?
    ensures var v := Encode(d);
      && Field(v, "tokenAddress") == Str(d.tokenAddress) && Field(v, "tokenSymbol") == Str(d.tokenSymbol)
      && Field(v, "network") == Str(d.network)
  {
    hide Encode;
    hide Field;
    Named(d, 3, "tokenAddress");
    Named(d, 4, "tokenSymbol");
    Named(d, 5, "network");
  }

  /** to whom and by which transaction, */
  lemma ReceiptTransferNames(d: Domain)
    requires d.Receipt?
    ensures var v := Encode(d);
      && Field(v, "recipient") == Str(d.recipient) && Field(v, "txHash") == Str(d.txHash)
      && Field(v, "executionId") == Str(d.executionId)
  {
    hide Encode;
    hide Field;
    Named(d, 6, "recipient");
    Named(d, 7, "txHash");
    Named(d, 8, "executionId");
  }

  /** and for which call. */
  lemma ReceiptBindingNames(d: Domain)
    requires d.Receipt?
    ensures var v := Encode(d);
      && Field(v, "callerPubkey") == Str(d.callerPubkey) && Field(v, "skill") == Str(d.skill)
      && Field(v, "ts") == Int(d.ts)
  {
    hide Encode;
    hide Field;
    Named(d, 9, "callerPubkey");
    Named(d, 10, "skill");
    Named(d, 11, "ts");
  }

  /** Who attests what, */
  lemma AttestationPartyNames(d: Domain)
    requires d.Attestation?
    ensures var v := Encode(d);
      && Field(v, "v") == Int(1) && Field(v, "callerINFT") == Str(d.callerINFT)
      && Field(v, "calleeINFT") == Str(d.calleeINFT) && Field(v, "skill") == Str(d.skill)
  {
    hide Encode;
    hide Field;
    Named(d, 0, "v");
    Named(d, 1, "callerINFT");
    Named(d, 2, "calleeINFT");
    Named(d, 3, "skill");
  }

  /** and how the call went. */
  lemma AttestationOutcomeNames(d: Domain)
    requires d.Attestation?
    ensures var v := Encode(d);
      && Field(v, "ok") == Bool(d.ok) && Field(v, "latencyMs") == Int(d.latencyMs) && Field(v, "ts") == Int(d.ts)
  {
    hide Encode;
    hide Field;
    Named(d, 4, "ok");
    Named(d, 5, "latencyMs");
    Named(d, 6, "ts");
  }

  /** A link is null when there is nothing to link to; the provider's attestation is left out when there is none. */
  lemma AttestationLinkNames(d: Domain)
    requires d.Attestation?
    ensures var v := Encode(d); var tee := Field(v, "teeAttestation");
      && Field(v, "prevRoot") == (if d.prevRoot.Some? then Str(d.prevRoot.value) else Null)
      && (d.tee.None? ==> tee == Undefined)
      && (d.tee.Some? ==>
            Field(tee, "provider") == Str(d.tee.value.provider) && Field(tee, "chatID") == Str(d.tee.value.chatID)
            && Field(tee, "verified") == Bool(d.tee.value.verified))
  {
    Named(d, 7, "prevRoot");
    Named(d, 8, "teeAttestation");
    if d.tee.Some? {
      TeeKeyList();
      var t := d.tee.value;
      var vs := [Str(t.provider), Str(t.chatID), Bool(t.verified)];
      ZipUnique(TEE_KEYS, vs);
      LookupAt(Zip(TEE_KEYS, vs), 0);
      LookupAt(Zip(TEE_KEYS, vs), 1);
      LookupAt(Zip(TEE_KEYS, vs), 2);
    }
  }

  /** Whose snapshot it is, */
  lemma SnapshotOwnerNames(d: Domain)
    requires d.Snapshot?
    ensures var v := Encode(d);
      && Field(v, "v") == Int(1) && Field(v, "ensName") == Str(d.ensName)
      && Field(v, "signerPubkey") == Str(d.signerPubkey) && Field(v, "inftTokenId") == Str(d.inftTokenId)
  {
    hide Encode;
    hide Field;
    Named(d, 0, "v");
    Named(d, 1, "ensName");
    Named(d, 2, "signerPubkey");
    Named(d, 3, "inftTokenId");
  }

  /** its totals, */
  lemma SnapshotTotalNames(d: Domain)
    requires d.Snapshot?
    ensures var v := Encode(d);
      && Field(v, "ts") == Int(d.ts) && Field(v, "callsTotal") == Int(d.callsTotal)
      && Field(v, "okTotal") == Int(d.okTotal)
  {
    hide Encode;
    hide Field;
    Named(d, 4, "ts");
    Named(d, 5, "callsTotal");
    Named(d, 6, "okTotal");
  }

  /** and what it links to. */
  lemma SnapshotLinkNames(d: Domain)
    requires d.Snapshot?
    ensures var v := Encode(d);
      && Field(v, "skillStats") == d.skillStats
      && Field(v, "repHead") == (if d.repHead.Some? then Str(d.repHead.value) else Null)
      && Field(v, "prevSnapshotRoot") == (if d.prevSnapshotRoot.Some? then Str(d.prevSnapshotRoot.value) else Null)
  {
    hide Encode;
    hide Field;
    Named(d, 7, "skillStats");
    Named(d, 8, "repHead");
    Named(d, 9, "prevSnapshotRoot");
  }

  // ---- Links ----

  /** The link to the attestation before, which a walk follows. */
  lemma AttestationReadsBack(d: Domain, signer: Text, key: Text)
    requires d.Attestation?
    ensures var text := StoredText(d, Sig(signer, Digest(d)));
      && (VerifyStored(text, key) <==> signer == key)
      && Parse(text).Done? && Field(Parse(text).value, "prevRoot") == NullableStr(d.prevRoot)
  {
    OwnRecordVerifiesIff(d, signer, key);
    MemberReadsBack(d, Sig(signer, Digest(d)), 7);
    assert Keys(d)[7] == "prevRoot" && Values(d)[7] == NullableStr(d.prevRoot);
  }

  /** The same for snapshots, whose statistics are free-form. */
  lemma SnapshotReadsBack(d: Domain, signer: Text, key: Text)
    requires d.Snapshot? && WellFormed(d)
    ensures var text := StoredText(d, Sig(signer, Digest(d)));
      && (VerifyStored(text, key) <==> signer == key)
      && Parse(text).Done? && Field(Parse(text).value, "prevSnapshotRoot") == NullableStr(d.prevSnapshotRoot)
  {
    OwnRecordVerifiesIff(d, signer, key);
    MemberReadsBack(d, Sig(signer, Digest(d)), 9);
    assert Keys(d)[9] == "prevSnapshotRoot" && Values(d)[9] == NullableStr(d.prevSnapshotRoot);
  }

  lemma StoredFields(ms: seq<Member>, s: Text)
    requires Valid(Obj(ms)) && Unsigned(ms)
    ensures var p := Parse(Stringify(WithSig(ms, s)));
      p.Done? && forall k :: k != SIG_KEY ==> Get(p.value, k) == Carried(Lookup(ms, k))
  {
    var all := ms + [Member(SIG_KEY, Str(s))];
    assert Valid(Obj(all));
    ParseUndoesStringify(Obj(all));
    forall k | k != SIG_KEY ensures Get(Wire(Obj(all)), k) == Carried(Lookup(ms, k)) {
      LookupWired(all, k);
      LookupBeforeSig(ms, s, k);
    }
  }

  lemma LookupBeforeSig(ms: seq<Member>, s: Text, k: Text)
    requires k != SIG_KEY
    ensures Lookup(ms + [Member(SIG_KEY, Str(s))], k) == Lookup(ms, k)
    decreases |ms|
  {
    var all := ms + [Member(SIG_KEY, Str(s))];
    if ms == [] {
      assert all[1..] == [];
    } else {
      LookupBeforeSig(ms[1..], s, k);
      assert all[1..] == ms[1..] + [Member(SIG_KEY, Str(s))];
    }
  }

  lemma LinkMember(d: Domain, i: nat)
    requires i < |Keys(d)|
    ensures Lookup(Members(d), Ascii(Keys(d)[i])) == Values(d)[i] && Ascii(Keys(d)[i]) != SIG_KEY
  {
    RecordIsUnsigned(d);
    ZipUnique(Keys(d), Values(d));
    LookupAt(Members(d), i);
    assert Members(d)[i].key != SIG_KEY;
  }
}
