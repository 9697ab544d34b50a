/**
 * What a successful streamed call says about the stream. The response does not bind the number of chunks, so a
 * network that loses the last ones goes unnoticed; a text skill's summary gives its caller a test.
 *
 * The runs that show it are built from those of DirectRun.
 */
module Completeness {
  import opened Wrappers
  import opened CodeUnits
  import opened Json
  import opened Domains
  import opened Caller
  import opened Envelope
  import opened Pipeline
  import opened DirectRun
  import R = Responder
  import B = LocalBus
  import G = AgentRun
  import N = NonceCache

  // ---- The caller's test ----

  /** An object meaning `{key: t}` reads as `t` at `key`. */
  lemma MeaningFixesField(v: Json, key: Text, t: Text)
    requires Valid(v) && Meaning(v) == Meaning(TextOutput(key, t))
    ensures Get(v, key) == Str(t)
  {
    var ms := TextOutput(key, t).members;
    FieldOfMember(ms, 0);
    assert v.Obj?;
    assert key in MeaningMembers(v.members) && MeaningMembers(v.members)[key] == VStr(t);
    var i := MemberOfField(v.members, key);
    FieldOfMember(v.members, i);
    LookupAt(v.members, i);
  }

  lemma ParsedTail(ps: seq<Poll>)
    requires ps != [] && Parsed(ps)
    ensures Parsed(ps[1..])
  {
    assert forall p :: p in ps[1..] ==> p in ps;
  }

  lemma ResponseIsValid(a: Args, ps: seq<Poll>)
    requires ps != [] && Parsed(ps) && IsResponseFor(a, ps[0])
    requires ResponseOutcome(a, ps[0].msg.value, ps[0].checkNow).Returned?
    ensures Valid(ResponseOutcome(a, ps[0].msg.value, ps[0].checkNow).output)
  {
    assert ps[0] in ps;
  }

  lemma {:induction false} ReturnedIsValid(a: Args, ps: seq<Poll>, next: nat)
    requires Parsed(ps) && Receive(a, ps, next).outcome.Returned?
    ensures Valid(Receive(a, ps, next).outcome.output)
    decreases |ps|
  {
    ParsedTail(ps);
    if IsChunkFor(a, ps[0]) {
      ReceiveChunk(a, ps, next);
      ReturnedIsValid(a, ps[1..], next + 1);
    } else if IsResponseFor(a, ps[0]) {
      ReceiveResponse(a, ps, next);
      ResponseIsValid(a, ps);
    } else if ps[0].msg.Some? && IsFor(a, ps[0].msg.value) {
      ReceiveMalformed(a, ps, next);
    } else {
      ReceiveOther(a, ps, next);
      ReturnedIsValid(a, ps[1..], next);
    }
  }

  /**
   * A text skill's call that succeeds, on any network that cannot forge: the summary is the trim of what was shown
   * if and only if nothing but white space is missing.
   */
  lemma SummaryTellsIff(a: Args, key: Text, stream: seq<R.Delta>, signed: set<Domain>, ps: seq<Poll>)
    requires OneRun(a, signed, R.Texts(stream), Some(Summary(key, stream)))
    requires Unforged(ps, a.expected, signed) && Parsed(ps)
    requires Receive(a, ps, 0).outcome.Returned?
    ensures var h := Receive(a, ps, 0); var n := ChunksBefore(a, ps);
      && n <= |R.Texts(stream)| && h.shown == R.Texts(stream)[..n]
      && Get(h.outcome.output, key) == Str(Trim(R.Spoken(stream)))
      && (Get(h.outcome.output, key) == Str(Trim(Concat(h.shown))) <==> Blank(Concat(R.Texts(stream)[n..])))
  {
    var h := Receive(a, ps, 0);
    var texts := R.Texts(stream);
    ShownIsGenuinePrefix(a, ps, signed, texts, Some(Summary(key, stream)));
    ShowsEverythingIff(a, ps, signed, texts, Some(Summary(key, stream)));
    ReturnedIsValid(a, ps, 0);
    MeaningFixesField(h.outcome.output, key, Trim(R.Spoken(stream)));
    ConcatPrefix(h.shown, texts);
    R.TextsKeepSpoken(stream);
    TrimUnchangedIff(Concat(h.shown), Concat(texts[|h.shown|..]));
  }

  // ---- A truncated run ----

  function RecordsOf(ms: seq<Msg>): set<Domain>
    requires Sound(ms)
  {
    set i | 0 <= i < |ms| :: Record(ms[i])
  }

  /** The network delivers the first `n` chunks and the response, and loses the rest. */
  function Truncated(a: Args, key: Text, stream: seq<R.Delta>, n: nat): seq<Msg>
    requires n <= |R.Texts(stream)|
  {
    ChunkRun(a, R.Texts(stream))[..n] + [SentResponse(a, Summary(key, stream), Summary(key, stream), 0)]
  }

  lemma TranscriptIsSound(a: Args, key: Text, stream: seq<R.Delta>)
    ensures Sound(Transcript(a, key, stream))
  {
    TranscriptIsServed(a, key, stream);
    ServedIsSound(a, key, stream, Transcript(a, key, stream));
  }

  lemma RecordAt(a: Args, key: Text, stream: seq<R.Delta>, i: nat)
    requires i < |Transcript(a, key, stream)| && SoundMessage(Transcript(a, key, stream)[i])
    ensures Record(Transcript(a, key, stream)[i]) ==
      if i < |R.Texts(stream)| then Domain.Chunk(a.id, i, R.Texts(stream)[i], a.expected, a.me, a.skill, 0)
      else Domain.ResOk(a.id, Summary(key, stream), a.expected, a.me, a.skill, 0)
  {
  }

  lemma RecordsAreOneRun(a: Args, key: Text, stream: seq<R.Delta>)
    ensures Sound(Transcript(a, key, stream))
    ensures OneRun(a, RecordsOf(Transcript(a, key, stream)), R.Texts(stream), Some(Summary(key, stream)))
  {
    var sent := Transcript(a, key, stream);
    TranscriptIsSound(a, key, stream);
    SummaryIsValid(key, stream);
    forall d | d in RecordsOf(sent)
      ensures WellFormed(d) && (d.Chunk? || d.ResOk?)
      ensures d.Chunk? ==> 0 <= d.seqNo < |R.Texts(stream)| && d.text == R.Texts(stream)[d.seqNo]
      ensures d.ResOk? ==> d.output == Summary(key, stream)
    {
      var i :| 0 <= i < |sent| && d == Record(sent[i]);
      RecordAt(a, key, stream, i);
    }
  }

  lemma TruncatedFromTranscript(a: Args, key: Text, stream: seq<R.Delta>, n: nat, i: nat)
    requires n <= |R.Texts(stream)| && i < |Truncated(a, key, stream, n)|
    ensures Truncated(a, key, stream, n)[i] ==
      Transcript(a, key, stream)[if i < n then i else |Transcript(a, key, stream)| - 1]
  {
  }

  lemma TruncatedIsPlain(a: Args, key: Text, stream: seq<R.Delta>, n: nat)
    requires n <= |R.Texts(stream)|
    ensures forall i :: 0 <= i < |Truncated(a, key, stream, n)| ==>
      Plain(a, Truncated(a, key, stream, n)[i]) && Truncated(a, key, stream, n)[i] in Transcript(a, key, stream)
  {
    TranscriptIsPlain(a, key, stream);
    var sent, part := Transcript(a, key, stream), Truncated(a, key, stream, n);
    forall i | 0 <= i < |part| ensures Plain(a, part[i]) && part[i] in sent {
      TruncatedFromTranscript(a, key, stream, n, i);
    }
  }

  /** Every polled message is one of those sent, so nothing is forged. */
  lemma {:induction false} PollsOfSent(a: Args, part: seq<Msg>, sent: seq<Msg>)
    requires Sound(sent) && forall i :: 0 <= i < |part| ==> part[i] in sent
    requires forall m :: m in part ==> Seen(m) == m
    ensures forall p :: p in PollsOf(a, Packets(a, part)) ==> p.msg.Some? && p.msg.value in sent
  {
    var packets := Packets(a, part);
    forall p | p in PollsOf(a, packets) ensures p.msg.Some? && p.msg.value in sent {
      PollsAreRead(a, packets, p);
      var q :| q in packets && p.msg == Some(ReadMessage(q.body));
      PacketsArePrinted(a, part, q);
      var m :| m in part && q.body == PrintOne(m);
      var j :| 0 <= j < |sent| && sent[j] == m;
      MessageRoundTrip(m);
    }
  }

  lemma {:induction false} PollsAreRead(a: Args, packets: seq<B.Packet>, p: Poll)
    requires p in PollsOf(a, packets)
    ensures exists q :: q in packets && p.msg == Some(ReadMessage(q.body))
  {
    if p != PollsOf(a, packets)[0] {
      PollsAreRead(a, packets[1..], p);
    } else {
      assert packets[0] in packets;
    }
  }

  lemma {:induction false} PacketsArePrinted(a: Args, ms: seq<Msg>, q: B.Packet)
    requires q in Packets(a, ms)
    ensures exists m :: m in ms && q.body == PrintOne(m)
  {
    if q in Packets(a, ms[..|ms| - 1]) {
      PacketsArePrinted(a, ms[..|ms| - 1], q);
    } else {
      assert ms[|ms| - 1] in ms;
    }
  }

  lemma SentIsUnforged(a: Args, ps: seq<Poll>, sent: seq<Msg>)
    requires Sound(sent) && forall p :: p in ps ==> p.msg.Some? && p.msg.value in sent
    requires forall m :: m in sent ==> IsSigned(a, m)
    ensures Unforged(ps, a.expected, RecordsOf(sent)) && Parsed(ps)
  {
    forall p | p in ps && p.msg.Some? && (p.msg.value.ChunkMsg? || p.msg.value.ResMsg?)
      ensures exists d :: d in RecordsOf(sent) && Digest(d) == p.msg.value.sig.digest
    {
      var j :| 0 <= j < |sent| && sent[j] == p.msg.value;
      assert Record(sent[j]) in RecordsOf(sent);
    }
  }

  predicate IsSigned(a: Args, m: Msg) {
    (m.ChunkMsg? || m.ResMsg?) && Verifies(m, a.expected)
  }

  lemma TranscriptIsSigned(a: Args, key: Text, stream: seq<R.Delta>)
    ensures forall m :: m in Transcript(a, key, stream) ==> IsSigned(a, m)
  {
    var chunks := ChunkRun(a, R.Texts(stream));
    forall i | 0 <= i < |chunks| ensures IsSigned(a, chunks[i]) {
      assert chunks[i] == SentChunk(a, i, R.Texts(stream)[i], 0);
    }
  }

  lemma SeenAsTheyAre(ms: seq<Msg>, last: Msg)
    requires forall i :: 0 <= i < |ms| ==> ms[i].ChunkMsg?
    requires SoundMessage(last) && Seen(last) == last
    ensures forall m :: m in ms + [last] ==> Seen(m) == m
    ensures Sound(ms + [last]) && SeenAll(ms + [last]) == ms + [last]
  {
    SeenPush(ms, last);
    SeenChunks(ms);
    SoundPush(ms, last);
  }

  lemma SeenChunks(ms: seq<Msg>)
    requires forall i :: 0 <= i < |ms| ==> ms[i].ChunkMsg?
    ensures Sound(ms) && SeenAll(ms) == ms
  {
  }

  lemma TruncatedIsSeen(a: Args, key: Text, stream: seq<R.Delta>, n: nat)
    requires n <= |R.Texts(stream)|
    ensures forall m :: m in Truncated(a, key, stream, n) ==> Seen(m) == m
    ensures Sound(Truncated(a, key, stream, n))
    ensures SeenAll(Truncated(a, key, stream, n)) == Truncated(a, key, stream, n)
  {
    var last := SentResponse(a, Summary(key, stream), Summary(key, stream), 0);
    SummaryIsSound(a, key, stream, last);
    SeenAsTheyAre(ChunkRun(a, R.Texts(stream))[..n], last);
  }

  lemma PolledAreRelevant(a: Args, part: seq<Msg>)
    requires Sound(part) && forall i :: 0 <= i < |part| ==> Plain(a, part[i])
    ensures Relevant(a, PollsOf(a, Packets(a, part))) == SeenAll(part)
  {
    var packets := Packets(a, part);
    PacketsOfCall(a, part);
    PollsReadAll(a, packets);
    CallBodiesSeen(a, packets, part, ReadMessage);
    RelevantIsForCall(a, PollsOf(a, packets));
  }

  lemma ChunksOfRun(a: Args, texts: seq<Text>)
    ensures AreChunks(a, ChunkRun(a, texts), texts, 0)
  {
  }

  /**
   * Every stream and every place to cut it has an honest run, with nothing forged, in which the call succeeds and
   * only the texts before the cut were shown.
   */
  lemma TruncatedRun(a: Args, key: Text, stream: seq<R.Delta>, n: nat) returns (signed: set<Domain>, ps: seq<Poll>)
    requires a.maxAge >= 0 && n <= |R.Texts(stream)|
    ensures Sound(Transcript(a, key, stream)) && signed == RecordsOf(Transcript(a, key, stream))
    ensures OneRun(a, signed, R.Texts(stream), Some(Summary(key, stream)))
    ensures Unforged(ps, a.expected, signed) && Parsed(ps)
    ensures Receive(a, ps, 0) == Heard(Returned(Summary(key, stream)), R.Texts(stream)[..n])
  {
    var texts, sent, part := R.Texts(stream), Transcript(a, key, stream), Truncated(a, key, stream, n);
    RecordsAreOneRun(a, key, stream);
    signed := RecordsOf(sent);
    ps := PollsOf(a, Packets(a, part));
    TruncatedIsPlain(a, key, stream, n);
    TruncatedIsSeen(a, key, stream, n);
    PollsOfSent(a, part, sent);
    TranscriptIsSigned(a, key, stream);
    SentIsUnforged(a, ps, sent);
    PacketsAreTimed(a, part);
    PollsAreTimely(a, Packets(a, part));
    PolledAreRelevant(a, part);
    ChunksOfRun(a, texts);
    SummaryIsValid(key, stream);
    AnyPrefixCanSucceed(a, ps, ChunkRun(a, texts), texts, n, Summary(key, stream), 0);
  }

  // ---- A run of the agent that serves the call ----

  function OneDelivery(a: Args, key: Text, stream: seq<R.Delta>, signed: set<Domain>): G.Delivery {
    G.Delivery(a.me, a.id, a.me, a.skill, N.Request("nonce", 0), 0, true, true, true, R.Texts(stream),
               R.Returns(Summary(key, stream)), signed)
  }

  lemma OneDeliveryIsRun(a: Args, key: Text, stream: seq<R.Delta>, signed: set<Domain>)
    requires OneRun(a, signed, R.Texts(stream), Some(Summary(key, stream)))
    requires forall x :: x in signed ==> R.IsOwnRecord(a, x)
    ensures var ds := [OneDelivery(a, key, stream, signed)];
      && G.IsRun(a.expected, ds, 0, 1) && G.CopiesAreVerbatim(ds) && N.RateBelow(G.Arrivals(ds), 0, 1)
      && G.Serves(ds, 0, a, 0, 1) && G.AllSigned(ds) == signed
  {
    var ds := [OneDelivery(a, key, stream, signed)];
    assert G.Arrivals(ds)[..0] == [] && N.Cache([], 0, 1) == [];
    assert N.Passes(G.Arrivals(ds), 0, 0, 1);
    var none: seq<G.Delivery> := ds[..0];
    assert none == [] && G.AllSigned(none) == {};
  }

  lemma RecordsAreTheCalls(a: Args, key: Text, stream: seq<R.Delta>)
    requires Sound(Transcript(a, key, stream))
    ensures forall x :: x in RecordsOf(Transcript(a, key, stream)) ==> R.IsOwnRecord(a, x)
  {
    var sent := Transcript(a, key, stream);
    forall x | x in RecordsOf(sent) ensures R.IsOwnRecord(a, x) {
      var i :| 0 <= i < |sent| && x == Record(sent[i]);
      RecordAt(a, key, stream, i);
    }
  }

  /**
   * Every stream has a run of the agent that serves it, and a caller that shows all of it and returns the summary:
   * what is proved of such runs is about calls that happen.
   */
  lemma EveryStreamCanBeServed(a: Args, key: Text, stream: seq<R.Delta>)
    returns (ds: seq<G.Delivery>, ps: seq<Poll>)
    requires a.maxAge >= 0
    ensures G.IsRun(a.expected, ds, 0, 1) && G.CopiesAreVerbatim(ds) && N.RateBelow(G.Arrivals(ds), 0, 1)
    ensures G.Serves(ds, 0, a, 0, 1)
    ensures Unforged(ps, a.expected, G.AllSigned(ds)) && Parsed(ps)
    ensures Receive(a, ps, 0) == Heard(Returned(Summary(key, stream)), R.Texts(stream))
    ensures ReceiveFinal(a, ps) == Returned(Summary(key, stream))
  {
    var signed;
    signed, ps := TruncatedRun(a, key, stream, |R.Texts(stream)|);
    assert R.Texts(stream)[..|R.Texts(stream)|] == R.Texts(stream);
    RecordsAreOneRun(a, key, stream);
    RecordsAreTheCalls(a, key, stream);
    ds := [OneDelivery(a, key, stream, signed)];
    OneDeliveryIsRun(a, key, stream, signed);
    LoopsAgree(a, ps, 0);
  }
}
