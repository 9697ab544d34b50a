/**
 * The whole streaming path: a text skill's generator, the agent's signed chunks, the FIFO bus, the caller's receive
 * loop, the chunk channel, the printed server events and the panel that parses them.
 *
 * One stage after the other, each with what it hands on to the next.
 */
module Pipeline {
  import opened Wrappers
  import opened CodeUnits
  import opened Json
  import opened Domains
  import opened Caller
  import opened Envelope
  import R = Responder
  import B = LocalBus
  import Ch = Channel
  import S = Sse
  import F = Framing

  // ---- The agent ----

  /** What a text skill returns: `{summary}` or `{text}`, as `key` says. */
  function TextOutput(key: Text, t: Text): Json {
    Obj([Member(key, Str(t))])
  }

  function Summary(key: Text, stream: seq<R.Delta>): Json {
    TextOutput(key, Trim(R.Spoken(stream)))
  }

  /** Chunks 0..k-1 of the stream's texts and then exactly one response, with the trimmed whole. */
  ghost predicate Served(a: Args, key: Text, stream: seq<R.Delta>, sent: seq<Msg>) {
    var k := |R.Texts(stream)|;
    && |sent| == k + 1
    && AreChunks(a, sent[..k], R.Texts(stream), 0)
    && R.IsAnswer(a, Summary(key, stream), sent[k])
  }

  lemma SummaryIsValid(key: Text, stream: seq<R.Delta>)
    ensures Valid(Summary(key, stream))
  {
  }

  /** With every send getting through, generator and agent together serve the stream. */
  method ServeTextSkill(a: Args, key: Text, stream: seq<R.Delta>, clock: nat -> int, up: nat -> bool)
    returns (sent: seq<Msg>, signed: set<Domain>)
    requires forall n: nat :: up(n)
    ensures Served(a, key, stream, sent)
    ensures OneRun(a, signed, R.Texts(stream), Some(Summary(key, stream)))
  {
    var texts, result := R.StreamHandler(stream);
    SummaryIsValid(key, stream);
    var k, attest;
    sent, k, attest, signed := R.Serve(a, texts, R.Returns(TextOutput(key, result)), [], clock, up);
    assert sent[..k] == sent[..|texts|] && texts[..k] == texts;
  }

  // ---- The bus ----

  function PolledMessages(ps: seq<Poll>): seq<Msg> {
    if ps == [] then []
    else (if ps[0].msg.Some? then [ps[0].msg.value] else []) + PolledMessages(ps[1..])
  }

  function ReadAll(packets: seq<B.Packet>, read: Text -> Msg): seq<Msg> {
    if packets == [] then [] else [read(packets[0].body)] + ReadAll(packets[1..], read)
  }

  function ForCall(a: Args, ms: seq<Msg>): seq<Msg> {
    if ms == [] then [] else (if IsFor(a, ms[0]) then [ms[0]] else []) + ForCall(a, ms[1..])
  }

  /** The bodies among the packets that are about this call, malformed ones included, as `read` reads them. */
  function CallBodies(a: Args, packets: seq<B.Packet>, read: Text -> Msg): seq<Text> {
    if packets == [] then []
    else
      (if IsFor(a, read(packets[0].body)) then [packets[0].body] else []) + CallBodies(a, packets[1..], read)
  }

  predicate SoundMessage(m: Msg) {
    m.ChunkMsg? || (m.ResMsg? && (m.body.OkBody? ==> Valid(m.body.output)))
  }

  predicate Sound(ms: seq<Msg>) {
    forall i :: 0 <= i < |ms| ==> SoundMessage(ms[i])
  }

  /** What `sendJson` puts on the bus. */
  function Printed(ms: seq<Msg>): seq<Text> {
    if ms == [] then [] else [PrintOne(ms[0])] + Printed(ms[1..])
  }

  function SeenAll(ms: seq<Msg>): (r: seq<Msg>)
    ensures |r| == |ms| && forall i :: 0 <= i < |ms| ==> r[i] == Seen(ms[i])
  {
    if ms == [] then [] else [Seen(ms[0])] + SeenAll(ms[1..])
  }

  lemma {:induction false} RelevantIsForCall(a: Args, ps: seq<Poll>)
    ensures Relevant(a, ps) == ForCall(a, PolledMessages(ps))
  {
    if ps != [] {
      RelevantIsForCall(a, ps[1..]);
      RelevantStep(a, ps);
      var rest := PolledMessages(ps[1..]);
      if ps[0].msg.Some? {
        assert PolledMessages(ps) == [ps[0].msg.value] + rest;
        assert PolledMessages(ps)[1..] == rest;
      } else {
        assert PolledMessages(ps) == rest;
      }
    }
  }

  lemma {:induction false} CallBodiesSeen(a: Args, packets: seq<B.Packet>, ms: seq<Msg>, read: Text -> Msg)
    requires Sound(ms) && Agrees(read, ms) && CallBodies(a, packets, read) == Printed(ms)
    ensures ForCall(a, ReadAll(packets, read)) == SeenAll(ms)
    decreases |packets|
  {
    if packets != [] {
      var body := packets[0].body;
      assert ReadAll(packets, read)[1..] == ReadAll(packets[1..], read);
      if IsFor(a, read(body)) {
        assert ms != [] && CallBodies(a, packets, read)[0] == Printed(ms)[0];
        assert CallBodies(a, packets, read)[1..] == CallBodies(a, packets[1..], read);
        assert Printed(ms)[1..] == Printed(ms[1..]);
        MessageRoundTrip(ms[0]);
        CallBodiesSeen(a, packets[1..], ms[1..], read);
      } else {
        CallBodiesSeen(a, packets[1..], ms, read);
      }
    }
  }

  /**
   * Once the caller's inbox is drained, what its loop has to look at is the agent's messages as sent, in order,
   * whatever else was put into the inbox in between, as long as the reader finds this call's id in none of it.
   */
  lemma BusDelivers(a: Args, es: seq<B.Event>, ps: seq<Poll>, sent: seq<Msg>, read: Text -> Msg)
    requires Sound(sent) && Agrees(read, sent) && CallBodies(a, B.SentTo(es, a.me), read) == Printed(sent)
    requires B.Drained(es, a.me) && PolledMessages(ps) == ReadAll(B.GotBy(es, a.me), read)
    ensures Relevant(a, ps) == SeenAll(sent)
  {
    B.Fifo(es, a.me);
    var got := B.GotBy(es, a.me);
    assert got + [] == got;
    CallBodiesSeen(a, got, sent, read);
    RelevantIsForCall(a, ps);
  }

  // ---- The caller ----

  lemma ChunksAreSound(a: Args, ms: seq<Msg>, texts: seq<Text>)
    requires AreChunks(a, ms, texts, 0)
    ensures Sound(ms) && SeenAll(ms) == ms
  {
  }

  lemma SummaryIsSound(a: Args, key: Text, stream: seq<R.Delta>, m: Msg)
    requires R.IsAnswer(a, Summary(key, stream), m)
    ensures SoundMessage(m) && Seen(m) == m
  {
    SummaryIsValid(key, stream);
    SummaryCarried(key, stream);
  }

  lemma SoundPush(ms: seq<Msg>, last: Msg)
    requires Sound(ms) && SoundMessage(last)
    ensures Sound(ms + [last])
  {
  }

  /** A text skill's output is not changed by the wire. */
  lemma SummaryCarried(key: Text, stream: seq<R.Delta>)
    ensures Carried(Summary(key, stream)) == Summary(key, stream)
  {
    var ms := [Member(key, Str(Trim(R.Spoken(stream))))];
    assert ms[1..] == [];
    assert WireMembers(ms) == ms + [];
  }

  lemma SeenPush(ms: seq<Msg>, last: Msg)
    ensures SeenAll(ms + [last]) == SeenAll(ms) + [Seen(last)]
  {
  }

  lemma FrontAndLast(sent: seq<Msg>, k: nat)
    requires |sent| == k + 1
    ensures sent == sent[..k] + [sent[k]]
  {
  }

  /** Everything sent is well formed, and no message is changed by the wire. */
  lemma ServedIsSound(a: Args, key: Text, stream: seq<R.Delta>, sent: seq<Msg>)
    requires Served(a, key, stream, sent)
    ensures Sound(sent) && SeenAll(sent) == sent
  {
    var k := |R.Texts(stream)|;
    SummaryIsSound(a, key, stream, sent[k]);
    ChunksAreSound(a, sent[..k], R.Texts(stream));
    SoundPush(sent[..k], sent[k]);
    SeenPush(sent[..k], sent[k]);
    FrontAndLast(sent, k);
  }

  /** In time and in order, the caller shows every delta and returns the summary. */
  lemma CallerHears(a: Args, key: Text, stream: seq<R.Delta>, sent: seq<Msg>, ps: seq<Poll>)
    requires Served(a, key, stream, sent) && Relevant(a, ps) == sent && Timely(a, ps)
    ensures Receive(a, ps, 0) == Heard(Returned(Summary(key, stream)), R.Texts(stream))
  {
    var k := |R.Texts(stream)|;
    FrontAndLast(sent, k);
    SummaryIsValid(key, stream);
    InOrderDelivery(a, ps, 0, sent[..k], R.Texts(stream), Summary(key, stream), Summary(key, stream), sent[k].ts);
  }

  lemma ConcatPrefix(s: seq<Text>, t: seq<Text>)
    requires s <= t
    ensures Concat(t) == Concat(s) + Concat(t[|s|..])
  {
    ConcatAppend(s, t[|s|..]);
    assert s + t[|s|..] == t;
  }

  /**
   * On any network that cannot forge, whatever else the agent's key signs for other calls: the text the caller has
   * shown is at every moment a prefix of what the model said, and a summary it returns is the trimmed whole.
   */
  lemma ShownIsPrefixOfSpoken(
      a: Args, key: Text, stream: seq<R.Delta>, signed: set<Domain>, others: set<Domain>, ps: seq<Poll>)
    requires OneRun(a, signed, R.Texts(stream), Some(Summary(key, stream)))
    requires forall d :: d in others ==> WellFormed(d)
    requires forall d :: d in others && (d.Chunk? || d.ResOk?) ==>
      d.id != a.id || d.caller != a.me || d.skill != a.skill
    requires Unforged(ps, a.expected, signed + others) && Parsed(ps)
    ensures Concat(Receive(a, ps, 0).shown) <= R.Spoken(stream)
    ensures Receive(a, ps, 0).outcome.Returned? ==>
      Meaning(Receive(a, ps, 0).outcome.output) == Meaning(Summary(key, stream))
  {
    R.OtherRecordsDoNotMatter(a, signed, others, R.Texts(stream), Some(Summary(key, stream)));
    ShownIsGenuinePrefix(a, ps, signed + others, R.Texts(stream), Some(Summary(key, stream)));
    ConcatPrefix(Receive(a, ps, 0).shown, R.Texts(stream));
    R.TextsKeepSpoken(stream);
  }

  // ---- The channel and the server events ----

  /** What `onChunk` pushes. */
  function Numbered(texts: seq<Text>, from: nat): (r: seq<Ch.Chunk<Text>>)
    ensures |r| == |texts| && forall i :: 0 <= i < |r| ==> r[i] == Ch.Chunk(from + i, texts[i])
  {
    if texts == [] then [] else [Ch.Chunk(from, texts[0])] + Numbered(texts[1..], from + 1)
  }

  const SEQ_KEY: Text := Ascii("seq")
  const OUTPUT_KEY: Text := Ascii("output")

  function ChunkEvent(c: Ch.Chunk<Text>): S.ServerEvent {
    S.ServerEvent(S.CHUNK, Obj([Member(SEQ_KEY, Int(c.seqNo)), Member(S.TEXT_KEY, Str(c.text))]))
  }

  function ChunkEvents(cs: seq<Ch.Chunk<Text>>): seq<S.ServerEvent> {
    if cs == [] then [] else [ChunkEvent(cs[0])] + ChunkEvents(cs[1..])
  }

  predicate AllTraces(es: seq<S.ServerEvent>) {
    forall i :: 0 <= i < |es| ==> es[i].name == S.TRACE
  }

  /** The events of one successful streamed call. */
  function CallEvents(
      before: seq<S.ServerEvent>, cs: seq<Ch.Chunk<Text>>, after: seq<S.ServerEvent>, final: Json)
    : seq<S.ServerEvent>
  {
    before + ChunkEvents(cs) + after + [S.ServerEvent(S.FINAL, final)]
  }

  predicate Reports(final: Json, output: Json) {
    Valid(final) && final.Obj? && Get(final, S.OK_KEY) == Bool(true) && Get(final, OUTPUT_KEY) == output
  }

  lemma ChunkEventReceived(c: Ch.Chunk<Text>)
    ensures S.Received(ChunkEvent(c)) == ChunkEvent(c)
    ensures Get(ChunkEvent(c).data, S.TEXT_KEY) == Str(c.text)
    ensures S.Sendable(ChunkEvent(c))
  {
    var ms := ChunkEvent(c).data.members;
    assert ms[1..][1..] == [];
    assert WireMembers(ms[1..]) == ms[1..];
    assert WireMembers(ms) == ms;
    assert SEQ_KEY[0] != S.TEXT_KEY[0];
    assert Lookup(ms[1..], S.TEXT_KEY) == Str(c.text);
  }

  lemma ReceivedFirst(e: S.ServerEvent, es: seq<S.ServerEvent>)
    ensures S.ReceivedAll([e] + es) == [S.Received(e)] + S.ReceivedAll(es)
  {
  }

  lemma ReceivedAppend(xs: seq<S.ServerEvent>, ys: seq<S.ServerEvent>)
    ensures S.ReceivedAll(xs + ys) == S.ReceivedAll(xs) + S.ReceivedAll(ys)
  {
  }

  lemma {:induction false} ShowAppend(p: S.Panel, xs: seq<S.ServerEvent>, ys: seq<S.ServerEvent>, str: Json -> Text)
    ensures S.ShowAll(p, xs + ys, str) == S.ShowAll(S.ShowAll(p, xs, str), ys, str)
  {
    if ys == [] {
      assert xs + ys == xs;
    } else {
      ShowAppend(p, xs, ys[..|ys| - 1], str);
      assert (xs + ys)[..|xs + ys| - 1] == xs + ys[..|ys| - 1];
    }
  }

  lemma ShowFirst(p: S.Panel, e: S.ServerEvent, es: seq<S.ServerEvent>, str: Json -> Text)
    ensures S.ShowAll(p, [e] + es, str) == S.ShowAll(S.Show(p, e, str), es, str)
  {
    ShowAppend(p, [e], es, str);
    var none: seq<S.ServerEvent> := [e][..0];
    assert none == [] && S.ShowAll(p, none, str) == p;
  }

  lemma ShowTrace(p: S.Panel, e: S.ServerEvent, str: Json -> Text)
    requires e.name == S.TRACE && !p.crashed
    ensures S.Show(p, S.Received(e), str) == p.(trace := p.trace + [Wire(e.data)])
  {
  }

  function Payloads(es: seq<S.ServerEvent>): seq<Json> {
    if es == [] then [] else [Wire(es[0].data)] + Payloads(es[1..])
  }

  /** Trace events touch nothing but the trace, which lists their payloads. */
  lemma {:induction false} ShowTraces(p: S.Panel, es: seq<S.ServerEvent>, str: Json -> Text)
    requires AllTraces(es) && !p.crashed
    ensures var q := S.ShowAll(p, S.ReceivedAll(es), str);
      q == p.(trace := p.trace + Payloads(es))
    decreases |es|
  {
    hide S.Received;
    hide S.Show;
    if es != [] {
      ShowTrace(p, es[0], str);
      ReceivedFirst(es[0], es[1..]);
      assert es == [es[0]] + es[1..];
      ShowFirst(p, S.Received(es[0]), S.ReceivedAll(es[1..]), str);
      ShowTraces(S.Show(p, S.Received(es[0]), str), es[1..], str);
      assert p.trace + [Wire(es[0].data)] + Payloads(es[1..]) == p.trace + Payloads(es);
    } else {
      assert p.trace + [] == p.trace;
    }
  }

  lemma ShowChunk(p: S.Panel, c: Ch.Chunk<Text>, str: Json -> Text)
    requires !p.crashed && str(Str(c.text)) == c.text
    ensures S.Show(p, ChunkEvent(c), str) == p.(streamText := p.streamText + c.text)
  {
    ChunkEventReceived(c);
    assert |S.CHUNK| == |S.TRACE| && S.CHUNK[0] != S.TRACE[0];
  }

  lemma ChunkEventsStep(texts: seq<Text>, from: nat)
    requires texts != []
    ensures S.ReceivedAll(ChunkEvents(Numbered(texts, from))) ==
      [ChunkEvent(Ch.Chunk(from, texts[0]))] + S.ReceivedAll(ChunkEvents(Numbered(texts[1..], from + 1)))
  {
    var c, cs := Ch.Chunk(from, texts[0]), Numbered(texts[1..], from + 1);
    ChunkEventReceived(c);
    assert Numbered(texts, from)[1..] == cs;
    ReceivedFirst(ChunkEvent(c), ChunkEvents(cs));
  }

  lemma AppendText(acc: Text, texts: seq<Text>)
    requires texts != []
    ensures (acc + texts[0]) + Concat(texts[1..]) == acc + Concat(texts)
  {
    ConcatFirst(texts);
  }

  /** Chunk events append their texts, in order. */
  lemma {:induction false} ShowChunks(p: S.Panel, texts: seq<Text>, from: nat, str: Json -> Text)
    requires !p.crashed && forall t :: str(Str(t)) == t
    ensures S.ShowAll(p, S.ReceivedAll(ChunkEvents(Numbered(texts, from))), str) ==
      p.(streamText := p.streamText + Concat(texts))
    decreases |texts|
  {
    if texts == [] {
      assert p.streamText + [] == p.streamText;
    } else {
      var c := Ch.Chunk(from, texts[0]);
      var q := p.(streamText := p.streamText + texts[0]);
      ChunkEventsStep(texts, from);
      ShowFirst(p, ChunkEvent(c), S.ReceivedAll(ChunkEvents(Numbered(texts[1..], from + 1))), str);
      ShowChunk(p, c, str);
      ShowChunks(q, texts[1..], from + 1, str);
      AppendText(p.streamText, texts);
    }
  }

  lemma ShowFinal(p: S.Panel, final: Json, output: Json, str: Json -> Text)
    requires !p.crashed && Reports(final, output)
    ensures var q := S.Show(p, S.Received(S.ServerEvent(S.FINAL, final)), str);
      && q.streamText == p.streamText && q.trace == p.trace && q.error == p.error && !q.crashed
      && q.result == Some(Wire(final)) && Get(Wire(final), OUTPUT_KEY) == Carried(output)
  {
    LookupWired(final.members, S.OK_KEY);
    LookupWired(final.members, OUTPUT_KEY);
    assert S.FINAL[0] != S.TRACE[0] && S.FINAL[0] != S.CHUNK[0];
  }

  /** A final event of a call that failed shows its error too. */
  lemma ShowFailure(p: S.Panel, final: Json, why: Text, str: Json -> Text)
    requires !p.crashed && Valid(final)
    requires Get(final, S.OK_KEY) == Bool(false) && Get(final, S.ERROR) == Str(why) && why != []
    ensures S.Show(p, S.Received(S.ServerEvent(S.FINAL, final)), str) ==
      p.(result := Some(Wire(final)), error := Some(Str(why)))
  {
    LookupWired(final.members, S.OK_KEY);
    LookupWired(final.members, S.ERROR);
    assert S.FINAL[0] != S.TRACE[0] && S.FINAL[0] != S.CHUNK[0];
  }

  /** An error event shows its error and keeps the text and the trace so far. */
  lemma ShowError(p: S.Panel, data: Json, why: Text, str: Json -> Text)
    requires !p.crashed && Valid(data) && Get(data, S.ERROR) == Str(why)
    ensures S.Show(p, S.Received(S.ServerEvent(S.ERROR, data)), str) == p.(error := Some(Str(why)))
  {
    LookupWired(data.members, S.ERROR);
    assert S.ERROR[0] != S.TRACE[0] && S.ERROR[0] != S.CHUNK[0] && S.ERROR[0] != S.FINAL[0];
  }

  /** The panel after all the events of a successful call, one after the other. */
  lemma ShowCall(
      before: seq<S.ServerEvent>, texts: seq<Text>, after: seq<S.ServerEvent>, final: Json, output: Json,
      str: Json -> Text)
    requires AllTraces(before) && AllTraces(after) && Reports(final, output)
    requires forall t :: str(Str(t)) == t
    ensures var q := S.ShowAll(S.BLANK_PANEL, S.ReceivedAll(CallEvents(before, Numbered(texts, 0), after, final)), str);
      && q.streamText == Concat(texts) && q.trace == Payloads(before) + Payloads(after)
      && q.error.None? && !q.crashed
      && q.result == Some(Wire(final)) && Get(Wire(final), OUTPUT_KEY) == Carried(output)
  {
    var chunks := ChunkEvents(Numbered(texts, 0));
    var last := S.ServerEvent(S.FINAL, final);
    ReceivedAppend(before + chunks + after, [last]);
    ReceivedAppend(before + chunks, after);
    ReceivedAppend(before, chunks);
    var b, c, d := S.ReceivedAll(before), S.ReceivedAll(chunks), S.ReceivedAll(after);
    var p1 := S.ShowAll(S.BLANK_PANEL, b, str);
    var p2 := S.ShowAll(p1, c, str);
    var p3 := S.ShowAll(p2, d, str);
    ShowAppend(S.BLANK_PANEL, b, c, str);
    ShowAppend(S.BLANK_PANEL, b + c, d, str);
    ShowAppend(S.BLANK_PANEL, b + c + d, [S.Received(last)], str);
    ShowFirst(p3, S.Received(last), [], str);
    ShowTraces(S.BLANK_PANEL, before, str);
    ShowChunks(p1, texts, 0, str);
    ShowTraces(p2, after, str);
    ShowFinal(p3, final, output, str);
    assert [] + Payloads(before) == Payloads(before);
  }

  // ---- End to end ----

  /**
   * The agent's messages went over the bus, nothing else in the caller's inbox is about this call, and the caller
   * has emptied it.
   */
  ghost predicate WentOver(a: Args, sent: seq<Msg>, bus: seq<B.Event>, ps: seq<Poll>, read: Text -> Msg) {
    && Agrees(read, sent)
    && CallBodies(a, B.SentTo(bus, a.me), read) == Printed(sent)
    && B.Drained(bus, a.me)
    && PolledMessages(ps) == ReadAll(B.GotBy(bus, a.me), read)
  }

  /** Every chunk shown was pushed in turn, and the generator of events has left its loop. */
  predicate Channelled(texts: seq<Text>, schedule: seq<Ch.Event<Text>>) {
    Ch.PushedBy(schedule) == Numbered(texts, 0) && Ch.Run(Ch.Init(), schedule).consumer.Finished?
  }

  function Yielded(schedule: seq<Ch.Event<Text>>): seq<Ch.Chunk<Text>> {
    Ch.Run(Ch.Init(), schedule).yielded
  }

  predicate PrintedAs(es: seq<S.ServerEvent>, pieces: seq<Text>) {
    S.AllSendable(es) && Concat(pieces) == S.Print(es)
  }

  /** Everything that happens between the agent and the panel in one streamed call. */
  datatype Session = Session(
    sent: seq<Msg>,
    bus: seq<B.Event>,
    ps: seq<Poll>,
    schedule: seq<Ch.Event<Text>>,
    before: seq<S.ServerEvent>,
    after: seq<S.ServerEvent>,
    final: Json,
    pieces: seq<Text>)

  /** The server events of a session. */
  function EventsOf(run: Session): seq<S.ServerEvent> {
    CallEvents(run.before, Yielded(run.schedule), run.after, run.final)
  }

  /**
   * A session of a call that streams `stream`: the agent serves it, its messages go over the bus and are polled in
   * time, the texts shown go through the channel, and the events are printed and read in some pieces.
   */
  ghost predicate IsSession(a: Args, key: Text, stream: seq<R.Delta>, run: Session, read: Text -> Msg) {
    var h := Receive(a, run.ps, 0);
    && Served(a, key, stream, run.sent)
    && WentOver(a, run.sent, run.bus, run.ps, read) && Timely(a, run.ps)
    && Channelled(h.shown, run.schedule)
    && AllTraces(run.before) && AllTraces(run.after)
    && (h.outcome.Returned? ==> Reports(run.final, h.outcome.output))
    && PrintedAs(EventsOf(run), run.pieces)
  }

  function PanelOf(run: Session, str: Json -> Text): S.Panel {
    S.ShowFrames(S.BLANK_PANEL, F.Feed(run.pieces).frames, str)
  }

  /**
   * For every interleaving of agent, bus and caller, every schedule of the channel and every split of the server's
   * text into reads, as long as no timeout or freshness check fires: the panel shows exactly what the model said,
   * and the summary it is given is that text trimmed.
   */
  lemma StreamReachesThePanel(
      a: Args, key: Text, stream: seq<R.Delta>, run: Session, read: Text -> Msg, str: Json -> Text)
    requires IsSession(a, key, stream, run, read)
    requires forall t :: str(Str(t)) == t
    ensures Receive(a, run.ps, 0) == Heard(Returned(Summary(key, stream)), R.Texts(stream))
    ensures var panel := PanelOf(run, str);
      && panel.streamText == R.Spoken(stream)
      && panel.error.None? && !panel.crashed && panel.result.Some?
      && Get(Get(panel.result.value, OUTPUT_KEY), key) == Str(Trim(R.Spoken(stream)))
  {
    var texts := R.Texts(stream);
    ServedIsSound(a, key, stream, run.sent);
    BusDelivers(a, run.bus, run.ps, run.sent, read);
    CallerHears(a, key, stream, run.sent, run.ps);
    Ch.FinishedYieldsAll(run.schedule);
    S.SseRoundTrip(EventsOf(run), run.pieces);
    ShowCall(run.before, texts, run.after, run.final, Summary(key, stream), str);
    R.TextsKeepSpoken(stream);
    SummaryCarried(key, stream);
  }
}
