/**
 * The plainest run of the streaming path: every message is received as soon as it is sent, every chunk is pushed
 * before the call settles, and the event text arrives in one read. It meets all that Pipeline supposes of a run.
 *
 * Everything is signed at time 0, and polled just before the deadline.
 */
module DirectRun {
  import opened Wrappers
  import opened CodeUnits
  import opened Json
  import opened Domains
  import opened Caller
  import opened Envelope
  import opened Pipeline
  import R = Responder
  import B = LocalBus
  import Ch = Channel
  import S = Sse

  // ---- The agent ----

  /** All signed at time 0. */
  function ChunkRun(a: Args, texts: seq<Text>): (ms: seq<Msg>) {
    seq(|texts|, i requires 0 <= i < |texts| => SentChunk(a, i, texts[i], 0))
  }

  function Transcript(a: Args, key: Text, stream: seq<R.Delta>): seq<Msg> {
    ChunkRun(a, R.Texts(stream)) + [SentResponse(a, Summary(key, stream), Summary(key, stream), 0)]
  }

  lemma TranscriptIsServed(a: Args, key: Text, stream: seq<R.Delta>)
    ensures Served(a, key, stream, Transcript(a, key, stream))
  {
    var k := |R.Texts(stream)|;
    var sent := Transcript(a, key, stream);
    assert sent[..k] == ChunkRun(a, R.Texts(stream));
    assert sent[k] == SentResponse(a, Summary(key, stream), Summary(key, stream), 0);
  }

  // ---- The bus ----

  function Packets(a: Args, ms: seq<Msg>): seq<B.Packet> {
    if ms == [] then [] else Packets(a, ms[..|ms| - 1]) + [B.Packet(a.expected, PrintOne(ms[|ms| - 1]))]
  }

  function BusRun(a: Args, ms: seq<Msg>): seq<B.Event> {
    if ms == [] then [B.Open(a.me)]
    else
      BusRun(a, ms[..|ms| - 1]) + [B.Send(a.expected, a.me, PrintOne(ms[|ms| - 1])), B.Receive(a.me)]
  }

  lemma SendThenReceive(from: Text, key: Text, body: Text, got: seq<B.Packet>)
    ensures var s := B.State(map[key := []], map[key := got]);
      B.Step(B.Step(s, B.Send(from, key, body)), B.Receive(key)) ==
        B.State(map[key := []], map[key := got + [B.Packet(from, body)]])
  {
    var one := [B.Packet(from, body)];
    assert [] + one == one && one[1..] == [];
  }

  lemma OneMore(es: seq<B.Event>, e: B.Event, key: Text)
    ensures B.Run(es + [e]) == B.Step(B.Run(es), e)
    ensures B.SentTo(es + [e], key) ==
      B.SentTo(es, key) + if e.Send? && e.to == key && B.Open(key) in es then [B.Packet(e.from, e.body)] else []
  {
    assert (es + [e])[..|es|] == es;
  }

  lemma {:induction false} BusRunDelivers(a: Args, ms: seq<Msg>)
    ensures B.Open(a.me) in BusRun(a, ms)
    ensures B.Run(BusRun(a, ms)) == B.State(map[a.me := []], map[a.me := Packets(a, ms)])
    ensures B.SentTo(BusRun(a, ms), a.me) == Packets(a, ms)
  {
    if ms == [] {
      OneMore([], B.Open(a.me), a.me);
      assert [] + [B.Open(a.me)] == BusRun(a, ms);
    } else {
      var front, body := ms[..|ms| - 1], PrintOne(ms[|ms| - 1]);
      BusRunDelivers(a, front);
      OneExchange(a.expected, a.me, body, BusRun(a, front), Packets(a, front));
    }
  }

  lemma OneExchange(from: Text, key: Text, body: Text, es: seq<B.Event>, got: seq<B.Packet>)
    requires B.Open(key) in es && B.SentTo(es, key) == got
    requires B.Run(es) == B.State(map[key := []], map[key := got])
    ensures var fs := es + [B.Send(from, key, body), B.Receive(key)]; var all := got + [B.Packet(from, body)];
      B.SentTo(fs, key) == all && B.Run(fs) == B.State(map[key := []], map[key := all])
  {
    var send, receive := B.Send(from, key, body), B.Receive(key);
    OneMore(es, send, key);
    OneMore(es + [send], receive, key);
    assert es + [send] + [receive] == es + [send, receive];
    SendThenReceive(from, key, body, got);
    var all := got + [B.Packet(from, body)];
    assert all + [] == all;
  }

  // ---- The caller ----

  /** Polled in time, and checked at the time each message was signed. */
  function PollsOf(a: Args, ps: seq<B.Packet>): seq<Poll> {
    if ps == [] then [] else [Poll(Some(ReadMessage(ps[0].body)), a.deadline - 1, 0)] + PollsOf(a, ps[1..])
  }

  lemma {:induction false} PollsReadAll(a: Args, ps: seq<B.Packet>)
    ensures PolledMessages(PollsOf(a, ps)) == ReadAll(ps, ReadMessage)
  {
    if ps != [] {
      PollsReadAll(a, ps[1..]);
      assert PollsOf(a, ps)[1..] == PollsOf(a, ps[1..]);
    }
  }

  predicate SignedAtZero(m: Msg) {
    (m.ChunkMsg? || m.ResMsg?) && m.ts == 0
  }

  lemma {:induction false} PollsAreTimely(a: Args, ps: seq<B.Packet>)
    requires a.maxAge >= 0 && forall p :: p in ps ==> SignedAtZero(ReadMessage(p.body))
    ensures Timely(a, PollsOf(a, ps))
  {
    if ps != [] {
      PollsAreTimely(a, ps[1..]);
      assert ps[0] in ps;
    }
  }

  /** The messages of one call, signed at time 0. */
  predicate Plain(a: Args, m: Msg) {
    SoundMessage(m) && m.id == a.id && m.ts == 0
  }

  lemma PlainIsRead(a: Args, m: Msg)
    requires Plain(a, m)
    ensures IsFor(a, ReadMessage(PrintOne(m))) && SignedAtZero(ReadMessage(PrintOne(m)))
  {
    MessageRoundTrip(m);
  }

  lemma {:induction false} CallBodiesPush(a: Args, ps: seq<B.Packet>, p: B.Packet, read: Text -> Msg)
    requires IsFor(a, read(p.body))
    ensures CallBodies(a, ps + [p], read) == CallBodies(a, ps, read) + [p.body]
    decreases |ps|
  {
    if ps == [] {
      assert (ps + [p])[1..] == [];
    } else {
      CallBodiesPush(a, ps[1..], p, read);
      assert (ps + [p])[1..] == ps[1..] + [p];
    }
  }

  lemma PrintedPush(ms: seq<Msg>, m: Msg)
    ensures Printed(ms + [m]) == Printed(ms) + [PrintOne(m)]
    decreases |ms|
  {
    if ms == [] {
      assert (ms + [m])[1..] == [];
    } else {
      PrintedPush(ms[1..], m);
      assert (ms + [m])[1..] == ms[1..] + [m];
    }
  }

  lemma OnePacketMore(a: Args, front: seq<Msg>, last: Msg)
    requires Plain(a, last)
    ensures Packets(a, front + [last]) == Packets(a, front) + [B.Packet(a.expected, PrintOne(last))]
    ensures CallBodies(a, Packets(a, front + [last]), ReadMessage) ==
      CallBodies(a, Packets(a, front), ReadMessage) + [PrintOne(last)]
  {
    var p := B.Packet(a.expected, PrintOne(last));
    assert (front + [last])[..|front|] == front;
    PlainIsRead(a, last);
    CallBodiesPush(a, Packets(a, front), p, ReadMessage);
  }

  lemma {:induction false} PacketsOfCall(a: Args, ms: seq<Msg>)
    requires forall i :: 0 <= i < |ms| ==> Plain(a, ms[i])
    ensures CallBodies(a, Packets(a, ms), ReadMessage) == Printed(ms)
  {
    if ms != [] {
      var front, last := ms[..|ms| - 1], ms[|ms| - 1];
      assert ms == front + [last];
      PacketsOfCall(a, front);
      OnePacketMore(a, front, last);
      PrintedPush(front, last);
    }
  }

  lemma {:induction false} PacketsAreTimed(a: Args, ms: seq<Msg>)
    requires forall i :: 0 <= i < |ms| ==> Plain(a, ms[i])
    ensures forall p :: p in Packets(a, ms) ==> SignedAtZero(ReadMessage(p.body))
  {
    if ms != [] {
      PacketsAreTimed(a, ms[..|ms| - 1]);
      PlainIsRead(a, ms[|ms| - 1]);
    }
  }

  lemma TranscriptIsPlain(a: Args, key: Text, stream: seq<R.Delta>)
    ensures forall i :: 0 <= i < |Transcript(a, key, stream)| ==> Plain(a, Transcript(a, key, stream)[i])
  {
    SummaryIsSound(a, key, stream, SentResponse(a, Summary(key, stream), Summary(key, stream), 0));
    var chunks := ChunkRun(a, R.Texts(stream));
    forall i | 0 <= i < |chunks| ensures Plain(a, chunks[i]) {
      assert chunks[i] == SentChunk(a, i, R.Texts(stream)[i], 0);
    }
  }

  // ---- The channel ----

  function Pushes(cs: seq<Ch.Chunk<Text>>): seq<Ch.Event<Text>> {
    if cs == [] then [] else Pushes(cs[..|cs| - 1]) + [Ch.Push(cs[|cs| - 1])]
  }

  lemma {:induction false} PushesPush(cs: seq<Ch.Chunk<Text>>)
    ensures Ch.PushedBy(Pushes(cs)) == cs && !Ch.HasSettled(Pushes(cs))
  {
    if cs != [] {
      var es := Pushes(cs);
      PushesPush(cs[..|cs| - 1]);
      assert es[..|es| - 1] == Pushes(cs[..|cs| - 1]);
    }
  }

  lemma PushesOneMore(es: seq<Ch.Event<Text>>, e: Ch.Event<Text>)
    requires !e.Push?
    ensures Ch.PushedBy(es + [e]) == Ch.PushedBy(es)
  {
    assert (es + [e])[..|es|] == es;
    assert Ch.PushedBy(es) + [] == Ch.PushedBy(es);
  }

  lemma {:induction false} LaterPushesNothing(es: seq<Ch.Event<Text>>, more: seq<Ch.Event<Text>>)
    requires forall i :: 0 <= i < |more| ==> !more[i].Push?
    ensures Ch.PushedBy(es + more) == Ch.PushedBy(es)
  {
    if more == [] {
      assert es + more == es;
    } else {
      var front, last := more[..|more| - 1], more[|more| - 1];
      LaterPushesNothing(es, front);
      PushesOneMore(es + front, last);
      assert es + more == (es + front) + [last];
    }
  }

  lemma {:induction false} RunAppend(s: Ch.State<Text>, es: seq<Ch.Event<Text>>, more: seq<Ch.Event<Text>>)
    ensures Ch.Run(s, es + more) == Ch.Run(Ch.Run(s, es), more)
  {
    if more == [] {
      assert es + more == es;
    } else {
      RunAppend(s, es, more[..|more| - 1]);
      assert (es + more)[..|es + more| - 1] == es + more[..|more| - 1];
    }
  }

  /** Push everything, settle, and let the consumer run until it has finished. */
  lemma ChannelRun(texts: seq<Text>) returns (schedule: seq<Ch.Event<Text>>)
    ensures Channelled(texts, schedule)
  {
    var cs := Numbered(texts, 0);
    var es := Pushes(cs) + [Ch.Settle];
    var s := Ch.Run(Ch.Init<Text>(), es);
    var resumes := Ch.Resumes<Text>(|s.buffer| + 1);
    schedule := es + resumes;
    PushesPush(cs);
    LaterPushesNothing(Pushes(cs), [Ch.Settle]);
    LaterPushesNothing(es, resumes);
    Ch.RunPushes(es);
    Ch.RunKeepsInv(Ch.Init<Text>(), es);
    Ch.DrainsWhenDone(s);
    RunAppend(Ch.Init<Text>(), es, resumes);
  }

  // ---- The server events ----

  function FinalOf(output: Json): Json {
    Obj([Member(S.OK_KEY, Bool(true)), Member(OUTPUT_KEY, output)])
  }

  lemma FinalReports(output: Json)
    requires Valid(output)
    ensures Reports(FinalOf(output), output)
  {
    var ms := FinalOf(output).members;
    assert |S.OK_KEY| != |OUTPUT_KEY|;
    assert Lookup(ms[1..], OUTPUT_KEY) == output;
  }

  lemma {:induction false} ChunkEventsSendable(cs: seq<Ch.Chunk<Text>>)
    ensures S.AllSendable(ChunkEvents(cs))
  {
    if cs != [] {
      ChunkEventsSendable(cs[1..]);
      ChunkEventReceived(cs[0]);
    }
  }

  lemma CallEventsSendable(cs: seq<Ch.Chunk<Text>>, output: Json)
    requires Valid(output)
    ensures S.AllSendable(CallEvents([], cs, [], FinalOf(output)))
  {
    ChunkEventsSendable(cs);
    FinalReports(output);
  }

  // ---- All together ----

  /** For every stream there is a session such as StreamReachesThePanel supposes, so every stream can arrive. */
  lemma EveryStreamCanArrive(a: Args, key: Text, stream: seq<R.Delta>) returns (run: Session)
    requires a.maxAge >= 0
    ensures IsSession(a, key, stream, run, ReadMessage)
  {
    var sent := Transcript(a, key, stream);
    var bus, ps := BusRun(a, sent), PollsOf(a, Packets(a, sent));
    TranscriptGoesOver(a, key, stream);
    var schedule := ChannelRun(R.Texts(stream));
    var final := FinalOf(Summary(key, stream));
    SummaryIsValid(key, stream);
    FinalReports(Summary(key, stream));
    CallEventsSendable(Yielded(schedule), Summary(key, stream));
    var pieces := OnePiece(S.Print(CallEvents([], Yielded(schedule), [], final)));
    run := Session(sent, bus, ps, schedule, [], [], final, pieces);
  }

  lemma TranscriptGoesOver(a: Args, key: Text, stream: seq<R.Delta>)
    requires a.maxAge >= 0
    ensures var sent := Transcript(a, key, stream);
      var bus, ps := BusRun(a, sent), PollsOf(a, Packets(a, sent));
      && Served(a, key, stream, sent) && WentOver(a, sent, bus, ps, ReadMessage) && Timely(a, ps)
      && Receive(a, ps, 0) == Heard(Returned(Summary(key, stream)), R.Texts(stream))
  {
    var sent := Transcript(a, key, stream);
    var bus, ps := BusRun(a, sent), PollsOf(a, Packets(a, sent));
    TranscriptIsServed(a, key, stream);
    TranscriptIsPlain(a, key, stream);
    BusRunDelivers(a, sent);
    PacketsOfCall(a, sent);
    PacketsAreTimed(a, sent);
    PollsReadAll(a, Packets(a, sent));
    PollsAreTimely(a, Packets(a, sent));
    ServedIsSound(a, key, stream, sent);
    BusDelivers(a, bus, ps, sent, ReadMessage);
    CallerHears(a, key, stream, sent, ps);
  }

  lemma OnePiece(t: Text) returns (pieces: seq<Text>)
    ensures Concat(pieces) == t
  {
    pieces := [t];
    assert pieces[..0] == [] && [] + t == t;
  }
}
