/**
 * Server-sent events from the call route to the browser: the printer of frames, the incremental parser in the
 * call panel, and the state the panel builds from the events.
 */
module Sse {
  import opened Wrappers
  import opened CodeUnits
  import opened Json
  import opened JsonParse
  import opened Framing

  datatype ServerEvent = ServerEvent(name: Text, data: Json)

  const EVENT_PREFIX: Text := Ascii("event:")
  const DATA_PREFIX: Text := Ascii("data:")
  const MESSAGE: Text := Ascii("message")
  const TRACE: Text := Ascii("trace")
  const CHUNK: Text := Ascii("chunk")
  const FINAL: Text := Ascii("final")
  const ERROR: Text := Ascii("error")

  /** One frame without its closing blank line. */
  function FrameBody(e: ServerEvent): Text
    requires !e.data.Undefined?
  {
    (EVENT_PREFIX + [SPACE] + e.name) + [LF] + (DATA_PREFIX + [SPACE] + Stringify(e.data))
  }

  predicate Sendable(e: ServerEvent) {
    Valid(e.data) && !e.data.Undefined? && Tight(e.name) && Printable(e.name)
  }

  predicate AllSendable(es: seq<ServerEvent>) {
    forall i :: 0 <= i < |es| ==> Sendable(es[i])
  }

  /** Everything the route enqueues. */
  function Print(es: seq<ServerEvent>): Text
    requires AllSendable(es)
  {
    if es == [] then [] else FrameBody(es[0]) + BLANK_LINE + Print(es[1..])
  }

  // ---- Parsing ----

  datatype Fields = Fields(event: Text, data: Text)

  function FieldsOf(ls: seq<Text>): Fields {
    if ls == [] then Fields(MESSAGE, [])
    else
      var f := FieldsOf(ls[..|ls| - 1]);
      var line := ls[|ls| - 1];
      if StartsWith(line, EVENT_PREFIX) then f.(event := Trim(line[6..]))
      else if StartsWith(line, DATA_PREFIX) then f.(data := f.data + Trim(line[5..]))
      else f
  }

  /** The event in a frame; frames without data, or with data that is not JSON, are skipped. */
  function ParseFrame(frame: Text): Option<ServerEvent> {
    var f := FieldsOf(Lines(frame));
    if f.data == [] then None
    else
      var p := Parse(f.data);
      if p.Fail? then None else Some(ServerEvent(f.event, p.value))
  }

  function ParseFrames(frames: seq<Text>): seq<ServerEvent> {
    if frames == [] then []
    else
      var e := ParseFrame(frames[|frames| - 1]);
      ParseFrames(frames[..|frames| - 1]) + (if e.Some? then [e.value] else [])
  }

  // ---- Round trip ----

  function Received(e: ServerEvent): ServerEvent {
    e.(data := Wire(e.data))
  }

  function ReceivedAll(es: seq<ServerEvent>): (r: seq<ServerEvent>)
    ensures |r| == |es| && forall i :: 0 <= i < |es| ==> r[i] == Received(es[i])
  {
    seq(|es|, i requires 0 <= i < |es| => Received(es[i]))
  }

  function Bodies(es: seq<ServerEvent>): seq<Text>
    requires AllSendable(es)
  {
    if es == [] then [] else [FrameBody(es[0])] + Bodies(es[1..])
  }

  /** JSON text is tight, so `trim` gives it back. */
  lemma StringifyIsTight(v: Json)
    requires Valid(v) && !v.Undefined?
    ensures Tight(Stringify(v))
  {
    ValueHead(v);
    match v
    case Num(lit) => assert IsNumUnit(lit[|lit| - 1]);
    case _ =>
  }

  lemma FieldsOfOne(name: Text)
    requires Tight(name)
    ensures FieldsOf([EVENT_PREFIX + [SPACE] + name]) == Fields(name, [])
  {
    var a := EVENT_PREFIX + [SPACE] + name;
    TrimTight(name);
    assert a[..6] == EVENT_PREFIX && a[6..] == [SPACE] + name;
    var one: seq<Text> := [a];
    assert one[..0] == [];
  }

  lemma FieldsOfDataLine(ls: seq<Text>, data: Text)
    requires Tight(data)
    ensures FieldsOf(ls + [DATA_PREFIX + [SPACE] + data]) == FieldsOf(ls).(data := FieldsOf(ls).data + data)
  {
    var b := DATA_PREFIX + [SPACE] + data;
    TrimTight(data);
    assert b[..5] == DATA_PREFIX && b[5..] == [SPACE] + data;
    assert (ls + [b])[..|ls|] == ls;
    assert b[..6][0] == DATA_PREFIX[0] != EVENT_PREFIX[0];
  }

  lemma FieldsOfTwo(name: Text, data: Text)
    requires Tight(name) && Tight(data)
    ensures FieldsOf([EVENT_PREFIX + [SPACE] + name, DATA_PREFIX + [SPACE] + data]) == Fields(name, data)
  {
    var a, b := EVENT_PREFIX + [SPACE] + name, DATA_PREFIX + [SPACE] + data;
    FieldsOfOne(name);
    FieldsOfDataLine([a], data);
    assert [a, b] == [a] + [b] && [] + data == data;
  }

  lemma FrameRoundTrip(e: ServerEvent)
    requires Sendable(e)
    ensures ParseFrame(FrameBody(e)) == Some(Received(e))
  {
    var json := Stringify(e.data);
    var a, b := EVENT_PREFIX + [SPACE] + e.name, DATA_PREFIX + [SPACE] + json;
    StringifyIsPrintable(e.data);
    StringifyIsTight(e.data);
    TwoLines(a, b);
    FieldsOfTwo(e.name, json);
    ParseUndoesStringify(e.data);
  }

  lemma BodyHasNoBlank(e: ServerEvent)
    requires Sendable(e)
    ensures IndexOfBlank(FrameBody(e)) < 0
    ensures FrameBody(e) != [] && FrameBody(e)[|FrameBody(e)| - 1] != LF
    ensures NoCR(FrameBody(e))
  {
    var json := Stringify(e.data);
    StringifyIsPrintable(e.data);
    StringifyIsTight(e.data);
    var a, b := EVENT_PREFIX + [SPACE] + e.name, DATA_PREFIX + [SPACE] + json;
    var t := FrameBody(e);
    assert forall i :: 0 <= i < |a| ==> t[i] == a[i] && a[i] >= 0x20;
    assert forall i :: |a| < i < |t| ==> t[i] == b[i - |a| - 1] && t[i] >= 0x20;
    assert t[|a|] == LF;
  }

  lemma OneMoreFrame(body: Text, rest: Text)
    requires IndexOfBlank(body) < 0 && body != [] && body[|body| - 1] != LF && NoCR(body) && NoCR(rest)
    ensures CutFrames(body + BLANK_LINE + rest) == Cut([body] + CutFrames(rest).frames, CutFrames(rest).rest)
    ensures NoCR(body + BLANK_LINE + rest)
  {
    CutAt(body, rest);
  }

  lemma {:induction false} PrintedFrames(es: seq<ServerEvent>)
    requires AllSendable(es)
    ensures CutFrames(Print(es)) == Cut(Bodies(es), [])
    ensures NoCR(Print(es))
  {
    if es != [] {
      PrintedFrames(es[1..]);
      BodyHasNoBlank(es[0]);
      OneMoreFrame(FrameBody(es[0]), Print(es[1..]));
    }
  }

  lemma {:induction false} ParseFramesAppend(fs: seq<Text>, gs: seq<Text>)
    ensures ParseFrames(fs + gs) == ParseFrames(fs) + ParseFrames(gs)
  {
    hide ParseFrame;
    if gs == [] {
      assert fs + gs == fs;
    } else {
      ParseFramesAppend(fs, gs[..|gs| - 1]);
      assert (fs + gs)[..|fs + gs| - 1] == fs + gs[..|gs| - 1];
    }
  }

  lemma ParseFramesFirst(f: Text, gs: seq<Text>)
    ensures ParseFrames([f] + gs) == (if ParseFrame(f).Some? then [ParseFrame(f).value] else []) + ParseFrames(gs)
  {
    hide ParseFrame;
    ParseFramesAppend([f], gs);
    var one: seq<Text> := [f];
    assert one[..0] == [];
    assert ParseFrames(one) == [] + (if ParseFrame(f).Some? then [ParseFrame(f).value] else []);
  }

  lemma {:induction false} BodiesRoundTrip(es: seq<ServerEvent>)
    requires AllSendable(es)
    ensures ParseFrames(Bodies(es)) == ReceivedAll(es)
  {
    if es != [] {
      BodiesRoundTrip(es[1..]);
      FrameRoundTrip(es[0]);
      ParseFramesFirst(FrameBody(es[0]), Bodies(es[1..]));
      assert ReceivedAll(es) == [Received(es[0])] + ReceivedAll(es[1..]);
    }
  }

  /**
   * For every sequence of server events and every split of the printed text into pieces, the parser yields
   * exactly that sequence, each payload with the meaning it was sent with, and keeps nothing in its buffer.
   */
  lemma SseRoundTrip(es: seq<ServerEvent>, pieces: seq<Text>)
    requires AllSendable(es)
    requires Concat(pieces) == Print(es)
    ensures ParseFrames(Feed(pieces).frames) == ReceivedAll(es)
    ensures Feed(pieces).rest == []
  {
    PrintedFrames(es);
    SplitInvisible(pieces);
    BodiesRoundTrip(es);
  }

  lemma ReceivedSameMeaning(es: seq<ServerEvent>, i: nat)
    requires i < |es|
    ensures |ReceivedAll(es)| == |es|
    ensures ReceivedAll(es)[i].name == es[i].name && Meaning(ReceivedAll(es)[i].data) == Meaning(es[i].data)
  {
    WireKeepsMeaning(es[i].data);
  }

  // ---- The panel ----

  /** What the panel shows. `crashed` stands for the reader stopping on a TypeError. */
  datatype Panel = Panel(streamText: Text, trace: seq<Json>, result: Option<Json>, error: Option<Json>, crashed: bool)

  const BLANK_PANEL: Panel := Panel([], [], None, None, false)

  const TEXT_KEY: Text := Ascii("text")
  const OK_KEY: Text := Ascii("ok")
  const STREAM_ERROR: Text := Ascii("stream error")

  /** One event. `str` is String(): the identity on strings. */
  function Show(p: Panel, e: ServerEvent, str: Json -> Text): Panel {
    if p.crashed then p
    else if e.name == TRACE then p.(trace := p.trace + [e.data])
    else if e.name == CHUNK then
      if e.data.Null? then p.(crashed := true) else p.(streamText := p.streamText + str(Get(e.data, TEXT_KEY)))
    else if e.name == FINAL then
      if e.data.Null? then p.(result := Some(e.data), crashed := true)
      else if !Truthy(Get(e.data, OK_KEY)) && Truthy(Get(e.data, ERROR)) then
        p.(result := Some(e.data), error := Some(Get(e.data, ERROR)))
      else p.(result := Some(e.data))
    else if e.name == ERROR then
      if e.data.Null? then p.(crashed := true)
      else
        var m := Get(e.data, ERROR);
        p.(error := Some(if m.Undefined? || m.Null? then Str(STREAM_ERROR) else m))
    else p
  }

  /** A chunk, final or error event whose payload is null stops the reader: nothing is shown any more. */
  lemma NullStopsThePanel(p: Panel, e: ServerEvent, es: seq<ServerEvent>, str: Json -> Text)
    requires !p.crashed && e.data.Null? && (e.name == CHUNK || e.name == FINAL || e.name == ERROR)
    ensures var q := Show(p, e, str);
      && q.crashed && ShowAll(q, es, str) == q
      && q == p.(crashed := true, result := if e.name == FINAL then Some(Null) else p.result)
  {
    assert |CHUNK| == |TRACE| == |FINAL| == |ERROR| == 5;
    assert CHUNK[0] != TRACE[0] && FINAL[0] != TRACE[0] && ERROR[0] != TRACE[0];
    assert FINAL[0] != CHUNK[0] && ERROR[0] != CHUNK[0] && ERROR[0] != FINAL[0];
    StoppedStays(Show(p, e, str), es, str);
  }

  lemma {:induction false} StoppedStays(q: Panel, es: seq<ServerEvent>, str: Json -> Text)
    requires q.crashed
    ensures ShowAll(q, es, str) == q
  {
    if es != [] {
      StoppedStays(q, es[..|es| - 1], str);
    }
  }

  function ShowAll(p: Panel, es: seq<ServerEvent>, str: Json -> Text): Panel {
    if es == [] then p else Show(ShowAll(p, es[..|es| - 1], str), es[|es| - 1], str)
  }

  function ShowFrames(p: Panel, frames: seq<Text>, str: Json -> Text): Panel {
    ShowAll(p, ParseFrames(frames), str)
  }

  lemma ShowFramesPush(p: Panel, frames: seq<Text>, frame: Text, str: Json -> Text)
    ensures var e := ParseFrame(frame); var before := ShowFrames(p, frames, str);
      ShowFrames(p, frames + [frame], str) == if e.Some? then Show(before, e.value, str) else before
  {
    assert (frames + [frame])[..|frames|] == frames;
    var es := ParseFrames(frames);
    if ParseFrame(frame).Some? {
      assert (es + [ParseFrame(frame).value])[..|es|] == es;
    } else {
      assert es + [] == es;
    }
  }

  /** The fields of one frame, line by line. */
  method ReadFrame(frame: Text) returns (e: Option<ServerEvent>)
    ensures e == ParseFrame(frame)
  {
    var event, data := MESSAGE, [];
    var ls := Lines(frame);
    var i := 0;
    while i < |ls|
      invariant 0 <= i <= |ls|
      invariant FieldsOf(ls[..i]) == Fields(event, data)
    {
      var line := ls[i];
      assert ls[..i + 1][..i] == ls[..i];
      if StartsWith(line, EVENT_PREFIX) {
        event := Trim(line[6..]);
      } else if StartsWith(line, DATA_PREFIX) {
        data := data + Trim(line[5..]);
      }
      i := i + 1;
    }
    assert ls[..i] == ls;
    if data == [] {
      return None;
    }
    var payload := Parse(data);
    if payload.Fail? {
      return None;
    }
    e := Some(ServerEvent(event, payload.value));
  }

  lemma {:induction false} ShowFramesAppend(p: Panel, fs: seq<Text>, gs: seq<Text>, str: Json -> Text)
    ensures ShowFrames(p, fs + gs, str) == ShowFrames(ShowFrames(p, fs, str), gs, str)
  {
    hide ParseFrame;
    hide Show;
    if gs == [] {
      assert fs + gs == fs;
    } else {
      var front, last := gs[..|gs| - 1], gs[|gs| - 1];
      ShowFramesAppend(p, fs, front, str);
      ShowFramesPush(p, fs + front, last, str);
      ShowFramesPush(ShowFrames(p, fs, str), front, last, str);
      assert fs + gs == (fs + front) + [last] && gs == front + [last];
    }
  }

  lemma CutsOneMore(cut: seq<Text>, frame: Text, later: seq<Text>)
    ensures cut + ([frame] + later) == (cut + [frame]) + later
  {
  }

  method ShowOne(panel0: Panel, frame: Text, str: Json -> Text) returns (panel: Panel)
    ensures panel == if ParseFrame(frame).Some? then Show(panel0, ParseFrame(frame).value, str) else panel0
  {
    panel := panel0;
    var e := ReadFrame(frame);
    if e.Some? {
      panel := Show(panel, e.value, str);
    }
  }

  /** Cuts off every complete frame and shows its event. */
  method ShowComplete(buffer: Text, panel0: Panel, str: Json -> Text) returns (buf: Text, panel: Panel)
    ensures buf == CutFrames(buffer).rest
    ensures panel == ShowFrames(panel0, CutFrames(buffer).frames, str)
  {
    buf, panel := buffer, panel0;
    ghost var cut: seq<Text> := [];
    var idx := IndexOfBlank(buf);
    while idx != -1
      invariant idx == IndexOfBlank(buf)
      invariant CutFrames(buffer).frames == cut + CutFrames(buf).frames
      invariant CutFrames(buffer).rest == CutFrames(buf).rest
      invariant panel == ShowFrames(panel0, cut, str)
      decreases |buf|
    {
      var frame := buf[..idx];
      ShowFramesPush(panel0, cut, frame, str);
      CutsOneMore(cut, frame, CutFrames(buf[idx + 2..]).frames);
      buf := buf[idx + 2..];
      panel := ShowOne(panel, frame, str);
      cut := cut + [frame];
      idx := IndexOfBlank(buf);
    }
    assert cut + [] == cut;
  }

  /** The reading loop of the panel: append a normalised piece, show what is complete. */
  method Fire(pieces: seq<Text>, str: Json -> Text) returns (panel: Panel)
    ensures panel == ShowFrames(BLANK_PANEL, Feed(pieces).frames, str)
  {
    var buf: Text := [];
    panel := BLANK_PANEL;
    var i := 0;
    assert pieces[..0] == [];
    while i < |pieces|
      invariant 0 <= i <= |pieces|
      invariant Feed(pieces[..i]).rest == buf
      invariant panel == ShowFrames(BLANK_PANEL, Feed(pieces[..i]).frames, str)
    {
      assert pieces[..i + 1][..i] == pieces[..i];
      buf := buf + Normalise(pieces[i]);
      ShowFramesAppend(BLANK_PANEL, Feed(pieces[..i]).frames, CutFrames(buf).frames, str);
      buf, panel := ShowComplete(buf, panel, str);
      i := i + 1;
    }
    assert pieces[..i] == pieces;
  }

  /** The route's `send`, for each event of the generator in turn. */
  method Send(es: seq<ServerEvent>) returns (out: Text)
    requires AllSendable(es)
    ensures out == Print(es)
  {
    hide FrameBody;
    out := [];
    var i := 0;
    while i < |es|
      invariant 0 <= i <= |es|
      invariant out + Print(es[i..]) == Print(es)
    {
      assert es[i..][1..] == es[i + 1..];
      out := out + FrameBody(es[i]) + BLANK_LINE;
      i := i + 1;
    }
    assert out + [] == out;
  }
}
