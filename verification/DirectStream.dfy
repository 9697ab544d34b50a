/**
 * DirectCompute.stream: the provider's event stream, read incrementally. Every `data:` line of every complete
 * frame is decoded on its own; it may yield a delta, name the chat and report usage.
 */
module DirectStream {
  import opened Wrappers
  import opened CodeUnits
  import opened Json
  import opened Framing
  import Sse

  const DONE: Text := Ascii("[DONE]")
  const ID_KEY: Text := Ascii("id")
  const USAGE_KEY: Text := Ascii("usage")
  const CHOICES_KEY: Text := Ascii("choices")
  const DELTA_KEY: Text := Ascii("delta")
  const CONTENT_KEY: Text := Ascii("content")
  const ZERO_KEY: Text := Ascii("0")

  /** `chatID` is the header's value, or the first usable id; `usage` the last one reported. */
  datatype Progress = Progress(deltas: seq<Text>, chatID: Json, usage: Json)

  /** `choices?.[0]`. */
  function First(v: Json): Json {
    match v
    case Arr(es) => if es == [] then Undefined else es[0]
    case Obj(_) => Get(v, ZERO_KEY)
    case _ => Undefined
  }

  function DeltaOf(chunk: Json): Json {
    Get(Get(First(Get(chunk, CHOICES_KEY)), DELTA_KEY), CONTENT_KEY)
  }

  /** One decoded chunk; reading a property of null throws, so null is dropped like text that is not JSON. */
  function Take(p: Progress, chunk: Json): Progress {
    if chunk.Null? || chunk.Undefined? then p
    else
      var id, usage, delta := Get(chunk, ID_KEY), Get(chunk, USAGE_KEY), DeltaOf(chunk);
      Progress(
        if delta.Str? && delta.s != [] then p.deltas + [delta.s] else p.deltas,
        if !Truthy(p.chatID) && Truthy(id) then id else p.chatID,
        if Truthy(usage) then usage else p.usage)
  }

  /** One line; `decode` is JSON.parse, with None where it throws. */
  function TakeLine(p: Progress, line: Text, decode: Text -> Option<Json>): Progress {
    if !StartsWith(line, Sse.DATA_PREFIX) then p
    else
      var payload := Trim(line[5..]);
      if payload == DONE then p
      else
        var c := decode(payload);
        if c.None? then p else Take(p, c.value)
  }

  function TakeLines(p: Progress, ls: seq<Text>, decode: Text -> Option<Json>): Progress {
    if ls == [] then p else TakeLine(TakeLines(p, ls[..|ls| - 1], decode), ls[|ls| - 1], decode)
  }

  function TakeFrames(p: Progress, frames: seq<Text>, decode: Text -> Option<Json>): Progress {
    if frames == [] then p
    else TakeLines(TakeFrames(p, frames[..|frames| - 1], decode), Lines(frames[|frames| - 1]), decode)
  }

  /** The header's key, or the empty string. */
  function Start(headerKey: Option<Json>): Progress {
    Progress([], if headerKey.Some? then headerKey.value else Str([]), Undefined)
  }

  /** Reading the whole text at once. */
  function Batch(text: Text, headerKey: Option<Json>, decode: Text -> Option<Json>): Progress {
    TakeFrames(Start(headerKey), CutFrames(text).frames, decode)
  }

  lemma {:induction false} TakeFramesAppend(p: Progress, fs: seq<Text>, gs: seq<Text>, decode: Text -> Option<Json>)
    ensures TakeFrames(p, fs + gs, decode) == TakeFrames(TakeFrames(p, fs, decode), gs, decode)
  {
    if gs == [] {
      assert fs + gs == fs;
    } else {
      TakeFramesAppend(p, fs, gs[..|gs| - 1], decode);
      assert (fs + gs)[..|fs + gs| - 1] == fs + gs[..|gs| - 1];
    }
  }

  method TakeOneLine(p: Progress, line: Text, decode: Text -> Option<Json>) returns (q: Progress)
    ensures q == TakeLine(p, line, decode)
  {
    q := p;
    if !StartsWith(line, Sse.DATA_PREFIX) { return; }
    var payload := Trim(line[5..]);
    if payload == DONE { return; }
    var c := decode(payload);
    if c.None? { return; }
    var chunk := c.value;
    if chunk.Null? || chunk.Undefined? { return; }
    if !Truthy(q.chatID) && Truthy(Get(chunk, ID_KEY)) {
      q := q.(chatID := Get(chunk, ID_KEY));
    }
    if Truthy(Get(chunk, USAGE_KEY)) {
      q := q.(usage := Get(chunk, USAGE_KEY));
    }
    var delta := DeltaOf(chunk);
    if delta.Str? && |delta.s| > 0 {
      q := q.(deltas := q.deltas + [delta.s]);
    }
  }

  method TakeFrame(p: Progress, frame: Text, decode: Text -> Option<Json>) returns (q: Progress)
    ensures q == TakeLines(p, Lines(frame), decode)
  {
    var ls := Lines(frame);
    q := p;
    var i := 0;
    while i < |ls|
      invariant 0 <= i <= |ls|
      invariant q == TakeLines(p, ls[..i], decode)
    {
      assert ls[..i + 1][..i] == ls[..i];
      q := TakeOneLine(q, ls[i], decode);
      i := i + 1;
    }
    assert ls[..i] == ls;
  }

  lemma TakeFramesPush(p: Progress, fs: seq<Text>, f: Text, decode: Text -> Option<Json>)
    ensures TakeFrames(p, fs + [f], decode) == TakeLines(TakeFrames(p, fs, decode), Lines(f), decode)
  {
    assert (fs + [f])[..|fs|] == fs;
  }

  /** Takes every complete frame out of the buffer. */
  method TakeComplete(buffer0: Text, p: Progress, decode: Text -> Option<Json>) returns (buffer: Text, q: Progress)
    ensures buffer == CutFrames(buffer0).rest
    ensures q == TakeFrames(p, CutFrames(buffer0).frames, decode)
  {
    buffer, q := buffer0, p;
    ghost var cut: seq<Text> := [];
    var nl := IndexOfBlank(buffer);
    while nl != -1
      invariant nl == IndexOfBlank(buffer)
      invariant CutFrames(buffer0).frames == cut + CutFrames(buffer).frames
      invariant CutFrames(buffer0).rest == CutFrames(buffer).rest
      invariant q == TakeFrames(p, cut, decode)
      decreases |buffer|
    {
      var event := buffer[..nl];
      Sse.CutsOneMore(cut, event, CutFrames(buffer[nl + 2..]).frames);
      TakeFramesPush(p, cut, event, decode);
      buffer := buffer[nl + 2..];
      q := TakeFrame(q, event, decode);
      cut := cut + [event];
      nl := IndexOfBlank(buffer);
    }
    assert cut + [] == cut;
  }

  /** The reading loop. `tail` is what stays in the buffer at the end. */
  method Stream(pieces: seq<Text>, headerKey: Option<Json>, decode: Text -> Option<Json>)
    returns (p: Progress, tail: Text)
    ensures p == TakeFrames(Start(headerKey), Feed(pieces).frames, decode)
    ensures tail == Feed(pieces).rest
  {
    var buffer: Text := [];
    p := Start(headerKey);
    var i := 0;
    assert pieces[..0] == [];
    while i < |pieces|
      invariant 0 <= i <= |pieces|
      invariant Feed(pieces[..i]).rest == buffer
      invariant p == TakeFrames(Start(headerKey), Feed(pieces[..i]).frames, decode)
    {
      assert pieces[..i + 1][..i] == pieces[..i];
      buffer := buffer + Normalise(pieces[i]);
      TakeFramesAppend(Start(headerKey), Feed(pieces[..i]).frames, CutFrames(buffer).frames, decode);
      buffer, p := TakeComplete(buffer, p, decode);
      i := i + 1;
    }
    assert pieces[..i] == pieces;
    tail := buffer;
  }

  /**
   * Incremental reading refines batch reading. For text without carriage returns, split any way: the deltas, the
   * chat id and the last usage are those of the whole text cut at once, what is left over holds no blank line,
   * and it is the only part of the text that was not in a frame.
   */
  lemma IncrementalRefinesBatch(pieces: seq<Text>, headerKey: Option<Json>, decode: Text -> Option<Json>)
    requires NoCR(Concat(pieces))
    ensures TakeFrames(Start(headerKey), Feed(pieces).frames, decode) == Batch(Concat(pieces), headerKey, decode)
    ensures IndexOfBlank(Feed(pieces).rest) < 0
    ensures Closed(Feed(pieces).frames) + Feed(pieces).rest == Concat(pieces)
  {
    SplitInvisible(pieces);
    NoBlankLineLeft(Concat(pieces));
    CutLosesNothing(Concat(pieces));
  }

  /** With carriage returns, the same against the normalised text whenever no piece boundary cuts a CRLF pair. */
  lemma IncrementalRefinesNormalised(pieces: seq<Text>, headerKey: Option<Json>, decode: Text -> Option<Json>)
    requires !SomeBoundaryCutsPair(pieces)
    ensures TakeFrames(Start(headerKey), Feed(pieces).frames, decode) ==
      Batch(Normalise(Concat(pieces)), headerKey, decode)
  {
    PerReadNormalisationExact(pieces);
  }

  // ---- What the results mean ----

  /** The first usable id among the decoded chunks wins, unless the header gave one. */
  lemma {:induction false} ChatIdIsSticky(p: Progress, ls: seq<Text>, decode: Text -> Option<Json>)
    requires Truthy(p.chatID)
    ensures TakeLines(p, ls, decode).chatID == p.chatID
  {
    if ls != [] {
      ChatIdIsSticky(p, ls[..|ls| - 1], decode);
    }
  }

  lemma {:induction false} HeaderDecidesChatId(p: Progress, frames: seq<Text>, decode: Text -> Option<Json>)
    requires Truthy(p.chatID)
    ensures TakeFrames(p, frames, decode).chatID == p.chatID
  {
    if frames != [] {
      HeaderDecidesChatId(p, frames[..|frames| - 1], decode);
      ChatIdIsSticky(TakeFrames(p, frames[..|frames| - 1], decode), Lines(frames[|frames| - 1]), decode);
    }
  }

  /** Deltas are only ever added at the end, and none is empty. */
  lemma {:induction false} DeltasGrow(p: Progress, ls: seq<Text>, decode: Text -> Option<Json>)
    ensures p.deltas <= TakeLines(p, ls, decode).deltas
    ensures forall i :: |p.deltas| <= i < |TakeLines(p, ls, decode).deltas| ==> TakeLines(p, ls, decode).deltas[i] != []
  {
    if ls != [] {
      DeltasGrow(p, ls[..|ls| - 1], decode);
    }
  }
}
