/**
 * A provider's event stream and what DirectCompute.stream makes of it: one `data:` frame for each completion chunk,
 * and `[DONE]` at the end. What is read, in any pieces, is what was printed.
 *
 * With Pipeline this gives the whole way from the provider to the panel.
 */
module Provider {
  import opened Wrappers
  import opened CodeUnits
  import opened Json
  import opened JsonParse
  import opened Framing
  import opened DirectStream
  import opened Caller
  import S = Sse
  import R = Responder
  import P = Pipeline

  /** JSON.parse, with None where it throws. */
  function Decode(t: Text): Option<Json> {
    var p := Parse(t);
    if p.Fail? then None else Some(p.value)
  }

  function DataFrame(payload: Text): Text {
    S.DATA_PREFIX + [SPACE] + payload
  }

  predicate AllChunks(vs: seq<Json>) {
    forall i :: 0 <= i < |vs| ==> Valid(vs[i]) && !vs[i].Undefined?
  }

  /** Everything the provider sends for these chunks. */
  function PrintStream(vs: seq<Json>): Text
    requires AllChunks(vs)
  {
    if vs == [] then DataFrame(DONE) + BLANK_LINE
    else DataFrame(Stringify(vs[0])) + BLANK_LINE + PrintStream(vs[1..])
  }

  function Frames(vs: seq<Json>): seq<Text>
    requires AllChunks(vs)
  {
    if vs == [] then [DataFrame(DONE)] else [DataFrame(Stringify(vs[0]))] + Frames(vs[1..])
  }

  /** The chunks taken one after the other, as they are read. */
  function TakeAll(p: Progress, vs: seq<Json>): Progress
    decreases |vs|
  {
    if vs == [] then p else TakeAll(Take(p, Wire(vs[0])), vs[1..])
  }

  // ---- Frames ----

  lemma PayloadIsOneFrame(payload: Text)
    requires Printable(payload) && Tight(payload)
    ensures var f := DataFrame(payload);
      && IndexOfBlank(f) < 0 && f != [] && f[|f| - 1] != LF && NoCR(f)
      && Lines(f) == [f]
      && StartsWith(f, S.DATA_PREFIX) && Trim(f[5..]) == payload
  {
    var f := DataFrame(payload);
    assert forall i :: 0 <= i < |f| ==> f[i] >= 0x20;
    assert f[|f| - 1] == payload[|payload| - 1];
    OneLine(f);
    assert f[..5] == S.DATA_PREFIX && f[5..] == [SPACE] + payload;
    TrimTight(payload);
  }

  lemma DoneIsPlain()
    ensures Printable(DONE) && Tight(DONE)
  {
  }

  lemma DoneIsNotJson()
    ensures Parse(DONE).Fail?
  {
    assert DONE[1..][0] == 0x44;
    assert ParseValue(DONE[1..]).Fail?;
    assert ParseElems(DONE[1..], true).Fail?;
    assert ParseValue(DONE).Fail?;
  }

  lemma {:induction false} StreamFrames(vs: seq<Json>)
    requires AllChunks(vs)
    ensures CutFrames(PrintStream(vs)) == Cut(Frames(vs), []) && NoCR(PrintStream(vs))
  {
    if vs == [] {
      DoneIsPlain();
      PayloadIsOneFrame(DONE);
      var none: Text := [];
      S.OneMoreFrame(DataFrame(DONE), none);
      assert DataFrame(DONE) + BLANK_LINE + none == PrintStream(vs);
    } else {
      StreamFrames(vs[1..]);
      StringifyIsPrintable(vs[0]);
      S.StringifyIsTight(vs[0]);
      PayloadIsOneFrame(Stringify(vs[0]));
      S.OneMoreFrame(DataFrame(Stringify(vs[0])), PrintStream(vs[1..]));
    }
  }

  lemma TakeOne(p: Progress, f: Text, decode: Text -> Option<Json>)
    requires Lines(f) == [f]
    ensures TakeLines(p, Lines(f), decode) == TakeLine(p, f, decode)
  {
    var one: seq<Text> := [f];
    assert one[..0] == [];
  }

  lemma TakeChunk(p: Progress, v: Json)
    requires Valid(v) && !v.Undefined?
    ensures TakeLines(p, Lines(DataFrame(Stringify(v))), Decode) == Take(p, Wire(v))
  {
    StringifyIsPrintable(v);
    S.StringifyIsTight(v);
    PayloadIsOneFrame(Stringify(v));
    ParseUndoesStringify(v);
    DoneIsNotJson();
    TakeOne(p, DataFrame(Stringify(v)), Decode);
  }

  lemma TakeDone(p: Progress)
    ensures TakeLines(p, Lines(DataFrame(DONE)), Decode) == p
  {
    DoneIsPlain();
    PayloadIsOneFrame(DONE);
    TakeOne(p, DataFrame(DONE), Decode);
  }

  lemma TakeFirst(p: Progress, f: Text, fs: seq<Text>, decode: Text -> Option<Json>)
    ensures TakeFrames(p, [f] + fs, decode) == TakeFrames(TakeLines(p, Lines(f), decode), fs, decode)
  {
    TakeFramesAppend(p, [f], fs, decode);
    var one: seq<Text> := [f];
    assert one[..0] == [];
  }

  lemma {:induction false} TakesAll(p: Progress, vs: seq<Json>)
    requires AllChunks(vs)
    ensures TakeFrames(p, Frames(vs), Decode) == TakeAll(p, vs)
    decreases |vs|
  {
    if vs == [] {
      TakeDone(p);
      TakeFirst(p, DataFrame(DONE), [], Decode);
      assert [DataFrame(DONE)] + [] == Frames(vs);
    } else {
      TakeChunk(p, vs[0]);
      TakeFirst(p, DataFrame(Stringify(vs[0])), Frames(vs[1..]), Decode);
      TakesAll(Take(p, Wire(vs[0])), vs[1..]);
    }
  }

  /**
   * For every sequence of chunks and every split of the printed stream into reads: each chunk is taken once, in
   * order, `[DONE]` adds nothing, and nothing is left in the buffer.
   */
  lemma StreamRoundTrip(vs: seq<Json>, pieces: seq<Text>, headerKey: Option<Json>)
    requires AllChunks(vs) && Concat(pieces) == PrintStream(vs)
    ensures TakeFrames(Start(headerKey), Feed(pieces).frames, Decode) == TakeAll(Start(headerKey), vs)
    ensures Feed(pieces).rest == []
  {
    StreamFrames(vs);
    SplitInvisible(pieces);
    TakesAll(Start(headerKey), vs);
  }

  predicate ReportsUsage(v: Json) {
    Truthy(Get(Wire(v), USAGE_KEY))
  }

  /** The usage is that of the last chunk to report one. */
  lemma {:induction false} UsageIsLast(p: Progress, vs: seq<Json>, k: nat)
    requires k < |vs| && ReportsUsage(vs[k]) && forall j :: k < j < |vs| ==> !ReportsUsage(vs[j])
    ensures TakeAll(p, vs).usage == Get(Wire(vs[k]), USAGE_KEY)
    decreases |vs|
  {
    if k == 0 {
      NoUsageKept(Take(p, Wire(vs[0])), vs[1..]);
    } else {
      UsageIsLast(Take(p, Wire(vs[0])), vs[1..], k - 1);
    }
  }

  lemma {:induction false} NoUsageKept(p: Progress, vs: seq<Json>)
    requires forall j :: 0 <= j < |vs| ==> !ReportsUsage(vs[j])
    ensures TakeAll(p, vs).usage == p.usage
    decreases |vs|
  {
    if vs != [] {
      NoUsageKept(Take(p, Wire(vs[0])), vs[1..]);
    }
  }

  // ---- Completion chunks ----

  /** `{id, choices: [{delta: {content}}]}`. */
  function Completion(id: Text, content: Text): Json {
    Obj([Member(ID_KEY, Str(id)), Member(CHOICES_KEY, Arr([Choice(content)]))])
  }

  function Choice(content: Text): Json {
    Obj([Member(DELTA_KEY, Obj([Member(CONTENT_KEY, Str(content))]))])
  }

  function Completions(id: Text, contents: seq<Text>): seq<Json> {
    seq(|contents|, i requires 0 <= i < |contents| => Completion(id, contents[i]))
  }

  lemma CompletionsAreChunks(id: Text, contents: seq<Text>)
    ensures AllChunks(Completions(id, contents))
  {
    forall i | 0 <= i < |contents| ensures Valid(Completion(id, contents[i])) {
      CompletionIsValid(id, contents[i]);
    }
  }

  function PrintCompletions(id: Text, contents: seq<Text>): Text {
    CompletionsAreChunks(id, contents);
    PrintStream(Completions(id, contents))
  }

  /** What a text skill's generator is given. */
  function Pieces(ts: seq<Text>): seq<R.Delta> {
    if ts == [] then [] else [R.Piece(ts[0])] + Pieces(ts[1..])
  }

  lemma OneMember(k: Text, v: Json)
    requires !v.Undefined?
    ensures Wire(Obj([Member(k, v)])) == Obj([Member(k, Wire(v))])
  {
    var ms := [Member(k, v)];
    assert ms[1..] == [];
    assert WireMembers(ms) == [Member(k, Wire(v))] + [];
  }

  lemma CompletionWire(id: Text, content: Text)
    ensures Wire(Completion(id, content)) == Completion(id, content)
  {
    var ms := Completion(id, content).members;
    OneMember(CONTENT_KEY, Str(content));
    OneMember(DELTA_KEY, Obj([Member(CONTENT_KEY, Str(content))]));
    assert WireElems([Choice(content)]) == [Choice(content)];
    assert ms[1..] == [ms[1]] && ms[1..][1..] == [];
    assert WireMembers(ms[1..]) == [ms[1]] + [];
    assert WireMembers(ms) == [ms[0]] + [ms[1]];
  }

  lemma CompletionIsValid(id: Text, content: Text)
    ensures Valid(Completion(id, content)) && !Completion(id, content).Undefined?
  {
    assert ID_KEY[0] != CHOICES_KEY[0];
    assert Valid(Choice(content));
  }

  lemma CompletionFields(id: Text, content: Text)
    ensures Get(Completion(id, content), ID_KEY) == Str(id)
    ensures DeltaOf(Completion(id, content)) == Str(content)
    ensures Get(Completion(id, content), USAGE_KEY).Undefined?
  {
    var ms := Completion(id, content).members;
    assert ID_KEY[0] != CHOICES_KEY[0] && ID_KEY[0] != USAGE_KEY[0] && CHOICES_KEY[0] != USAGE_KEY[0];
    assert ms[1..][1..] == [];
    assert Lookup(ms[1..], CHOICES_KEY) == Arr([Choice(content)]);
    assert Lookup(ms[1..], USAGE_KEY) == Lookup([], USAGE_KEY);
    assert Get(Choice(content), DELTA_KEY) == Obj([Member(CONTENT_KEY, Str(content))]);
  }

  lemma TakeCompletion(p: Progress, id: Text, content: Text)
    ensures Take(p, Wire(Completion(id, content))) ==
      Progress(
        p.deltas + if content != [] then [content] else [],
        if !Truthy(p.chatID) && id != [] then Str(id) else p.chatID,
        p.usage)
  {
    CompletionWire(id, content);
    CompletionFields(id, content);
    assert p.deltas + [] == p.deltas;
  }

  lemma {:induction false} TakeCompletions(p: Progress, id: Text, contents: seq<Text>)
    ensures var q := TakeAll(p, Completions(id, contents));
      && q.deltas == p.deltas + R.Texts(Pieces(contents)) && q.usage == p.usage
      && q.chatID == if !Truthy(p.chatID) && id != [] && contents != [] then Str(id) else p.chatID
    decreases |contents|
  {
    if contents != [] {
      var next := Take(p, Wire(Completion(id, contents[0])));
      TakeCompletion(p, id, contents[0]);
      assert Completions(id, contents)[1..] == Completions(id, contents[1..]);
      TakeCompletions(next, id, contents[1..]);
      assert Pieces(contents)[1..] == Pieces(contents[1..]);
    }
  }

  lemma {:induction false} PiecesSpeakAll(ts: seq<Text>)
    ensures R.Spoken(Pieces(ts)) == Concat(ts)
  {
    if ts != [] {
      PiecesSpeakAll(ts[1..]);
      ConcatFirst(ts);
      assert Pieces(ts)[1..] == Pieces(ts[1..]);
    }
  }

  /**
   * A provider that streams `contents`, read in any pieces: the deltas are the non-empty contents in order, so a
   * text skill fed with them says all that the provider said; and the chat is the header's, or else the chunks'.
   */
  lemma ProvidedIsSpoken(id: Text, contents: seq<Text>, pieces: seq<Text>, headerKey: Option<Json>)
    requires Concat(pieces) == PrintCompletions(id, contents)
    ensures var p := TakeFrames(Start(headerKey), Feed(pieces).frames, Decode);
      && p.deltas == R.Texts(Pieces(contents)) && p.usage.Undefined?
      && R.Spoken(Pieces(p.deltas)) == Concat(contents)
      && p.chatID == if !Truthy(Start(headerKey).chatID) && id != [] && contents != [] then Str(id)
                     else Start(headerKey).chatID
  {
    CompletionsAreChunks(id, contents);
    StreamRoundTrip(Completions(id, contents), pieces, headerKey);
    TakeCompletions(Start(headerKey), id, contents);
    PiecesSpeakAll(R.Texts(Pieces(contents)));
    R.TextsKeepSpoken(Pieces(contents));
    PiecesSpeakAll(contents);
    var none: seq<Text> := [];
    assert none + R.Texts(Pieces(contents)) == R.Texts(Pieces(contents));
  }

  // ---- From the provider to the panel ----

  /** What the compute client hands the skill's generator. */
  function StreamOf(received: seq<Text>, headerKey: Option<Json>): seq<R.Delta> {
    Pieces(TakeFrames(Start(headerKey), Feed(received).frames, Decode).deltas)
  }

  /** The whole way, for every split at either end: the panel shows the contents the provider streamed. */
  lemma ProvidedReachesThePanel(
      id: Text, contents: seq<Text>, received: seq<Text>, headerKey: Option<Json>,
      a: Args, key: Text, run: P.Session, read: Text -> Msg, str: Json -> Text)
    requires Concat(received) == PrintCompletions(id, contents)
    requires P.IsSession(a, key, StreamOf(received, headerKey), run, read)
    requires forall t :: str(Str(t)) == t
    ensures var panel := P.PanelOf(run, str);
      && panel.streamText == Concat(contents) && panel.error.None? && panel.result.Some?
      && Get(Get(panel.result.value, P.OUTPUT_KEY), key) == Str(Trim(Concat(contents)))
  {
    ProvidedIsSpoken(id, contents, received, headerKey);
    P.StreamReachesThePanel(a, key, StreamOf(received, headerKey), run, read, str);
  }
}
