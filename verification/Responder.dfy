/** The agent's side of a call: the skill's generator, the signed chunks and the response (Agent.handleSkillRequest). */
module Responder {
  import opened Wrappers
  import opened CodeUnits
  import opened Json
  import opened Domains
  import opened Caller
  import opened Clock
  import N = NonceCache

  // ---- The generator of a text skill ----

  /** What the model stream yields; anything but a non-empty string is skipped. */
  datatype Delta = Piece(text: Text) | NotAString

  function Texts(ds: seq<Delta>): seq<Text> {
    if ds == [] then []
    else (if ds[0].Piece? && ds[0].text != [] then [ds[0].text] else []) + Texts(ds[1..])
  }

  /** All the text in the stream, skipped or not. */
  function Spoken(ds: seq<Delta>): Text {
    if ds == [] then [] else (if ds[0].Piece? then ds[0].text else []) + Spoken(ds[1..])
  }

  /** The text one delta adds, if any. */
  function Yielded(d: Delta): seq<Text> {
    if d.Piece? && d.text != [] then [d.text] else []
  }

  lemma TextsFirst(ds: seq<Delta>)
    requires ds != []
    ensures Texts(ds) == Yielded(ds[0]) + Texts(ds[1..])
    ensures Spoken(ds) == Concat(Yielded(ds[0])) + Spoken(ds[1..])
  {
    if Yielded(ds[0]) != [] {
      ConcatPrepend(ds[0].text, []);
      assert [ds[0].text] + [] == [ds[0].text] && ds[0].text + [] == ds[0].text;
    }
  }

  /** Skipping loses no text, and nothing empty is yielded. */
  lemma {:induction false} TextsKeepSpoken(ds: seq<Delta>)
    ensures Concat(Texts(ds)) == Spoken(ds)
    ensures forall t :: t in Texts(ds) ==> t != []
  {
    if ds != [] {
      TextsKeepSpoken(ds[1..]);
      TextsFirst(ds);
      ConcatAppend(Yielded(ds[0]), Texts(ds[1..]));
    }
  }

  /** The stream handler: the texts yielded, in order, and the trimmed whole as its return value. */
  method StreamHandler(stream: seq<Delta>) returns (texts: seq<Text>, result: Text)
    ensures texts == Texts(stream)
    ensures Concat(texts) == Spoken(stream)
    ensures result == Trim(Spoken(stream))
  {
    var acc: Text := [];
    texts := [];
    var i := 0;
    while i < |stream|
      invariant 0 <= i <= |stream|
      invariant texts + Texts(stream[i..]) == Texts(stream)
      invariant acc + Spoken(stream[i..]) == Spoken(stream)
    {
      var delta := stream[i];
      TextsFirst(stream[i..]);
      Regroup(texts, Yielded(delta), Texts(stream[i + 1..]));
      RegroupText(acc, Concat(Yielded(delta)), Spoken(stream[i + 1..]));
      assert stream[i..][1..] == stream[i + 1..];
      i := i + 1;
      if !delta.Piece? || delta.text == [] {
        continue;
      }
      ConcatOne(delta.text);
      acc := acc + delta.text;
      texts := texts + [delta.text];
    }
    assert stream[i..] == [] && texts == texts + [] && acc == acc + [];
    TextsKeepSpoken(stream);
    result := Trim(acc);
  }

  lemma ConcatOne(t: Text)
    ensures Concat([t]) == t
  {
    ConcatPrepend(t, []);
    assert [t] + [] == [t] && t + [] == t;
  }

  lemma Regroup(a: seq<Text>, b: seq<Text>, c: seq<Text>)
    ensures a + (b + c) == (a + b) + c
    ensures b == [] ==> a + b == a
  {
  }

  lemma RegroupText(a: Text, b: Text, c: Text)
    ensures a + (b + c) == (a + b) + c
    ensures b == [] ==> a + b == a
  {
  }

  // ---- Serving one admitted request ----

  /** How the handler ends. */
  datatype Finish = Returns(output: Json) | Throws(error: Text)

  function SentError(a: Args, error: Text, ts: int): Msg {
    ResMsg(a.id, ErrBody(error), ts, a.expected, a.me, a.skill,
           Sig(a.expected, Digest(Domain.ResErr(a.id, error, a.expected, a.me, a.skill, ts))), a.expected)
  }

  /** The response with this output, signed at the time it carries. */
  predicate IsAnswer(a: Args, output: Json, m: Msg) {
    m.ResMsg? && m == SentResponse(a, output, output, m.ts)
  }

  predicate IsRefusal(a: Args, m: Msg) {
    m.ResMsg? && m.body.ErrBody? && m == SentError(a, m.body.error, m.ts)
  }

  /** A complete or interrupted stream: chunks 0, 1, ... of the yielded texts, then at most one response. */
  ghost predicate IsTranscript(
      a: Args, sent: seq<Msg>, k: nat, texts: seq<Text>, finish: Finish, attest: Option<bool>)
  {
    && k <= |texts| && k <= |sent| <= k + 1
    && AreChunks(a, sent[..k], texts[..k], 0)
    && (attest.Some? <==> |sent| == k + 1)
    && (attest == Some(true) ==> k == |texts| && finish.Returns?)
    && (attest == Some(true) ==> IsAnswer(a, finish.output, sent[k]))
    && (attest == Some(false) ==> IsRefusal(a, sent[k]))
  }

  /** The slot of the final send: a chunk that did not get through has used one up. */
  function FinalSlot(texts: seq<Text>, k: nat): nat {
    if k < |texts| then k + 1 else k
  }

  /** What got through and when it was signed: chunks up to the first failed send, and the response if its own holds. */
  predicate IsSchedule(sent: seq<Msg>, k: nat, texts: seq<Text>, clock: nat -> int, up: nat -> bool) {
    && k <= |texts| && (|sent| == if up(FinalSlot(texts, k)) then k + 1 else k)
    && (forall i :: 0 <= i < k ==> up(i)) && (k < |texts| ==> !up(k))
    && (forall i :: 0 <= i < k ==> sent[i].ChunkMsg? && sent[i].ts == clock(i))
    && (|sent| == k + 1 ==> sent[k].ResMsg? && sent[k].ts == clock(FinalSlot(texts, k)))
  }

  /** The record of the end of the run: the handler's output or error, or the error of the send that failed. */
  function FinalRecord(
      a: Args, texts: seq<Text>, k: nat, finish: Finish, sendError: Text, clock: nat -> int): Domain
  {
    var ts := clock(FinalSlot(texts, k));
    if k < |texts| then Domain.ResErr(a.id, sendError, a.expected, a.me, a.skill, ts)
    else
      match finish
      case Returns(output) => Domain.ResOk(a.id, output, a.expected, a.me, a.skill, ts)
      case Throws(error) => Domain.ResErr(a.id, error, a.expected, a.me, a.skill, ts)
  }

  /** The records of the first `n` texts, each signed at the time of its own send. */
  function ChunkRecords(a: Args, texts: seq<Text>, n: nat, clock: nat -> int): (r: set<Domain>)
    requires n <= |texts|
  {
    set i | 0 <= i < n :: Domain.Chunk(a.id, i, texts[i], a.expected, a.me, a.skill, clock(i))
  }

  lemma OneMoreRecord(a: Args, texts: seq<Text>, n: nat, clock: nat -> int)
    requires n < |texts|
    ensures ChunkRecords(a, texts, n + 1, clock) ==
      ChunkRecords(a, texts, n, clock) + {Domain.Chunk(a.id, n, texts[n], a.expected, a.me, a.skill, clock(n))}
  {
    var more := ChunkRecords(a, texts, n + 1, clock);
    var x := Domain.Chunk(a.id, n, texts[n], a.expected, a.me, a.skill, clock(n));
    forall d | d in ChunkRecords(a, texts, n, clock) + {x} ensures d in more {
      var i :| 0 <= i < n + 1 && d == Domain.Chunk(a.id, i, texts[i], a.expected, a.me, a.skill, clock(i));
    }
  }

  /** What is signed over a run that ended at `k`: one chunk a send tried, and one response. */
  function RunRecords(
      a: Args, texts: seq<Text>, k: nat, finish: Finish, sendError: Text, clock: nat -> int): (r: set<Domain>)
    requires k <= |texts|
  {
    ChunkRecords(a, texts, if k < |texts| then k + 1 else k, clock)
    + {FinalRecord(a, texts, k, finish, sendError, clock)}
  }

  /** The chunks sent so far, each at its own time. */
  predicate IsUnderWay(a: Args, sent: seq<Msg>, texts: seq<Text>, clock: nat -> int, up: nat -> bool) {
    && |sent| <= |texts| && AreChunks(a, sent, texts[..|sent|], 0)
    && forall i :: 0 <= i < |sent| ==> up(i) && sent[i].ts == clock(i)
  }

  lemma NextChunk(a: Args, sent: seq<Msg>, texts: seq<Text>, clock: nat -> int, up: nat -> bool)
    requires |sent| < |texts| && IsUnderWay(a, sent, texts, clock, up) && up(|sent|)
    ensures var k := |sent|; IsUnderWay(a, sent + [SentChunk(a, k, texts[k], clock(k))], texts, clock, up)
  {
  }

  /** A run without a response. */
  lemma EndsSilent(
      a: Args, sent: seq<Msg>, texts: seq<Text>, finish: Finish, clock: nat -> int, up: nat -> bool)
    requires IsUnderWay(a, sent, texts, clock, up)
    requires !up(FinalSlot(texts, |sent|)) && (|sent| < |texts| ==> !up(|sent|))
    ensures IsTranscript(a, sent, |sent|, texts, finish, None) && IsSchedule(sent, |sent|, texts, clock, up)
  {
    assert sent[..|sent|] == sent;
  }

  /** A run with the response `last`. */
  lemma EndsAnswered(
      a: Args, sent: seq<Msg>, last: Msg, texts: seq<Text>, finish: Finish, clock: nat -> int, up: nat -> bool)
    requires IsUnderWay(a, sent, texts, clock, up)
    requires up(FinalSlot(texts, |sent|)) && (|sent| < |texts| ==> !up(|sent|))
    requires last.ResMsg? && last.ts == clock(FinalSlot(texts, |sent|))
    requires if |sent| == |texts| && finish.Returns? then IsAnswer(a, finish.output, last) else IsRefusal(a, last)
    ensures IsSchedule(sent + [last], |sent|, texts, clock, up)
    ensures IsTranscript(a, sent + [last], |sent|, texts, finish, Some(|sent| == |texts| && finish.Returns?))
  {
    assert (sent + [last])[..|sent|] == sent;
  }

  lemma ChunkRecordsAreOwn(a: Args, texts: seq<Text>, n: nat, clock: nat -> int, d: Domain)
    requires n <= |texts| && d in ChunkRecords(a, texts, n, clock)
    ensures IsOwnChunk(a, texts, d)
  {
  }

  /** All that is signed is this run's. */
  lemma RunRecordsAreOneRun(
      a: Args, texts: seq<Text>, k: nat, finish: Finish, sendError: Text, clock: nat -> int)
    requires k <= |texts| && (finish.Returns? ==> Valid(finish.output))
    ensures var signed := RunRecords(a, texts, k, finish, sendError, clock);
      && OneRun(a, signed, texts, if finish.Returns? then Some(finish.output) else None)
      && forall d :: d in signed ==> IsOwnRecord(a, d)
  {
    var last := FinalRecord(a, texts, k, finish, sendError, clock);
    forall d | d in RunRecords(a, texts, k, finish, sendError, clock) ensures IsOwnChunk(a, texts, d) || d == last {
      if d != last {
        ChunkRecordsAreOwn(a, texts, if k < |texts| then k + 1 else k, clock, d);
      }
    }
  }

  /** A message for this call. */
  predicate IsOwnRecord(a: Args, d: Domain) {
    && (d.Chunk? || d.ResOk? || d.ResErr?)
    && d.id == a.id && d.responder == a.expected && d.caller == a.me && d.skill == a.skill
  }

  /** A chunk of this run. */
  predicate IsOwnChunk(a: Args, texts: seq<Text>, d: Domain) {
    IsOwnRecord(a, d) && d.Chunk? && 0 <= d.seqNo < |texts| && d.text == texts[d.seqNo]
  }

  /**
   * Runs the generator, signing and sending each text, then the response. `up` says which sends get through and
   * `clock` what time each is signed at. A failed chunk send is answered by an error response; a failed response
   * send leaves the call without one and without an attestation.
   */
  method Serve(a: Args, texts: seq<Text>, finish: Finish, sendError: Text, clock: nat -> int, up: nat -> bool)
    returns (sent: seq<Msg>, k: nat, attest: Option<bool>, signed: set<Domain>)
    requires finish.Returns? ==> Valid(finish.output)
    ensures IsTranscript(a, sent, k, texts, finish, attest) && IsSchedule(sent, k, texts, clock, up)
    ensures attest == if up(FinalSlot(texts, k)) then Some(k == |texts| && finish.Returns?) else None
    ensures |sent| == k + 1 ==> Record(sent[k]) == FinalRecord(a, texts, k, finish, sendError, clock)
    ensures signed == RunRecords(a, texts, k, finish, sendError, clock)
    ensures OneRun(a, signed, texts, if finish.Returns? then Some(finish.output) else None)
    ensures forall d :: d in signed ==> IsOwnRecord(a, d)
  {
    sent, signed, k := [], {}, 0;
    var failure: Option<Text> := if finish.Throws? then Some(finish.error) else None;
    var chunkFailed := false;
    while k < |texts| && !chunkFailed
      invariant 0 <= k <= |texts|
      invariant |sent| == k && IsUnderWay(a, sent, texts, clock, up)
      invariant chunkFailed ==> k < |texts| && failure == Some(sendError) && !up(k)
      invariant !chunkFailed ==> failure == if finish.Throws? then Some(finish.error) else None
      invariant signed == ChunkRecords(a, texts, if chunkFailed then k + 1 else k, clock)
      decreases |texts| - k, !chunkFailed
    {
      OneMoreRecord(a, texts, k, clock);
      signed := signed + {Domain.Chunk(a.id, k, texts[k], a.expected, a.me, a.skill, clock(k))};
      if up(k) {
        NextChunk(a, sent, texts, clock, up);
        sent := sent + [SentChunk(a, k, texts[k], clock(k))];
        k := k + 1;
      } else {
        failure := Some(sendError);
        chunkFailed := true;
      }
    }
    RunRecordsAreOneRun(a, texts, k, finish, sendError, clock);
    var attempt := if chunkFailed then k + 1 else k;
    if !up(attempt) {
      EndsSilent(a, sent, texts, finish, clock, up);
    }
    if failure.Some? {
      signed := signed + {Domain.ResErr(a.id, failure.value, a.expected, a.me, a.skill, clock(attempt))};
      if !up(attempt) {
        return sent, k, None, signed;
      }
      var error := SentError(a, failure.value, clock(attempt));
      EndsAnswered(a, sent, error, texts, finish, clock, up);
      sent := sent + [error];
      attest := Some(false);
    } else {
      signed := signed + {Domain.ResOk(a.id, finish.output, a.expected, a.me, a.skill, clock(attempt))};
      if !up(attempt) {
        return sent, k, None, signed;
      }
      var answer := SentResponse(a, finish.output, finish.output, clock(attempt));
      EndsAnswered(a, sent, answer, texts, finish, clock, up);
      sent := sent + [answer];
      attest := Some(true);
    }
  }

  lemma ErrorEndsTheCall(a: Args, error: Text, ts: int)
    ensures EndsWith(a, SentError(a, error, ts), Failed(Remote(error)))
  {
  }

  lemma AnswerEndsTheCall(a: Args, output: Json, ts: int)
    requires Valid(output)
    ensures EndsWith(a, SentResponse(a, output, output, ts), Returned(output))
  {
    forall now | Distance(now, ts) <= a.maxAge
      ensures ResponseOutcome(a, SentResponse(a, output, output, ts), now) == Returned(output)
    {
      SentResponseAccepted(a, output, output, ts, now);
    }
  }

  /**
   * What a caller hears of a run that was answered, delivered in order and in time: the texts up to the first send
   * that failed, and then the output, the handler's error, or the error of that send.
   */
  lemma ServedIsHeard(
      a: Args, ps: seq<Poll>, sent: seq<Msg>, k: nat, texts: seq<Text>, finish: Finish, sendError: Text,
      clock: nat -> int)
    requires finish.Returns? ==> Valid(finish.output)
    requires IsTranscript(a, sent, k, texts, finish, Some(k == |texts| && finish.Returns?))
    requires Record(sent[k]) == FinalRecord(a, texts, k, finish, sendError, clock)
    requires Timely(a, ps) && Relevant(a, ps) == sent
    ensures Receive(a, ps, 0).shown == texts[..k]
    ensures Receive(a, ps, 0).outcome ==
      if k < |texts| then Failed(Remote(sendError))
      else if finish.Throws? then Failed(Remote(finish.error))
      else Returned(finish.output)
  {
    hide Receive;
    hide Relevant;
    hide ResponseOutcome;
    var last := sent[k];
    assert sent == sent[..k] + [last];
    if k == |texts| && finish.Returns? {
      AnswerEndsTheCall(a, finish.output, last.ts);
      InOrderUpTo(a, ps, 0, sent[..k], texts[..k], last, Returned(finish.output));
    } else {
      ErrorEndsTheCall(a, last.body.error, last.ts);
      InOrderUpTo(a, ps, 0, sent[..k], texts[..k], last, Failed(Remote(last.body.error)));
    }
  }

  /** Whatever else the key signs for other ids, callers or skills, or for other purposes, does not disturb a run. */
  lemma OtherRecordsDoNotMatter(
      a: Args, signed: set<Domain>, others: set<Domain>, texts: seq<Text>, output: Option<Json>)
    requires OneRun(a, signed, texts, output)
    requires forall d :: d in others ==> WellFormed(d)
    requires forall d :: d in others && (d.Chunk? || d.ResOk?) ==>
      d.id != a.id || d.caller != a.me || d.skill != a.skill
    ensures OneRun(a, signed + others, texts, output)
  {
  }

  // ---- Admission ----

  /** What the checks after the replay guard find. */
  datatype Checks = Checks(senderMatches: bool, skillKnown: bool, paymentAccepted: bool, inputValid: bool)

  datatype Decision =
    | Refused(verdict: N.Verdict)
    | WrongSender
    | UnknownSkill
    | PaymentRejected
    | InvalidInput
    | Admitted

  /** The nonce is spent as soon as it is fresh, even if a later check refuses the request. */
  method Admit(guard: N.Guard, req: N.Request, now: int, c: Checks) returns (d: Decision)
    modifies guard
    ensures guard.seen == N.After(old(guard.seen), req, now, guard.maxAge, guard.cap)
    ensures d == Admitted <==>
      N.Judge(old(guard.seen), req, now, guard.maxAge).Accepted?
      && c.senderMatches && c.skillKnown && c.paymentAccepted && c.inputValid
    ensures d.Refused? <==> !N.Judge(old(guard.seen), req, now, guard.maxAge).Accepted?
    ensures d == WrongSender ==> !c.senderMatches
    ensures d == UnknownSkill ==> c.senderMatches && !c.skillKnown
    ensures d == PaymentRejected ==> c.senderMatches && c.skillKnown && !c.paymentAccepted
    ensures d == InvalidInput ==> c.senderMatches && c.skillKnown && c.paymentAccepted && !c.inputValid
  {
    var v := guard.RejectStale(req, now);
    if !v.Accepted? { return Refused(v); }
    if !c.senderMatches { return WrongSender; }
    if !c.skillKnown { return UnknownSkill; }
    if !c.paymentAccepted { return PaymentRejected; }
    if !c.inputValid { return InvalidInput; }
    d := Admitted;
  }
}
