/** callSkillStream and callSkill: poll the inbox, check chunks and response against the expected signer, return. */
module Caller {
  import opened Wrappers
  import opened Clock
  import opened CodeUnits
  import opened Json
  import opened Domains

  // Signatures are idealised: one verifies only against the key and digest it was made with. Public keys are taken to
  // be in lower case already.

  datatype Sig = Sig(key: Text, digest: Text)

  datatype Body = OkBody(output: Json) | ErrBody(error: Text)

  datatype Msg =
    | NotJson
    | Request
    | Unrelated
    | ChunkMsg(id: Text, seqNo: int, text: Text, ts: int, responder: Text, caller: Text, skill: Text,
               sig: Sig, signer: Text)
    | ResMsg(id: Text, body: Body, ts: int, responder: Text, caller: Text, skill: Text, sig: Sig, signer: Text)
    /** Passes the guard for a chunk or a response, but has a field no signed record can have. */
    | Malformed(id: Text, isChunk: bool)

  /** One poll: the message found, if any, and the clock when the loop was entered and when freshness was checked. */
  datatype Poll = Poll(msg: Option<Msg>, loopNow: int, checkNow: int)

  /** The fixed part of one call. */
  datatype Args = Args(id: Text, expected: Text, me: Text, skill: Text, maxAge: int, deadline: int)

  datatype Failure =
    | SignerMismatch
    | ResponderMismatch
    | NotForThisCaller
    | SkillMismatch
    | OutOfOrder
    | TooOld
    | BadSignature
    | BadField
    | Remote(error: Text)
    | TimedOut

  datatype Outcome = Waiting | Returned(output: Json) | Failed(why: Failure)

  function Record(m: Msg): Domain
    requires m.ChunkMsg? || m.ResMsg?
  {
    match m
    case ChunkMsg(id, n, text, ts, responder, caller, skill, _, _) =>
      Domain.Chunk(id, n, text, responder, caller, skill, ts)
    case ResMsg(id, OkBody(output), ts, responder, caller, skill, _, _) =>
      Domain.ResOk(id, output, responder, caller, skill, ts)
    case ResMsg(id, ErrBody(error), ts, responder, caller, skill, _, _) =>
      Domain.ResErr(id, error, responder, caller, skill, ts)
  }

  predicate Verifies(m: Msg, key: Text)
    requires m.ChunkMsg? || m.ResMsg?
  {
    m.sig == Sig(key, Digest(Record(m)))
  }

  /** What is wrong with a chunk whose id matches, in the order the checks are made. */
  function ChunkFault(a: Args, m: Msg, next: int, now: int): Option<Failure>
    requires m.ChunkMsg?
  {
    if m.signer != a.expected then Some(SignerMismatch)
    else if m.responder != a.expected then Some(ResponderMismatch)
    else if m.caller != a.me then Some(NotForThisCaller)
    else if m.skill != a.skill then Some(SkillMismatch)
    else if m.seqNo != next then Some(OutOfOrder)
    else if Distance(now, m.ts) > a.maxAge then Some(TooOld)
    else if !Verifies(m, a.expected) then Some(BadSignature)
    else None
  }

  function ResponseOutcome(a: Args, m: Msg, now: int): Outcome
    requires m.ResMsg?
  {
    if m.signer != a.expected then Failed(SignerMismatch)
    else if m.responder != a.expected then Failed(ResponderMismatch)
    else if m.caller != a.me then Failed(NotForThisCaller)
    else if m.skill != a.skill then Failed(SkillMismatch)
    else if Distance(now, m.ts) > a.maxAge then Failed(TooOld)
    else if !Verifies(m, a.expected) then Failed(BadSignature)
    else
      match m.body
      case ErrBody(error) => Failed(Remote(error))
      case OkBody(output) => Returned(output)
  }

  datatype Heard = Heard(outcome: Outcome, shown: seq<Text>)

  /** The whole receive loop, from the chunk numbered `next`. */
  function Receive(a: Args, ps: seq<Poll>, next: nat): Heard {
    if ps == [] then Heard(Waiting, [])
    else if ps[0].loopNow >= a.deadline then Heard(Failed(TimedOut), [])
    else
      match ps[0].msg
      case Some(m) =>
        if m.ChunkMsg? && m.id == a.id then
          var fault := ChunkFault(a, m, next, ps[0].checkNow);
          if fault.Some? then Heard(Failed(fault.value), [])
          else
            var rest := Receive(a, ps[1..], next + 1);
            Heard(rest.outcome, [m.text] + rest.shown)
        else if m.ResMsg? && m.id == a.id then Heard(ResponseOutcome(a, m, ps[0].checkNow), [])
        else if m.Malformed? && m.id == a.id then Heard(Failed(BadField), [])
        else Receive(a, ps[1..], next)
      case None => Receive(a, ps[1..], next)
  }

  /** callSkill does not look at chunks. */
  function ReceiveFinal(a: Args, ps: seq<Poll>): Outcome {
    if ps == [] then Waiting
    else if ps[0].loopNow >= a.deadline then Failed(TimedOut)
    else if ps[0].msg.Some? && ps[0].msg.value.ResMsg? && ps[0].msg.value.id == a.id then
      ResponseOutcome(a, ps[0].msg.value, ps[0].checkNow)
    else if ps[0].msg.Some? && ps[0].msg.value == Malformed(a.id, false) then Failed(BadField)
    else ReceiveFinal(a, ps[1..])
  }

  /** Polls in turn; `shown` collects the texts passed to `onChunk`, in order. */
  method CallSkillStream(a: Args, ps: seq<Poll>) returns (outcome: Outcome, shown: seq<Text>)
    ensures Heard(outcome, shown) == Receive(a, ps, 0)
  {
    hide Verifies;
    shown := [];
    var nextSeq := 0;
    var i := 0;
    while i < |ps| && ps[i].loopNow < a.deadline
      invariant 0 <= i <= |ps|
      invariant nextSeq == |shown|
      invariant var rest := Receive(a, ps[i..], nextSeq); Receive(a, ps, 0) == Heard(rest.outcome, shown + rest.shown)
    {
      var p := ps[i];
      assert ps[i..][1..] == ps[i + 1..];
      i := i + 1;
      if p.msg.None? {
        continue;
      }
      var m := p.msg.value;
      if m.ChunkMsg? {
        if m.id != a.id { continue; }
        var fault := CheckChunk(a, m, nextSeq, p.checkNow);
        if fault.Some? { return Failed(fault.value), shown; }
        ghost var rest := Receive(a, ps[i..], nextSeq + 1);
        assert shown + ([m.text] + rest.shown) == (shown + [m.text]) + rest.shown;
        shown := shown + [m.text];
        nextSeq := nextSeq + 1;
        continue;
      }
      if m.Malformed? && m.id == a.id { return Failed(BadField), shown; }
      if !m.ResMsg? || m.id != a.id { continue; }
      outcome := CheckResponse(a, m, p.checkNow);
      return outcome, shown;
    }
    if i < |ps| {
      return Failed(TimedOut), shown;
    }
    outcome := Waiting;
  }

  method CheckChunk(a: Args, m: Msg, next: int, now: int) returns (fault: Option<Failure>)
    requires m.ChunkMsg?
    ensures fault == ChunkFault(a, m, next, now)
  {
    if m.signer != a.expected { return Some(SignerMismatch); }
    if m.responder != a.expected { return Some(ResponderMismatch); }
    if m.caller != a.me { return Some(NotForThisCaller); }
    if m.skill != a.skill { return Some(SkillMismatch); }
    if m.seqNo != next { return Some(OutOfOrder); }
    if Distance(now, m.ts) > a.maxAge { return Some(TooOld); }
    if !Verifies(m, a.expected) { return Some(BadSignature); }
    fault := None;
  }

  method CheckResponse(a: Args, m: Msg, now: int) returns (o: Outcome)
    requires m.ResMsg?
    ensures o == ResponseOutcome(a, m, now)
  {
    if m.signer != a.expected { return Failed(SignerMismatch); }
    if m.responder != a.expected { return Failed(ResponderMismatch); }
    if m.caller != a.me { return Failed(NotForThisCaller); }
    if m.skill != a.skill { return Failed(SkillMismatch); }
    if Distance(now, m.ts) > a.maxAge { return Failed(TooOld); }
    if !Verifies(m, a.expected) { return Failed(BadSignature); }
    if m.body.ErrBody? { return Failed(Remote(m.body.error)); }
    o := Returned(m.body.output);
  }

  method CallSkill(a: Args, ps: seq<Poll>) returns (outcome: Outcome)
    ensures outcome == ReceiveFinal(a, ps)
  {
    var i := 0;
    while i < |ps| && ps[i].loopNow < a.deadline
      invariant 0 <= i <= |ps|
      invariant ReceiveFinal(a, ps) == ReceiveFinal(a, ps[i..])
    {
      var p := ps[i];
      assert ps[i..][1..] == ps[i + 1..];
      i := i + 1;
      if p.msg == Some(Malformed(a.id, false)) {
        return Failed(BadField);
      }
      if p.msg.None? || !p.msg.value.ResMsg? || p.msg.value.id != a.id {
        continue;
      }
      outcome := CheckResponse(a, p.msg.value, p.checkNow);
      return;
    }
    outcome := if i < |ps| then Failed(TimedOut) else Waiting;
  }

  // ---- Which messages are accepted, and why the others are not ----

  /** Not older than the age limit, and not that far in the future either. */
  predicate IsFresh(a: Args, ts: int, now: int) {
    now - a.maxAge <= ts <= now + a.maxAge
  }

  /** From the expected responder, to this caller, about this skill. */
  predicate IsExpected(a: Args, m: Msg)
    requires m.ChunkMsg? || m.ResMsg?
  {
    m.signer == a.expected && m.responder == a.expected && m.caller == a.me && m.skill == a.skill
  }

  /** What each outcome of the checks on a chunk means, and which check comes first. */
  lemma ChunkFaultMeans(a: Args, m: Msg, next: int, now: int)
    requires m.ChunkMsg?
    ensures var f := ChunkFault(a, m, next, now);
      && (f.None? <==> IsExpected(a, m) && m.seqNo == next && IsFresh(a, m.ts, now) && Verifies(m, a.expected))
      && (f == Some(SignerMismatch) <==> m.signer != a.expected)
      && (f == Some(ResponderMismatch) <==> m.signer == a.expected && m.responder != a.expected)
      && (f == Some(NotForThisCaller) <==> m.signer == m.responder == a.expected && m.caller != a.me)
      && (f == Some(SkillMismatch) <==> m.signer == m.responder == a.expected && m.caller == a.me && m.skill != a.skill)
      && (f == Some(OutOfOrder) <==> IsExpected(a, m) && m.seqNo != next)
      && (f == Some(TooOld) <==> IsExpected(a, m) && m.seqNo == next && !IsFresh(a, m.ts, now))
      && (f == Some(BadSignature) <==>
            IsExpected(a, m) && m.seqNo == next && IsFresh(a, m.ts, now) && !Verifies(m, a.expected))
  {
  }

  /** The same for a response, signed errors included. */
  lemma ResponseOutcomeMeans(a: Args, m: Msg, now: int)
    requires m.ResMsg?
    ensures var o := ResponseOutcome(a, m, now);
      var good := IsExpected(a, m) && IsFresh(a, m.ts, now) && Verifies(m, a.expected);
      && (o.Returned? <==> good && m.body.OkBody?) && (o.Returned? ==> o.output == m.body.output)
      && (good && m.body.ErrBody? ==> o == Failed(Remote(m.body.error)))
      && (o.Failed? && o.why.Remote? ==> good && m.body == ErrBody(o.why.error))
      && (o == Failed(SignerMismatch) <==> m.signer != a.expected)
      && (o == Failed(ResponderMismatch) <==> m.signer == a.expected && m.responder != a.expected)
      && (o == Failed(NotForThisCaller) <==> m.signer == m.responder == a.expected && m.caller != a.me)
      && (o == Failed(SkillMismatch) <==>
            m.signer == m.responder == a.expected && m.caller == a.me && m.skill != a.skill)
      && (o == Failed(TooOld) <==> IsExpected(a, m) && !IsFresh(a, m.ts, now))
      && (o == Failed(BadSignature) <==> IsExpected(a, m) && IsFresh(a, m.ts, now) && !Verifies(m, a.expected))
  {
  }

  // ---- Where the loops stop ----

  /** After what `h` stands for, the loop hears `rest`. */
  function Then(h: Heard, rest: Heard): Heard {
    Heard(rest.outcome, h.shown + rest.shown)
  }

  /** What a poll that does not end the call lets it hear. */
  function OneHeard(a: Args, p: Poll): Heard {
    Heard(Waiting, if IsChunkFor(a, p) then [p.msg.value.text] else [])
  }

  predicate LetsGoOn(a: Args, p: Poll, next: nat) {
    && p.loopNow < a.deadline && !IsResponseFor(a, p)
    && (p.msg.Some? && IsFor(a, p.msg.value) ==>
          IsChunkFor(a, p) && ChunkFault(a, p.msg.value, next, p.checkNow).None?)
  }

  lemma WaitingFirst(a: Args, ps: seq<Poll>, next: nat)
    requires ps != [] && Receive(a, ps, next).outcome.Waiting?
    ensures LetsGoOn(a, ps[0], next)
  {
  }

  lemma GoesOn(a: Args, ps: seq<Poll>, next: nat)
    requires ps != [] && LetsGoOn(a, ps[0], next)
    ensures var one := OneHeard(a, ps[0]);
      Receive(a, ps, next) == Then(one, Receive(a, ps[1..], next + |one.shown|))
  {
  }

  lemma Rejoin(one: Heard, h: Heard, front: Heard, tail: Heard, all: Heard, rest: Heard)
    requires front == Then(one, h) && tail == Then(h, rest) && all == Then(one, tail)
    ensures all == Then(front, rest) && |front.shown| == |one.shown| + |h.shown|
  {
  }

  lemma SplitAt(ps: seq<Poll>, i: nat)
    requires i <= |ps|
    ensures ps[..i] + ps[i..] == ps
  {
  }

  lemma FrontFirst(front: seq<Poll>, back: seq<Poll>)
    requires front != []
    ensures (front + back)[0] == front[0] && (front + back)[1..] == front[1..] + back
  {
  }

  /** The first poll of a call that waits to the end of `front` is heard alike whatever comes after `front`. */
  lemma FirstOfBoth(a: Args, front: seq<Poll>, back: seq<Poll>, next: nat)
    requires front != [] && Receive(a, front, next).outcome.Waiting?
    ensures var one := OneHeard(a, front[0]);
      && Receive(a, front, next) == Then(one, Receive(a, front[1..], next + |one.shown|))
      && Receive(a, front + back, next) == Then(one, Receive(a, front[1..] + back, next + |one.shown|))
  {
    FrontFirst(front, back);
    WaitingFirst(a, front, next);
    GoesOn(a, front, next);
    GoesOn(a, front + back, next);
  }

  /** While the loop waits, what comes later is heard as if it came first. */
  lemma {:induction false} WaitingThenRest(a: Args, front: seq<Poll>, back: seq<Poll>, next: nat)
    requires Receive(a, front, next).outcome.Waiting?
    ensures var h := Receive(a, front, next);
      Receive(a, front + back, next) == Then(h, Receive(a, back, next + |h.shown|))
    decreases |front|
  {
    hide Verifies;
    if front == [] {
      NothingFirst(a, back, next);
    } else {
      FirstOfBoth(a, front, back, next);
      var n := next + |OneHeard(a, front[0]).shown|;
      WaitingThenRest(a, front[1..], back, n);
      var h := Receive(a, front[1..], n);
      Rejoin(OneHeard(a, front[0]), h, Receive(a, front, next), Receive(a, front[1..] + back, n),
             Receive(a, front + back, next), Receive(a, back, n + |h.shown|));
    }
  }

  lemma NothingFirst(a: Args, back: seq<Poll>, next: nat)
    ensures Receive(a, [] + back, next) == Then(Receive(a, [], next), Receive(a, back, next))
  {
    assert [] + back == back;
  }

  lemma WaitsThenGoesOn(a: Args, ps: seq<Poll>, next: nat, i: nat)
    requires i <= |ps| && Receive(a, ps[..i], next).outcome.Waiting?
    ensures var h := Receive(a, ps[..i], next);
      Receive(a, ps, next) == Then(h, Receive(a, ps[i..], next + |h.shown|))
  {
    hide Verifies;
    SplitAt(ps, i);
    WaitingThenRest(a, ps[..i], ps[i..], next);
  }

  lemma {:induction false} FinalWaitsThenGoesOn(a: Args, ps: seq<Poll>, i: nat)
    requires i <= |ps| && ReceiveFinal(a, ps[..i]).Waiting?
    ensures ReceiveFinal(a, ps) == ReceiveFinal(a, ps[i..])
    decreases i
  {
    if i == 0 {
      assert ps[0..] == ps;
    } else {
      assert ps[..i][1..] == ps[1..][..i - 1] && ps[1..][i - 1..] == ps[i..] && ps[..i][0] == ps[0];
      if IsResponseFor(a, ps[0]) {
        assert ResponseOutcome(a, ps[0].msg.value, ps[0].checkNow).Waiting?;
        ResponseOutcomeMeans(a, ps[0].msg.value, ps[0].checkNow);
      } else {
        FinalWaitsThenGoesOn(a, ps[1..], i - 1);
      }
    }
  }

  /**
   * A message for this call that is in order and from the right peer, but too old when it is checked, ends the call
   * with that failure: after any polls the streaming loop waits through, for a chunk and for a response, and after
   * any that the other loop waits through, for a response.
   */
  lemma StaleEndsTheCall(a: Args, ps: seq<Poll>, i: nat)
    requires i < |ps| && ps[i].loopNow < a.deadline
    requires IsChunkFor(a, ps[i]) || IsResponseFor(a, ps[i])
    requires IsExpected(a, ps[i].msg.value) && !IsFresh(a, ps[i].msg.value.ts, ps[i].checkNow)
    ensures var h := Receive(a, ps[..i], 0); var m := ps[i].msg.value;
      h.outcome.Waiting? && (m.ChunkMsg? ==> m.seqNo == |h.shown|) ==>
        Receive(a, ps, 0) == Heard(Failed(TooOld), h.shown)
    ensures ReceiveFinal(a, ps[..i]).Waiting? && ps[i].msg.value.ResMsg? ==> ReceiveFinal(a, ps) == Failed(TooOld)
  {
    var h, m := Receive(a, ps[..i], 0), ps[i].msg.value;
    if h.outcome.Waiting? {
      WaitsThenGoesOn(a, ps, 0, i);
      assert h.shown + [] == h.shown;
      if m.ChunkMsg? {
        ReceiveChunk(a, ps[i..], |h.shown|);
        ChunkFaultMeans(a, m, |h.shown|, ps[i].checkNow);
      } else {
        ReceiveResponse(a, ps[i..], |h.shown|);
        ResponseOutcomeMeans(a, m, ps[i].checkNow);
      }
    }
    if ReceiveFinal(a, ps[..i]).Waiting? && m.ResMsg? {
      FinalWaitsThenGoesOn(a, ps, i);
      ResponseOutcomeMeans(a, m, ps[i].checkNow);
    }
  }

  /** The first poll at or after the deadline ends a call that still waits. */
  lemma DeadlineEndsTheCall(a: Args, ps: seq<Poll>, i: nat)
    requires i < |ps| && ps[i].loopNow >= a.deadline
    ensures Receive(a, ps[..i], 0).outcome.Waiting? ==>
      Receive(a, ps, 0) == Heard(Failed(TimedOut), Receive(a, ps[..i], 0).shown)
    ensures ReceiveFinal(a, ps[..i]).Waiting? ==> ReceiveFinal(a, ps) == Failed(TimedOut)
  {
    if Receive(a, ps[..i], 0).outcome.Waiting? {
      WaitsThenGoesOn(a, ps, 0, i);
      assert Receive(a, ps[..i], 0).shown + [] == Receive(a, ps[..i], 0).shown;
    }
    if ReceiveFinal(a, ps[..i]).Waiting? {
      FinalWaitsThenGoesOn(a, ps, i);
    }
  }

  /** Everything up to poll `i` was polled before the deadline. */
  predicate InTime(a: Args, ps: seq<Poll>, i: nat)
    requires i < |ps|
  {
    forall k :: 0 <= k <= i ==> ps[k].loopNow < a.deadline
  }

  /** A response of this call with this output, polled in time and checked in every respect. */
  ghost predicate IsAccepted(a: Args, ps: seq<Poll>, i: nat, output: Json) {
    && i < |ps| && InTime(a, ps, i) && IsResponseFor(a, ps[i])
    && IsExpected(a, ps[i].msg.value) && IsFresh(a, ps[i].msg.value.ts, ps[i].checkNow)
    && Verifies(ps[i].msg.value, a.expected) && ps[i].msg.value.body == OkBody(output)
  }

  lemma AcceptedLater(a: Args, ps: seq<Poll>, i: nat, output: Json)
    requires ps != [] && ps[0].loopNow < a.deadline && IsAccepted(a, ps[1..], i, output)
    ensures IsAccepted(a, ps, i + 1, output)
  {
    forall k | 0 <= k <= i + 1 ensures ps[k].loopNow < a.deadline {
      assert k > 0 ==> ps[k] == ps[1..][k - 1];
    }
  }

  /** A returned output is that of a fresh, verified response polled before the deadline. */
  lemma {:induction false} ReturnedIsAccepted(a: Args, ps: seq<Poll>, next: nat) returns (i: nat)
    requires Receive(a, ps, next).outcome.Returned?
    ensures IsAccepted(a, ps, i, Receive(a, ps, next).outcome.output)
    decreases |ps|
  {
    if IsResponseFor(a, ps[0]) {
      ReceiveResponse(a, ps, next);
      ResponseOutcomeMeans(a, ps[0].msg.value, ps[0].checkNow);
      i := 0;
    } else {
      var later := next;
      if IsChunkFor(a, ps[0]) {
        ReceiveChunk(a, ps, next);
        later := next + 1;
      }
      i := ReturnedIsAccepted(a, ps[1..], later);
      AcceptedLater(a, ps, i, Receive(a, ps, next).outcome.output);
      i := i + 1;
    }
  }

  /** The same for callSkill. */
  lemma {:induction false} FinalIsAccepted(a: Args, ps: seq<Poll>) returns (i: nat)
    requires ReceiveFinal(a, ps).Returned?
    ensures IsAccepted(a, ps, i, ReceiveFinal(a, ps).output)
    decreases |ps|
  {
    if IsResponseFor(a, ps[0]) {
      ResponseOutcomeMeans(a, ps[0].msg.value, ps[0].checkNow);
      i := 0;
    } else {
      i := FinalIsAccepted(a, ps[1..]);
      AcceptedLater(a, ps, i, ReceiveFinal(a, ps).output);
      i := i + 1;
    }
  }

  /** A chunk of this call with this number and text, polled in time and checked in every respect. */
  ghost predicate IsAcceptedChunk(a: Args, ps: seq<Poll>, i: nat, n: nat, text: Text) {
    && i < |ps| && InTime(a, ps, i) && IsChunkFor(a, ps[i])
    && IsExpected(a, ps[i].msg.value) && IsFresh(a, ps[i].msg.value.ts, ps[i].checkNow)
    && Verifies(ps[i].msg.value, a.expected) && ps[i].msg.value.seqNo == n && ps[i].msg.value.text == text
  }

  lemma AcceptedChunkLater(a: Args, ps: seq<Poll>, i: nat, n: nat, text: Text)
    requires ps != [] && ps[0].loopNow < a.deadline && IsAcceptedChunk(a, ps[1..], i, n, text)
    ensures IsAcceptedChunk(a, ps, i + 1, n, text)
  {
    forall k | 0 <= k <= i + 1 ensures ps[k].loopNow < a.deadline {
      assert k > 0 ==> ps[k] == ps[1..][k - 1];
    }
  }

  /** Where something is shown, the first poll is an accepted chunk or is passed over. */
  lemma SomethingShown(a: Args, ps: seq<Poll>, next: nat)
    requires Receive(a, ps, next).shown != []
    ensures ps != [] && ps[0].loopNow < a.deadline
    ensures IsChunkFor(a, ps[0]) ==>
      && IsAcceptedChunk(a, ps, 0, next, ps[0].msg.value.text)
      && Receive(a, ps, next).shown == [ps[0].msg.value.text] + Receive(a, ps[1..], next + 1).shown
    ensures !IsChunkFor(a, ps[0]) ==> Receive(a, ps, next).shown == Receive(a, ps[1..], next).shown
  {
    if IsChunkFor(a, ps[0]) {
      ReceiveChunk(a, ps, next);
      ChunkFaultMeans(a, ps[0].msg.value, next, ps[0].checkNow);
    }
  }

  /** Each text shown is that of a fresh, verified chunk with its number, polled before the deadline. */
  lemma {:induction false} ShownIsAccepted(a: Args, ps: seq<Poll>, next: nat, k: nat) returns (i: nat)
    requires k < |Receive(a, ps, next).shown|
    ensures IsAcceptedChunk(a, ps, i, next + k, Receive(a, ps, next).shown[k])
    decreases |ps|
  {
    hide Verifies;
    SomethingShown(a, ps, next);
    if IsChunkFor(a, ps[0]) && k == 0 {
      i := 0;
    } else {
      var first := if IsChunkFor(a, ps[0]) then 1 else 0;
      i := ShownIsAccepted(a, ps[1..], next + first, k - first);
      AcceptedChunkLater(a, ps, i, next + k, Receive(a, ps, next).shown[k]);
      i := i + 1;
    }
  }

  // ---- A hostile network ----

  /** A signature with this key on a polled message was made over a record that the key signed. */
  ghost predicate IsGenuinelySigned(p: Poll, key: Text, signed: set<Domain>) {
    p.msg.Some? && (p.msg.value.ChunkMsg? || p.msg.value.ResMsg?) && p.msg.value.sig.key == key ==>
      exists d :: d in signed && Digest(d) == p.msg.value.sig.digest
  }

  /** `signed` is everything the key ever signed, and the network cannot forge. */
  ghost predicate Unforged(ps: seq<Poll>, key: Text, signed: set<Domain>) {
    forall p :: p in ps ==> IsGenuinelySigned(p, key, signed)
  }

  ghost predicate IsParsed(p: Poll) {
    p.msg.Some? && p.msg.value.ResMsg? && p.msg.value.body.OkBody? ==> Valid(p.msg.value.body.output)
  }

  /** What JSON.parse delivered is well formed. */
  ghost predicate Parsed(ps: seq<Poll>) {
    forall p :: p in ps ==> IsParsed(p)
  }

  /**
   * Among all the records signed, those for this id, caller and skill are one run's: chunk `n` only with text
   * `texts[n]`, and success only with output `output`.
   */
  ghost predicate OneRun(a: Args, signed: set<Domain>, texts: seq<Text>, output: Option<Json>) {
    && (forall d :: d in signed ==> WellFormed(d))
    && (forall d :: d in signed && d.Chunk? && d.id == a.id && d.caller == a.me && d.skill == a.skill ==>
          0 <= d.seqNo < |texts| && d.text == texts[d.seqNo])
    && (forall d :: d in signed && d.ResOk? && d.id == a.id && d.caller == a.me && d.skill == a.skill ==>
          output == Some(d.output))
  }

  predicate IsChunkFor(a: Args, p: Poll) {
    p.msg.Some? && p.msg.value.ChunkMsg? && p.msg.value.id == a.id
  }

  predicate IsResponseFor(a: Args, p: Poll) {
    p.msg.Some? && p.msg.value.ResMsg? && p.msg.value.id == a.id
  }

  /** Malformed messages included: the loop stops at them too. */
  predicate IsFor(a: Args, m: Msg) {
    (m.ChunkMsg? || m.ResMsg? || m.Malformed?) && m.id == a.id
  }

  lemma AcceptedChunkIsGenuine(
      a: Args, p: Poll, next: nat, signed: set<Domain>, texts: seq<Text>, output: Option<Json>)
    requires IsChunkFor(a, p) && ChunkFault(a, p.msg.value, next, p.checkNow).None?
    requires IsGenuinelySigned(p, a.expected, signed) && OneRun(a, signed, texts, output)
    ensures next < |texts| && p.msg.value.text == texts[next]
  {
    var m := p.msg.value;
    var d :| d in signed && Digest(d) == m.sig.digest;
    DigestBindsRecord(d, Record(m));
  }

  lemma AcceptedResponseIsGenuine(a: Args, p: Poll, signed: set<Domain>, texts: seq<Text>, output: Option<Json>)
    requires IsResponseFor(a, p) && ResponseOutcome(a, p.msg.value, p.checkNow).Returned?
    requires IsGenuinelySigned(p, a.expected, signed) && IsParsed(p) && OneRun(a, signed, texts, output)
    ensures output.Some? && Meaning(ResponseOutcome(a, p.msg.value, p.checkNow).output) == Meaning(output.value)
  {
    var m := p.msg.value;
    var d :| d in signed && Digest(d) == m.sig.digest;
    DigestBindsRecord(d, Record(m));
  }

  lemma PollByPoll(ps: seq<Poll>, key: Text, signed: set<Domain>)
    requires ps != [] && Unforged(ps, key, signed) && Parsed(ps)
    ensures IsGenuinelySigned(ps[0], key, signed) && IsParsed(ps[0])
    ensures Unforged(ps[1..], key, signed) && Parsed(ps[1..])
  {
    assert ps[0] in ps && forall p :: p in ps[1..] ==> p in ps;
  }

  lemma ReceiveChunk(a: Args, ps: seq<Poll>, next: nat)
    requires ps != [] && ps[0].loopNow < a.deadline && IsChunkFor(a, ps[0])
    ensures var fault := ChunkFault(a, ps[0].msg.value, next, ps[0].checkNow);
      var rest := Receive(a, ps[1..], next + 1);
      Receive(a, ps, next) ==
        if fault.Some? then Heard(Failed(fault.value), []) else Heard(rest.outcome, [ps[0].msg.value.text] + rest.shown)
  {
  }

  lemma ReceiveResponse(a: Args, ps: seq<Poll>, next: nat)
    requires ps != [] && ps[0].loopNow < a.deadline && IsResponseFor(a, ps[0])
    ensures Receive(a, ps, next) == Heard(ResponseOutcome(a, ps[0].msg.value, ps[0].checkNow), [])
  {
  }

  lemma ReceiveOther(a: Args, ps: seq<Poll>, next: nat)
    requires ps != [] && ps[0].loopNow < a.deadline && (ps[0].msg.Some? ==> !IsFor(a, ps[0].msg.value))
    ensures Receive(a, ps, next) == Receive(a, ps[1..], next)
  {
  }

  lemma ReceiveMalformed(a: Args, ps: seq<Poll>, next: nat)
    requires ps != [] && ps[0].loopNow < a.deadline
    requires ps[0].msg.Some? && ps[0].msg.value.Malformed? && ps[0].msg.value.id == a.id
    ensures Receive(a, ps, next) == Heard(Failed(BadField), [])
  {
  }

  /** What a network that cannot forge can make the caller show and return. */
  ghost predicate Genuine(h: Heard, texts: seq<Text>, output: Option<Json>) {
    && h.shown <= texts
    && (h.outcome.Returned? ==> output.Some? && Meaning(h.outcome.output) == Meaning(output.value))
  }

  lemma GenuineStep(h: Heard, texts: seq<Text>, next: nat, output: Option<Json>)
    requires next < |texts| && Genuine(h, texts[next + 1..], output)
    ensures Genuine(Heard(h.outcome, [texts[next]] + h.shown), texts[next..], output)
  {
    assert texts[next..] == [texts[next]] + texts[next + 1..];
  }

  lemma {:induction false} ReceivesGenuine(
      a: Args, ps: seq<Poll>, next: nat, signed: set<Domain>, texts: seq<Text>, output: Option<Json>)
    requires next <= |texts|
    requires Unforged(ps, a.expected, signed) && Parsed(ps) && OneRun(a, signed, texts, output)
    ensures Genuine(Receive(a, ps, next), texts[next..], output)
    decreases |ps|
  {
    if ps != [] && ps[0].loopNow < a.deadline {
      PollByPoll(ps, a.expected, signed);
      if IsChunkFor(a, ps[0]) {
        ReceiveChunk(a, ps, next);
        if ChunkFault(a, ps[0].msg.value, next, ps[0].checkNow).None? {
          AcceptedChunkIsGenuine(a, ps[0], next, signed, texts, output);
          ReceivesGenuine(a, ps[1..], next + 1, signed, texts, output);
          GenuineStep(Receive(a, ps[1..], next + 1), texts, next, output);
        }
      } else if IsResponseFor(a, ps[0]) {
        ReceiveResponse(a, ps, next);
        if ResponseOutcome(a, ps[0].msg.value, ps[0].checkNow).Returned? {
          AcceptedResponseIsGenuine(a, ps[0], signed, texts, output);
        }
      } else if ps[0].msg.Some? && IsFor(a, ps[0].msg.value) {
        ReceiveMalformed(a, ps, next);
      } else {
        ReceiveOther(a, ps, next);
        ReceivesGenuine(a, ps[1..], next, signed, texts, output);
      }
    }
  }

  /**
   * Against a network that drops, repeats, reorders and injects at will but cannot forge: the texts shown are a
   * prefix, in order and without repeats, of what the responder emitted, and a successful return carries its output.
   */
  lemma ShownIsGenuinePrefix(a: Args, ps: seq<Poll>, signed: set<Domain>, texts: seq<Text>, output: Option<Json>)
    requires Unforged(ps, a.expected, signed) && Parsed(ps) && OneRun(a, signed, texts, output)
    ensures Receive(a, ps, 0).shown <= texts
    ensures Receive(a, ps, 0).outcome.Returned? ==>
      output.Some? && Meaning(Receive(a, ps, 0).outcome.output) == Meaning(output.value)
  {
    ReceivesGenuine(a, ps, 0, signed, texts, output);
    assert texts[0..] == texts;
  }

  // ---- When a successful call has shown everything ----

  /** The chunks of this call polled before its response. */
  function ChunksBefore(a: Args, ps: seq<Poll>): nat {
    if ps == [] || IsResponseFor(a, ps[0]) then 0
    else (if IsChunkFor(a, ps[0]) then 1 else 0) + ChunksBefore(a, ps[1..])
  }

  /** A call that succeeds has accepted every one of its chunks that came before the response. */
  lemma {:induction false} SuccessAcceptsAll(a: Args, ps: seq<Poll>, next: nat)
    requires Receive(a, ps, next).outcome.Returned?
    ensures |Receive(a, ps, next).shown| == ChunksBefore(a, ps)
    decreases |ps|
  {
    if IsChunkFor(a, ps[0]) {
      ReceiveChunk(a, ps, next);
      SuccessAcceptsAll(a, ps[1..], next + 1);
    } else if IsResponseFor(a, ps[0]) {
      ReceiveResponse(a, ps, next);
    } else if ps[0].msg.Some? && IsFor(a, ps[0].msg.value) {
      ReceiveMalformed(a, ps, next);
    } else {
      ReceiveOther(a, ps, next);
      SuccessAcceptsAll(a, ps[1..], next);
    }
  }

  /**
   * What a success says about the stream: the first `n` texts were shown, where `n` is the number of this call's
   * chunks that arrived before the response, so all of them if and only if as many arrived as were emitted.
   */
  lemma ShowsEverythingIff(a: Args, ps: seq<Poll>, signed: set<Domain>, texts: seq<Text>, output: Option<Json>)
    requires Unforged(ps, a.expected, signed) && Parsed(ps) && OneRun(a, signed, texts, output)
    requires Receive(a, ps, 0).outcome.Returned?
    ensures var n := ChunksBefore(a, ps); var shown := Receive(a, ps, 0).shown;
      n <= |texts| && shown == texts[..n] && (shown == texts <==> n == |texts|)
  {
    ShownIsGenuinePrefix(a, ps, signed, texts, output);
    SuccessAcceptsAll(a, ps, 0);
  }

  /** The same for callSkill: a successful return carries what the responder's handler produced. */
  lemma {:induction false} FinalIsGenuine(
      a: Args, ps: seq<Poll>, signed: set<Domain>, texts: seq<Text>, output: Option<Json>)
    requires Unforged(ps, a.expected, signed) && Parsed(ps) && OneRun(a, signed, texts, output)
    ensures ReceiveFinal(a, ps).Returned? ==>
      output.Some? && Meaning(ReceiveFinal(a, ps).output) == Meaning(output.value)
    decreases |ps|
  {
    if ps != [] && ps[0].loopNow < a.deadline {
      PollByPoll(ps, a.expected, signed);
      if IsResponseFor(a, ps[0]) {
        if ResponseOutcome(a, ps[0].msg.value, ps[0].checkNow).Returned? {
          AcceptedResponseIsGenuine(a, ps[0], signed, texts, output);
        }
      } else if ps[0].msg != Some(Malformed(a.id, false)) {
        FinalIsGenuine(a, ps[1..], signed, texts, output);
      }
    }
  }

  /** Where the streaming loop succeeds, the loop that ignores chunks succeeds with the same output. */
  lemma {:induction false} LoopsAgree(a: Args, ps: seq<Poll>, next: nat)
    requires Receive(a, ps, next).outcome.Returned?
    ensures ReceiveFinal(a, ps) == Receive(a, ps, next).outcome
    decreases |ps|
  {
    if IsChunkFor(a, ps[0]) {
      ReceiveChunk(a, ps, next);
      LoopsAgree(a, ps[1..], next + 1);
    } else if IsResponseFor(a, ps[0]) {
      ReceiveResponse(a, ps, next);
    } else if ps[0].msg.Some? && IsFor(a, ps[0].msg.value) {
      ReceiveMalformed(a, ps, next);
    } else {
      ReceiveOther(a, ps, next);
      LoopsAgree(a, ps[1..], next);
    }
  }

  // ---- Delivery in order ----

  /** The polled messages that carry this call's id. */
  function Relevant(a: Args, ps: seq<Poll>): seq<Msg> {
    if ps == [] then []
    else
      var rest := Relevant(a, ps[1..]);
      match ps[0].msg
      case Some(m) => if IsFor(a, m) then [m] + rest else rest
      case None => rest
  }

  predicate OnTime(a: Args, p: Poll) {
    && p.loopNow < a.deadline
    && (p.msg.Some? && p.msg.value.ChunkMsg? ==> Distance(p.checkNow, p.msg.value.ts) <= a.maxAge)
    && (p.msg.Some? && p.msg.value.ResMsg? ==> Distance(p.checkNow, p.msg.value.ts) <= a.maxAge)
  }

  /** The call never times out and every message is fresh when it is checked. */
  ghost predicate Timely(a: Args, ps: seq<Poll>) {
    forall p :: p in ps ==> OnTime(a, p)
  }

  /** The chunk the responder sends for text `n`. */
  function SentChunk(a: Args, n: nat, text: Text, ts: int): Msg {
    ChunkMsg(a.id, n, text, ts, a.expected, a.me, a.skill,
             Sig(a.expected, Digest(Domain.Chunk(a.id, n, text, a.expected, a.me, a.skill, ts))), a.expected)
  }

  /** The response the responder sends, as it arrives: `seen` is what the wire made of `output`. */
  function SentResponse(a: Args, output: Json, seen: Json, ts: int): Msg {
    ResMsg(a.id, OkBody(seen), ts, a.expected, a.me, a.skill,
           Sig(a.expected, Digest(Domain.ResOk(a.id, output, a.expected, a.me, a.skill, ts))), a.expected)
  }

  /** Chunks `from`, `from + 1`, ... of the emitted texts. */
  predicate AreChunks(a: Args, ms: seq<Msg>, texts: seq<Text>, from: nat) {
    |ms| == |texts| && forall i :: 0 <= i < |ms| ==>
      ms[i].ChunkMsg? && ms[i] == SentChunk(a, from + i, texts[i], ms[i].ts)
  }

  /** The value read back is the one sent, up to what JSON cannot express. */
  predicate SameOnTheWire(output: Json, seen: Json) {
    Valid(output) && Valid(seen) && Meaning(output) == Meaning(seen) && (output.Undefined? <==> seen.Undefined?)
  }

  lemma SentChunkAccepted(a: Args, n: nat, text: Text, ts: int, now: int)
    requires Distance(now, ts) <= a.maxAge
    ensures ChunkFault(a, SentChunk(a, n, text, ts), n, now).None?
  {
  }

  lemma SentResponseAccepted(a: Args, output: Json, seen: Json, ts: int, now: int)
    requires SameOnTheWire(output, seen) && Distance(now, ts) <= a.maxAge
    ensures ResponseOutcome(a, SentResponse(a, output, seen, ts), now) == Returned(seen)
  {
    DigestBindsRecord(Domain.ResOk(a.id, output, a.expected, a.me, a.skill, ts),
                      Domain.ResOk(a.id, seen, a.expected, a.me, a.skill, ts));
  }

  lemma RelevantStep(a: Args, ps: seq<Poll>)
    requires ps != []
    ensures Relevant(a, ps) ==
      if ps[0].msg.Some? && IsFor(a, ps[0].msg.value) then [ps[0].msg.value] + Relevant(a, ps[1..])
      else Relevant(a, ps[1..])
  {
  }

  lemma SentChunkReceived(a: Args, ps: seq<Poll>, n: nat, text: Text)
    requires ps != [] && OnTime(a, ps[0]) && IsChunkFor(a, ps[0])
    requires ps[0].msg.value == SentChunk(a, n, text, ps[0].msg.value.ts)
    ensures Receive(a, ps, n) == Heard(Receive(a, ps[1..], n + 1).outcome, [text] + Receive(a, ps[1..], n + 1).shown)
  {
    SentChunkAccepted(a, n, text, ps[0].msg.value.ts, ps[0].checkNow);
    ReceiveChunk(a, ps, n);
  }

  lemma TimelyByPoll(a: Args, ps: seq<Poll>)
    requires ps != [] && Timely(a, ps)
    ensures OnTime(a, ps[0]) && Timely(a, ps[1..]) && ps[0].loopNow < a.deadline
  {
    assert ps[0] in ps && forall p :: p in ps[1..] ==> p in ps;
  }

  lemma ChunksByOne(a: Args, ms: seq<Msg>, texts: seq<Text>, from: nat)
    requires ms != [] && AreChunks(a, ms, texts, from)
    ensures ms[0].ChunkMsg? && ms[0] == SentChunk(a, from, texts[0], ms[0].ts)
    ensures AreChunks(a, ms[1..], texts[1..], from + 1)
  {
    forall i | 0 <= i < |ms[1..]|
      ensures ms[1..][i].ChunkMsg? && ms[1..][i] == SentChunk(a, from + 1 + i, texts[1..][i], ms[1..][i].ts)
    {
      assert ms[1..][i] == ms[i + 1];
    }
  }

  /** The first of the relevant messages, if the first poll has one. */
  lemma RelevantHead(a: Args, ps: seq<Poll>, ms: seq<Msg>, last: Msg)
    requires ps != [] && Relevant(a, ps) == ms + [last] && ps[0].msg.Some? && IsFor(a, ps[0].msg.value)
    ensures ps[0].msg == Some(if ms == [] then last else ms[0])
    ensures ms != [] ==> Relevant(a, ps[1..]) == ms[1..] + [last]
  {
    RelevantStep(a, ps);
    assert (ms + [last])[0] == if ms == [] then last else ms[0];
    if ms != [] {
      assert (ms + [last])[1..] == ms[1..] + [last];
      assert Relevant(a, ps)[1..] == Relevant(a, ps[1..]);
    }
  }

  lemma SomethingRelevant(a: Args, ps: seq<Poll>, ms: seq<Msg>, last: Msg)
    requires Relevant(a, ps) == ms + [last]
    ensures ps != []
  {
    assert |Relevant(a, ps)| > 0;
  }

  /** A response for this call that, checked in time, ends it so. */
  ghost predicate EndsWith(a: Args, m: Msg, outcome: Outcome) {
    && m.ResMsg? && m.id == a.id
    && forall now :: Distance(now, m.ts) <= a.maxAge ==> ResponseOutcome(a, m, now) == outcome
  }

  /**
   * If the messages polled for this call are chunks `from`.. of some texts and then a response, in order and in time,
   * exactly those texts are shown and the response decides the outcome.
   */
  lemma {:induction false} InOrderUpTo(
      a: Args, ps: seq<Poll>, from: nat, ms: seq<Msg>, texts: seq<Text>, last: Msg, outcome: Outcome)
    requires Timely(a, ps) && EndsWith(a, last, outcome)
    requires Relevant(a, ps) == ms + [last] && AreChunks(a, ms, texts, from)
    ensures Receive(a, ps, from) == Heard(outcome, texts)
    decreases |ps|
  {
    hide ResponseOutcome;
    hide Receive;
    hide Relevant;
    hide SentChunk;
    hide Timely;
    SomethingRelevant(a, ps, ms, last);
    TimelyByPoll(a, ps);
    if ps[0].msg.None? || !IsFor(a, ps[0].msg.value) {
      RelevantStep(a, ps);
      ReceiveOther(a, ps, from);
      InOrderUpTo(a, ps[1..], from, ms, texts, last, outcome);
    } else {
      RelevantHead(a, ps, ms, last);
      if ms == [] {
        ReceiveResponse(a, ps, from);
      } else {
        ChunksByOne(a, ms, texts, from);
        SentChunkReceived(a, ps, from, texts[0]);
        InOrderUpTo(a, ps[1..], from + 1, ms[1..], texts[1..], last, outcome);
        assert texts == [texts[0]] + texts[1..];
      }
    }
  }

  /** With a successful response at the end, its output is returned. */
  lemma InOrderDelivery(
      a: Args, ps: seq<Poll>, from: nat, ms: seq<Msg>, texts: seq<Text>, output: Json, seen: Json, ts: int)
    requires Timely(a, ps) && SameOnTheWire(output, seen)
    requires Relevant(a, ps) == ms + [SentResponse(a, output, seen, ts)] && AreChunks(a, ms, texts, from)
    ensures Receive(a, ps, from) == Heard(Returned(seen), texts)
  {
    var last := SentResponse(a, output, seen, ts);
    forall now | Distance(now, ts) <= a.maxAge ensures ResponseOutcome(a, last, now) == Returned(seen) {
      SentResponseAccepted(a, output, seen, ts, now);
    }
    InOrderUpTo(a, ps, from, ms, texts, last, Returned(seen));
  }

  /**
   * The final response does not say how many chunks there were: a network that loses the last ones leaves a
   * successful call that showed any prefix at all.
   */
  lemma AnyPrefixCanSucceed(a: Args, ps: seq<Poll>, ms: seq<Msg>, texts: seq<Text>, n: nat, output: Json, ts: int)
    requires Timely(a, ps) && Valid(output) && n <= |texts|
    requires AreChunks(a, ms, texts, 0)
    requires Relevant(a, ps) == ms[..n] + [SentResponse(a, output, output, ts)]
    ensures Receive(a, ps, 0) == Heard(Returned(output), texts[..n])
  {
    InOrderDelivery(a, ps, 0, ms[..n], texts[..n], output, output, ts);
  }
}
