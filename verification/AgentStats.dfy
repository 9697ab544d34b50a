/**
 * The statistics an Agent keeps in memory, against the reputation chain it writes: `attest` appends to the chain
 * and only then `bumpStats` counts the call, so the two agree whenever no call is in between.
 */
module AgentStats {
  import opened Wrappers
  import C = Chain
  import R = Responder

  type Input = C.Input

  /** `errLastTs` is 0 until the first failure. */
  datatype Stat = Stat(calls: nat, ok: nat, errLastTs: int)

  const FRESH: Stat := Stat(0, 0, 0)

  datatype Totals = Totals(callsTotal: nat, okTotal: nat, skillStats: map<string, Stat>)

  const NO_CALLS: Totals := Totals(0, 0, map[])

  function BumpStat(s: Stat, ok: bool, now: int): Stat {
    Stat(s.calls + 1, if ok then s.ok + 1 else s.ok, if ok then s.errLastTs else now)
  }

  function StatFor(m: map<string, Stat>, skill: string): Stat {
    if skill in m then m[skill] else FRESH
  }

  function Bump(t: Totals, skill: string, ok: bool, now: int): Totals {
    Totals(t.callsTotal + 1, if ok then t.okTotal + 1 else t.okTotal,
           t.skillStats[skill := BumpStat(StatFor(t.skillStats, skill), ok, now)])
  }

  // ---- Counting ----

  /** The four ways the statistics count calls. */
  datatype Tally = All | Succeeded | OfSkill(skill: string) | SucceededOfSkill(skill: string)

  predicate Counts(f: Tally, i: Input) {
    match f
    case All => true
    case Succeeded => i.ok
    case OfSkill(k) => i.skill == k
    case SucceededOfSkill(k) => i.skill == k && i.ok
  }

  function Count(f: Tally, s: seq<Input>): nat {
    if s == [] then 0 else Count(f, s[..|s| - 1]) + (if Counts(f, s[|s| - 1]) then 1 else 0)
  }

  function Counted(f: Tally, t: Totals): nat {
    match f
    case All => t.callsTotal
    case Succeeded => t.okTotal
    case OfSkill(k) => StatFor(t.skillStats, k).calls
    case SucceededOfSkill(k) => StatFor(t.skillStats, k).ok
  }

  lemma CountPushed(f: Tally, s: seq<Input>, x: Input)
    ensures Count(f, s + [x]) == Count(f, s) + (if Counts(f, x) then 1 else 0)
  {
    assert (s + [x])[..|s|] == s;
  }

  // ---- Requests, from arrival to the end ----

  datatype Request = Request(callerINFT: string, skill: string)

  /**
   * Where the handling of one request is, or how it ended. A refused request only gets an error reply; a failed
   * reply and a rejected append each end the handling there.
   */
  datatype Phase =
    | Refusing(q: Request)
    | Handling(q: Request)
    | Replying(q: Request, ok: bool)
    | Attesting(p: Input)
    | Bumping(p: Input)
    | Refused
    | ReplyLost
    | AppendRejected
    | Done(p: Input)

  /** `appending` are the requests that wait for their append, in call order. */
  datatype State = State(me: string, chain: C.State, requests: seq<Phase>, appending: seq<nat>, totals: Totals)

  /** A handler ends badly when it throws or a chunk of its stream cannot be sent. */
  datatype Event =
    | Arrive(decision: R.Decision, q: Request)
    | HandlerEnds(i: nat, ok: bool)
    | ReplySettles(i: nat, sent: bool, latencyMs: int, tee: Option<string>)
    | ChainStep(e: C.Event)
    | Resume(i: nat, now: int)

  function Init(me: string): State {
    State(me, C.Init(None, {}), [], [], NO_CALLS)
  }

  /** Whether an event of the chain settles the append at the head of the line, and how. */
  function Settles(c: C.State, e: C.Event): Option<bool> {
    match e
    case Start(_) => if c.phase.Idle? && c.queue != [] && c.poisoned then Some(false) else None
    case SignRejected => if c.phase.Signing? then Some(false) else None
    case Stored => if c.phase.Storing? then Some(true) else None
    case StoreRejected(_) => if c.phase.Storing? then Some(false) else None
    case Append(_) => None
    case Signed(_) => None
    case Foreign(_) => None
  }

  /** The attestation a request asks for once its reply is sent. */
  function AttestationOf(me: string, q: Request, ok: bool, latencyMs: int, tee: Option<string>): Input {
    C.Input(q.callerINFT, me, q.skill, ok, latencyMs, tee)
  }

  /** Where the request at the head of the line goes when its append is settled. */
  function SettledPhase(p: Input, ok: bool): Phase {
    if ok then Bumping(p) else AppendRejected
  }

  function Step(s: State, e: Event): State {
    match e
    case Arrive(decision, q) =>
      s.(requests := s.requests + [if decision.Admitted? then Handling(q) else Refusing(q)])
    case HandlerEnds(i, ok) =>
      if i >= |s.requests| || !s.requests[i].Handling? then s
      else s.(requests := s.requests[i := Replying(s.requests[i].q, ok)])
    case ReplySettles(i, sent, latencyMs, tee) =>
      if i >= |s.requests| then s
      else if s.requests[i].Refusing? then s.(requests := s.requests[i := Refused])
      else if !s.requests[i].Replying? then s
      else if !sent then s.(requests := s.requests[i := ReplyLost])
      else
        var p := AttestationOf(s.me, s.requests[i].q, s.requests[i].ok, latencyMs, tee);
        s.(chain := C.Step(s.chain, C.Append(p)), requests := s.requests[i := Attesting(p)],
           appending := s.appending + [i])
    case ChainStep(ce) =>
      if ce.Append? then s
      else
        var t := s.(chain := C.Step(s.chain, ce));
        var settled := Settles(s.chain, ce);
        if settled.None? || s.appending == [] then t
        else
          var i := s.appending[0];
          if i >= |s.requests| || !s.requests[i].Attesting? then t
          else
            t.(appending := s.appending[1..],
               requests := s.requests[i := SettledPhase(s.requests[i].p, settled.value)])
    case Resume(i, now) =>
      if i >= |s.requests| || !s.requests[i].Bumping? then s
      else
        var p := s.requests[i].p;
        s.(requests := s.requests[i := Done(p)], totals := Bump(s.totals, p.skill, p.ok, now))
  }

  function Run(me: string, es: seq<Event>): State {
    if es == [] then Init(me) else Step(Run(me, es[..|es| - 1]), es[|es| - 1])
  }

  // ---- Counting requests ----

  /** The requests whose attestation is committed: those counted in the statistics, and those about to be. */
  predicate Committed(ph: Phase, done: bool) {
    ph.Done? || (ph.Bumping? && !done)
  }

  function One(f: Tally, ph: Phase, done: bool): nat {
    if Committed(ph, done) && Counts(f, ph.p) then 1 else 0
  }

  /** How many requests with a committed attestation `f` counts; with `done`, only those in the statistics. */
  function CountIn(f: Tally, rs: seq<Phase>, done: bool): nat {
    if rs == [] then 0 else CountIn(f, rs[..|rs| - 1], done) + One(f, rs[|rs| - 1], done)
  }

  lemma CountInPush(f: Tally, rs: seq<Phase>, ph: Phase, done: bool)
    ensures CountIn(f, rs + [ph], done) == CountIn(f, rs, done) + One(f, ph, done)
  {
    assert (rs + [ph])[..|rs|] == rs;
  }

  lemma {:induction false} CountInUpdate(f: Tally, rs: seq<Phase>, i: nat, ph: Phase, done: bool)
    requires i < |rs|
    ensures CountIn(f, rs[i := ph], done) + One(f, rs[i], done) == CountIn(f, rs, done) + One(f, ph, done)
  {
    var front, last := rs[..|rs| - 1], rs[|rs| - 1];
    if i == |rs| - 1 {
      assert rs[i := ph][..|rs| - 1] == front;
    } else {
      CountInUpdate(f, front, i, ph, done);
      assert rs[i := ph][..|rs| - 1] == front[i := ph];
    }
  }

  // ---- The invariants ----

  /** The appends the chain has not settled, oldest first. */
  function Pending(c: C.State): seq<Input> {
    C.InFlight(c.phase) + c.queue
  }

  /** Each request in line is waiting for the append at the same place. */
  predicate Lined(s: State) {
    && |s.appending| == |Pending(s.chain)|
    && (forall k :: 0 <= k < |s.appending| ==> s.appending[k] < |s.requests|)
    && (forall k :: 0 <= k < |s.appending| ==> s.requests[s.appending[k]] == Attesting(Pending(s.chain)[k]))
    && (forall k, l :: 0 <= k < l < |s.appending| ==> s.appending[k] != s.appending[l])
  }

  predicate Sane(c: C.State) {
    c.poisoned ==> c.phase.Idle?
  }

  lemma StartTakesTheOldest(c: C.State, ts: int)
    requires c.phase.Idle? && c.queue != []
    ensures var t := C.Step(c, C.Start(ts));
      && t.log == c.log
      && (c.poisoned ==> Pending(t) == Pending(c)[1..] && Pending(c) != [])
      && (!c.poisoned ==> Pending(t) == Pending(c))
  {
    assert [] + c.queue == c.queue && [] + c.queue[1..] == c.queue[1..];
    assert [c.queue[0]] + c.queue[1..] == c.queue;
  }

  lemma EndTakesTheOldest(c: C.State, t: C.State)
    requires |C.InFlight(c.phase)| == 1 && t.phase.Idle? && t.queue == c.queue
    ensures Pending(c) != [] && Pending(t) == Pending(c)[1..] && Pending(c)[0] == C.InFlight(c.phase)[0]
  {
    assert [] + c.queue == c.queue;
  }

  lemma SettlingTakesTheOldest(c: C.State, ce: C.Event)
    requires !ce.Append? && Sane(c)
    ensures var t := C.Step(c, ce);
      if Settles(c, ce).None? then Pending(t) == Pending(c) && t.log == c.log
      else
        && Pending(c) != [] && Pending(t) == Pending(c)[1..]
        && (Settles(c, ce).value ==> C.Payloads(t.log) == C.Payloads(c.log) + [Pending(c)[0]])
        && (!Settles(c, ce).value ==> t.log == c.log)
  {
    match ce
    case Start(ts) =>
      if c.phase.Idle? && c.queue != [] {
        StartTakesTheOldest(c, ts);
      }
    case Append(_) =>
    case Signed(_) =>
    case SignRejected =>
      if c.phase.Signing? {
        EndTakesTheOldest(c, C.Step(c, ce));
      }
    case Stored =>
      if c.phase.Storing? {
        EndTakesTheOldest(c, C.Step(c, ce));
        C.PayloadsPushed(c.log, c.phase.entry);
      }
    case StoreRejected(_) =>
      if c.phase.Storing? {
        EndTakesTheOldest(c, C.Step(c, ce));
      }
    case Foreign(_) =>
  }

  lemma AppendJoinsTheLine(c: C.State, p: Input)
    ensures Pending(C.Step(c, C.Append(p))) == Pending(c) + [p] && C.Step(c, C.Append(p)).log == c.log
  {
    assert C.InFlight(c.phase) + (c.queue + [p]) == C.InFlight(c.phase) + c.queue + [p];
  }

  lemma ChainStepShape(s: State, ce: C.Event)
    requires Lined(s) && Sane(s.chain) && !ce.Append?
    ensures var t := Step(s, ChainStep(ce)); var settled := Settles(s.chain, ce);
      && t.totals == s.totals && t.me == s.me && t.chain == C.Step(s.chain, ce)
      && (settled.None? ==> t.requests == s.requests && t.appending == s.appending)
      && (settled.Some? ==>
            var i, p := s.appending[0], Pending(s.chain)[0];
            && s.appending != [] && t.appending == s.appending[1..]
            && s.requests[i] == Attesting(p) && t.requests == s.requests[i := SettledPhase(p, settled.value)])
  {
    SettlingTakesTheOldest(s.chain, ce);
  }

  lemma SettlingKeepsLine(s: State, t: State, ph: Phase)
    requires Lined(s) && s.appending != []
    requires t.appending == s.appending[1..] && t.requests == s.requests[s.appending[0] := ph]
    requires Pending(t.chain) == Pending(s.chain)[1..]
    ensures Lined(t)
  {
    forall k | 0 <= k < |t.appending|
      ensures t.appending[k] < |t.requests| && t.requests[t.appending[k]] == Attesting(Pending(t.chain)[k])
    {
      assert t.appending[k] == s.appending[k + 1];
    }
  }

  lemma JoiningKeepsLine(s: State, t: State, i: nat, p: Input)
    requires Lined(s) && i < |s.requests| && !s.requests[i].Attesting?
    requires t.appending == s.appending + [i] && t.requests == s.requests[i := Attesting(p)]
    requires Pending(t.chain) == Pending(s.chain) + [p]
    ensures Lined(t)
  {
  }

  lemma QuietMoveKeepsLine(s: State, t: State, i: nat, ph: Phase)
    requires Lined(s) && i < |s.requests| && !s.requests[i].Attesting?
    requires t.appending == s.appending && t.requests == s.requests[i := ph] && t.chain == s.chain
    ensures Lined(t)
  {
  }

  lemma ChainStepKeepsLine(s: State, ce: C.Event)
    requires Lined(s) && Sane(s.chain)
    ensures Lined(Step(s, ChainStep(ce))) && Sane(Step(s, ChainStep(ce)).chain)
  {
    if !ce.Append? {
      ChainStepShape(s, ce);
      SettlingTakesTheOldest(s.chain, ce);
      if Settles(s.chain, ce).Some? {
        SettlingKeepsLine(s, Step(s, ChainStep(ce)), SettledPhase(Pending(s.chain)[0], Settles(s.chain, ce).value));
      }
    }
  }

  lemma ReplyKeepsLine(s: State, e: Event)
    requires Lined(s) && Sane(s.chain) && e.ReplySettles?
    ensures Lined(Step(s, e)) && Sane(Step(s, e).chain)
  {
    var t := Step(s, e);
    if e.i < |s.requests| && s.requests[e.i].Replying? && e.sent {
      var p := AttestationOf(s.me, s.requests[e.i].q, s.requests[e.i].ok, e.latencyMs, e.tee);
      AppendJoinsTheLine(s.chain, p);
      JoiningKeepsLine(s, t, e.i, p);
    } else if t != s {
      QuietMoveKeepsLine(s, t, e.i, t.requests[e.i]);
    }
  }

  lemma StepKeepsLine(s: State, e: Event)
    requires Lined(s) && Sane(s.chain)
    ensures Lined(Step(s, e)) && Sane(Step(s, e).chain)
  {
    var t := Step(s, e);
    match e
    case Arrive(_, _) =>
    case HandlerEnds(i, _) => if t != s { QuietMoveKeepsLine(s, t, i, t.requests[i]); }
    case ReplySettles(_, _, _, _) => ReplyKeepsLine(s, e);
    case ChainStep(ce) => ChainStepKeepsLine(s, ce);
    case Resume(i, _) => if t != s { QuietMoveKeepsLine(s, t, i, t.requests[i]); }
  }

  /** With `done`, the statistics; without, the chain. */
  function Recorded(s: State, f: Tally, done: bool): nat {
    if done then Counted(f, s.totals) else Count(f, C.Payloads(s.chain.log))
  }

  /** The chain holds exactly the committed requests, and the statistics exactly those that are done. */
  predicate Balanced(s: State, f: Tally, done: bool) {
    Recorded(s, f, done) == CountIn(f, s.requests, done)
  }

  /** A request that moves on without being committed or counted. */
  lemma QuietMoveKeepsBalance(s: State, t: State, i: nat, ph: Phase, f: Tally, done: bool)
    requires Balanced(s, f, done) && i < |s.requests| && t.requests == s.requests[i := ph]
    requires !Committed(s.requests[i], false) && !Committed(ph, false)
    requires t.chain.log == s.chain.log && t.totals == s.totals
    ensures Balanced(t, f, done)
  {
    CountInUpdate(f, s.requests, i, ph, done);
  }

  lemma CommitKeepsBalance(s: State, t: State, i: nat, p: Input, f: Tally, done: bool)
    requires Balanced(s, f, done) && i < |s.requests| && s.requests[i] == Attesting(p)
    requires t.requests == s.requests[i := Bumping(p)] && t.totals == s.totals
    requires C.Payloads(t.chain.log) == C.Payloads(s.chain.log) + [p]
    ensures Balanced(t, f, done)
  {
    CountPushed(f, C.Payloads(s.chain.log), p);
    CountInUpdate(f, s.requests, i, Bumping(p), done);
  }

  lemma ChainStepKeepsBalance(s: State, ce: C.Event, f: Tally, done: bool)
    requires Balanced(s, f, done) && Lined(s) && Sane(s.chain)
    ensures Balanced(Step(s, ChainStep(ce)), f, done)
  {
    if !ce.Append? {
      var t := Step(s, ChainStep(ce));
      SettlingTakesTheOldest(s.chain, ce);
      ChainStepShape(s, ce);
      if Settles(s.chain, ce) == Some(true) {
        CommitKeepsBalance(s, t, s.appending[0], Pending(s.chain)[0], f, done);
      } else if Settles(s.chain, ce) == Some(false) {
        QuietMoveKeepsBalance(s, t, s.appending[0], AppendRejected, f, done);
      }
    }
  }

  lemma ReplyKeepsBalance(s: State, e: Event, f: Tally, done: bool)
    requires Balanced(s, f, done) && e.ReplySettles?
    ensures Balanced(Step(s, e), f, done)
  {
    if e.i < |s.requests| && (s.requests[e.i].Refusing? || s.requests[e.i].Replying?) {
      QuietMoveKeepsBalance(s, Step(s, e), e.i, Step(s, e).requests[e.i], f, done);
    }
  }

  lemma ResumeKeepsBalance(s: State, i: nat, now: int, f: Tally, done: bool)
    requires Balanced(s, f, done)
    ensures Balanced(Step(s, Resume(i, now)), f, done)
  {
    if i < |s.requests| && s.requests[i].Bumping? {
      CountInUpdate(f, s.requests, i, Done(s.requests[i].p), done);
    }
  }

  lemma StepKeepsBalance(s: State, e: Event, f: Tally, done: bool)
    requires Balanced(s, f, done) && Lined(s) && Sane(s.chain)
    ensures Balanced(Step(s, e), f, done)
  {
    hide C.Step;
    match e
    case Arrive(decision, q) =>
      CountInPush(f, s.requests, if decision.Admitted? then Handling(q) else Refusing(q), done);
    case HandlerEnds(i, ok) =>
      if i < |s.requests| && s.requests[i].Handling? {
        QuietMoveKeepsBalance(s, Step(s, e), i, Replying(s.requests[i].q, ok), f, done);
      }
    case ReplySettles(_, _, _, _) => ReplyKeepsBalance(s, e, f, done);
    case ChainStep(ce) => ChainStepKeepsBalance(s, ce, f, done);
    case Resume(i, now) => ResumeKeepsBalance(s, i, now, f, done);
  }

  lemma {:induction false} RunIsLined(me: string, es: seq<Event>)
    ensures Lined(Run(me, es)) && Sane(Run(me, es).chain)
  {
    if es != [] {
      RunIsLined(me, es[..|es| - 1]);
      StepKeepsLine(Run(me, es[..|es| - 1]), es[|es| - 1]);
    }
  }

  lemma {:induction false} RunIsBalanced(me: string, es: seq<Event>, f: Tally, done: bool)
    ensures Balanced(Run(me, es), f, done)
  {
    if es == [] {
      assert C.Payloads([]) == [];
    } else {
      RunIsBalanced(me, es[..|es| - 1], f, done);
      RunIsLined(me, es[..|es| - 1]);
      StepKeepsBalance(Run(me, es[..|es| - 1]), es[|es| - 1], f, done);
    }
  }

  lemma {:induction false} CountAll(s: seq<Input>)
    ensures Count(All, s) == |s|
  {
    if s != [] {
      CountAll(s[..|s| - 1]);
    }
  }

  /** No request is between its commit and its count. */
  predicate AtRest(s: State) {
    forall i :: 0 <= i < |s.requests| ==> !s.requests[i].Bumping?
  }

  lemma {:induction false} SettledCounts(f: Tally, rs: seq<Phase>)
    requires forall i :: 0 <= i < |rs| ==> !rs[i].Bumping?
    ensures CountIn(f, rs, false) == CountIn(f, rs, true)
  {
    if rs != [] {
      SettledCounts(f, rs[..|rs| - 1]);
    }
  }

  /**
   * At every moment, whatever requests are refused and whatever handlers, replies, signatures or uploads fail: the
   * statistics count exactly the requests that went all the way, in all and by skill, and the chain holds those and
   * the ones just committed. No other request changes either.
   */
  lemma OnlyServedRequestsCount(me: string, es: seq<Event>, skill: string)
    ensures var s := Run(me, es); var rs := s.requests; var entries := C.Payloads(s.chain.log);
      && s.totals.callsTotal == CountIn(All, rs, true) && |s.chain.log| == CountIn(All, rs, false)
      && s.totals.okTotal == CountIn(Succeeded, rs, true) && Count(Succeeded, entries) == CountIn(Succeeded, rs, false)
      && StatFor(s.totals.skillStats, skill).calls == CountIn(OfSkill(skill), rs, true)
      && Count(OfSkill(skill), entries) == CountIn(OfSkill(skill), rs, false)
      && StatFor(s.totals.skillStats, skill).ok == CountIn(SucceededOfSkill(skill), rs, true)
      && Count(SucceededOfSkill(skill), entries) == CountIn(SucceededOfSkill(skill), rs, false)
  {
    RunIsBalanced(me, es, All, false);
    RunIsBalanced(me, es, All, true);
    RunIsBalanced(me, es, Succeeded, false);
    RunIsBalanced(me, es, Succeeded, true);
    RunIsBalanced(me, es, OfSkill(skill), false);
    RunIsBalanced(me, es, OfSkill(skill), true);
    RunIsBalanced(me, es, SucceededOfSkill(skill), false);
    RunIsBalanced(me, es, SucceededOfSkill(skill), true);
    CountAll(C.Payloads(Run(me, es).chain.log));
  }

  /**
   * With no request between commit and count, the chain has `callsTotal` entries, `okTotal` of them successful, and
   * each skill's numbers are those of its entries.
   */
  lemma ReputationAgreesWithStats(me: string, es: seq<Event>, skill: string)
    requires AtRest(Run(me, es))
    ensures var s := Run(me, es); var entries := C.Payloads(s.chain.log);
      && |s.chain.log| == s.totals.callsTotal
      && Count(Succeeded, entries) == s.totals.okTotal
      && Count(OfSkill(skill), entries) == StatFor(s.totals.skillStats, skill).calls
      && Count(SucceededOfSkill(skill), entries) == StatFor(s.totals.skillStats, skill).ok
  {
    OnlyServedRequestsCount(me, es, skill);
    SettledCounts(All, Run(me, es).requests);
    SettledCounts(Succeeded, Run(me, es).requests);
    SettledCounts(OfSkill(skill), Run(me, es).requests);
    SettledCounts(SucceededOfSkill(skill), Run(me, es).requests);
  }

  function NumberBumping(rs: seq<Phase>): nat {
    if rs == [] then 0 else NumberBumping(rs[..|rs| - 1]) + if rs[|rs| - 1].Bumping? then 1 else 0
  }

  lemma {:induction false} BumpingIsTheRest(rs: seq<Phase>)
    ensures CountIn(All, rs, false) == CountIn(All, rs, true) + NumberBumping(rs)
  {
    if rs != [] {
      BumpingIsTheRest(rs[..|rs| - 1]);
    }
  }

  /** At any moment the statistics lag the chain by exactly the requests between commit and count. */
  lemma StatsLagTheChain(me: string, es: seq<Event>)
    ensures |Run(me, es).chain.log| == Run(me, es).totals.callsTotal + NumberBumping(Run(me, es).requests)
  {
    OnlyServedRequestsCount(me, es, "");
    BumpingIsTheRest(Run(me, es).requests);
  }

  // ---- The chain's own part of a run ----

  function Emitted(s: State, e: Event): seq<C.Event> {
    match e
    case ReplySettles(i, sent, latencyMs, tee) =>
      if i < |s.requests| && s.requests[i].Replying? && sent
      then [C.Append(AttestationOf(s.me, s.requests[i].q, s.requests[i].ok, latencyMs, tee))]
      else []
    case ChainStep(ce) => if ce.Append? then [] else [ce]
    case Arrive(_, _) => []
    case HandlerEnds(_, _) => []
    case Resume(_, _) => []
  }

  function ChainEvents(me: string, es: seq<Event>): seq<C.Event> {
    if es == [] then [] else ChainEvents(me, es[..|es| - 1]) + Emitted(Run(me, es[..|es| - 1]), es[|es| - 1])
  }

  lemma RunEmitted(c: C.State, ces: seq<C.Event>, more: seq<C.Event>)
    requires |more| <= 1
    ensures C.Run(c, ces + more) == if more == [] then C.Run(c, ces) else C.Step(C.Run(c, ces), more[0])
  {
    if more == [] {
      assert ces + more == ces;
    } else {
      assert (ces + more)[..|ces|] == ces;
    }
  }

  lemma StepEmits(s: State, e: Event)
    ensures |Emitted(s, e)| <= 1
    ensures Step(s, e).chain == if Emitted(s, e) == [] then s.chain else C.Step(s.chain, Emitted(s, e)[0])
  {
  }

  lemma RunUnfolds(me: string, es: seq<Event>)
    requires es != []
    ensures Run(me, es) == Step(Run(me, es[..|es| - 1]), es[|es| - 1])
    ensures ChainEvents(me, es) == ChainEvents(me, es[..|es| - 1]) + Emitted(Run(me, es[..|es| - 1]), es[|es| - 1])
  {
  }

  /** An agent's chain is a run of the promise-lock machine, so everything proved of those holds of it. */
  lemma {:induction false} ChainOfRun(me: string, es: seq<Event>)
    ensures Run(me, es).chain == C.Run(C.Init(None, {}), ChainEvents(me, es))
  {
    if es != [] {
      var front, last := es[..|es| - 1], es[|es| - 1];
      var s := Run(me, front);
      ChainOfRun(me, front);
      RunUnfolds(me, es);
      StepEmits(s, last);
      RunEmitted(C.Init(None, {}), ChainEvents(me, front), Emitted(s, last));
    }
  }

  predicate AllBy(me: string, ps: seq<Input>) {
    forall i :: 0 <= i < |ps| ==> ps[i].calleeINFT == me
  }

  lemma ChainCalls(c: C.State, ce: C.Event)
    ensures C.Step(c, ce).calls == if ce.Append? then c.calls + [ce.p] else c.calls
  {
  }

  lemma StepCalls(s: State, e: Event)
    requires AllBy(s.me, s.chain.calls)
    ensures Step(s, e).me == s.me && AllBy(s.me, Step(s, e).chain.calls)
  {
    match e
    case ReplySettles(i, sent, latencyMs, tee) =>
      if i < |s.requests| && s.requests[i].Replying? && sent {
        ChainCalls(s.chain, C.Append(AttestationOf(s.me, s.requests[i].q, s.requests[i].ok, latencyMs, tee)));
      }
    case ChainStep(ce) => ChainCalls(s.chain, ce);
    case Arrive(_, _) =>
    case HandlerEnds(_, _) =>
    case Resume(_, _) =>
  }

  lemma {:induction false} CallsAreMine(me: string, es: seq<Event>)
    ensures Run(me, es).me == me && AllBy(me, Run(me, es).chain.calls)
  {
    if es != [] {
      CallsAreMine(me, es[..|es| - 1]);
      StepCalls(Run(me, es[..|es| - 1]), es[|es| - 1]);
    }
  }

  lemma AllByPrefix(me: string, entries: seq<Input>, rest: seq<Input>)
    requires AllBy(me, entries + rest)
    ensures AllBy(me, entries)
  {
    assert forall i :: 0 <= i < |entries| ==> entries[i] == (entries + rest)[i];
  }

  lemma Reassociate(a: seq<Input>, b: seq<Input>, c: seq<Input>, d: seq<Input>)
    ensures a + b + c + d == a + (b + c + d)
  {
  }

  /** Every entry of an agent's chain is about the agent. */
  lemma EntriesAreMine(me: string, es: seq<Event>)
    ensures AllBy(me, C.Payloads(Run(me, es).chain.log))
  {
    CallsAreMine(me, es);
    ChainOfRun(me, es);
    C.LinearChain(None, {}, ChainEvents(me, es));
    var c := Run(me, es).chain;
    var entries := C.Payloads(c.log);
    Reassociate(entries, C.InFlight(c.phase), c.rejected, c.queue);
    AllByPrefix(me, entries, C.InFlight(c.phase) + c.rejected + c.queue);
  }

  // ---- Whose call it is ----

  /** The requests that arrived, in order. */
  function Arrivals(es: seq<Event>): seq<Event> {
    if es == [] then []
    else Arrivals(es[..|es| - 1]) + (if es[|es| - 1].Arrive? then [es[|es| - 1]] else [])
  }

  /** What is attested of request `i`: its caller and skill, how its own handler ended, and what its own reply took. */
  predicate Attests(me: string, es: seq<Event>, i: nat, p: Input, q: Request) {
    && p.callerINFT == q.callerINFT && p.calleeINFT == me && p.skill == q.skill
    && HandlerEnds(i, p.ok) in es && ReplySettles(i, true, p.latencyMs, p.tee) in es
  }

  /** A phase of request `i` that is true to its arrival and to what happened to it since. */
  predicate IsTrue(me: string, es: seq<Event>, i: nat, ph: Phase, arrival: Event) {
    && arrival.Arrive?
    && (ph.Refusing? || ph.Refused? <==> !arrival.decision.Admitted?)
    && match ph
       case Refusing(q) => q == arrival.q
       case Handling(q) => q == arrival.q
       case Replying(q, ok) => q == arrival.q && HandlerEnds(i, ok) in es
       case Attesting(p) => Attests(me, es, i, p, arrival.q)
       case Bumping(p) => Attests(me, es, i, p, arrival.q)
       case Done(p) => Attests(me, es, i, p, arrival.q)
       case _ => true
  }

  predicate AllTrue(me: string, es: seq<Event>, rs: seq<Phase>, arrivals: seq<Event>) {
    |rs| == |arrivals| && forall i :: 0 <= i < |rs| ==> IsTrue(me, es, i, rs[i], arrivals[i])
  }

  lemma TrueLater(me: string, es: seq<Event>, e: Event, i: nat, ph: Phase, arrival: Event)
    requires IsTrue(me, es, i, ph, arrival)
    ensures IsTrue(me, es + [e], i, ph, arrival)
  {
  }

  lemma OnePhaseChanges(me: string, es: seq<Event>, rs: seq<Phase>, arrivals: seq<Event>, i: nat, ph: Phase)
    requires AllTrue(me, es, rs, arrivals) && i < |rs| && IsTrue(me, es, i, ph, arrivals[i])
    ensures AllTrue(me, es, rs[i := ph], arrivals)
  {
  }

  /** How a request moves on in one step: each move is true to the event behind it. */
  lemma StepChangesOne(s: State, e: Event)
    requires Lined(s) && Sane(s.chain)
    ensures Step(s, e).me == s.me
    ensures e.Arrive? ==>
      Step(s, e).requests == s.requests + [if e.decision.Admitted? then Handling(e.q) else Refusing(e.q)]
    ensures !e.Arrive? ==> Step(s, e).requests == s.requests || exists i: nat, ph :: Moves(s, e, i, ph)
  {
    hide C.Step;
    match e
    case Arrive(_, _) =>
    case HandlerEnds(i, ok) =>
      if Step(s, e) != s {
        assert Moves(s, e, i, Replying(s.requests[i].q, ok));
      }
    case ReplySettles(i, sent, latencyMs, tee) =>
      if Step(s, e).requests != s.requests {
        assert Moves(s, e, i, Step(s, e).requests[i]);
      }
    case ChainStep(ce) =>
      if !ce.Append? {
        ChainStepShape(s, ce);
        if Settles(s.chain, ce).Some? {
          assert Moves(s, e, s.appending[0], SettledPhase(Pending(s.chain)[0], Settles(s.chain, ce).value));
        }
      }
    case Resume(i, _) =>
      if Step(s, e) != s {
        assert Moves(s, e, i, Done(s.requests[i].p));
      }
  }

  predicate Moves(s: State, e: Event, i: nat, ph: Phase) {
    && i < |s.requests| && Step(s, e).requests == s.requests[i := ph]
    && match s.requests[i]
       case Refusing(_) => ph == Refused
       case Handling(q) => ph.Replying? && ph.q == q && e == HandlerEnds(i, ph.ok)
       case Replying(q, ok) =>
         || ph == ReplyLost
         || (ph.Attesting? && ph.p.callerINFT == q.callerINFT && ph.p.calleeINFT == s.me && ph.p.skill == q.skill
             && ph.p.ok == ok && e == ReplySettles(i, true, ph.p.latencyMs, ph.p.tee))
       case Attesting(p) => ph == Bumping(p) || ph == AppendRejected
       case Bumping(p) => ph == Done(p)
       case _ => false
  }

  lemma MoveIsTrue(s: State, es: seq<Event>, e: Event, i: nat, ph: Phase, arrival: Event)
    requires Moves(s, e, i, ph) && IsTrue(s.me, es, i, s.requests[i], arrival)
    ensures IsTrue(s.me, es + [e], i, ph, arrival)
  {
  }

  lemma StepKeepsTrue(s: State, es: seq<Event>, e: Event, arrivals: seq<Event>)
    requires Lined(s) && Sane(s.chain) && AllTrue(s.me, es, s.requests, arrivals)
    ensures AllTrue(s.me, es + [e], Step(s, e).requests, arrivals + if e.Arrive? then [e] else [])
  {
    StepChangesOne(s, e);
    forall i | 0 <= i < |s.requests| ensures IsTrue(s.me, es + [e], i, s.requests[i], arrivals[i]) {
      TrueLater(s.me, es, e, i, s.requests[i], arrivals[i]);
    }
    assert arrivals + [] == arrivals;
    if !e.Arrive? && Step(s, e).requests != s.requests {
      var i: nat, ph :| Moves(s, e, i, ph);
      MoveIsTrue(s, es, e, i, ph, arrivals[i]);
      OnePhaseChanges(s.me, es + [e], s.requests, arrivals, i, ph);
    }
  }

  /**
   * At every moment each request is where its own events have brought it: what is attested and counted of it names the
   * caller and the skill it arrived with, the way its own handler ended and the time its own reply took; and exactly
   * those not admitted are refused.
   */
  lemma {:induction false} RequestsAreTrue(me: string, es: seq<Event>)
    ensures Run(me, es).me == me && AllTrue(me, es, Run(me, es).requests, Arrivals(es))
  {
    if es != [] {
      var front, last := es[..|es| - 1], es[|es| - 1];
      RequestsAreTrue(me, front);
      RunIsLined(me, front);
      StepChangesOne(Run(me, front), last);
      StepKeepsTrue(Run(me, front), front, last, Arrivals(front));
      assert es == front + [last] && Arrivals(front) + [] == Arrivals(front);
    }
  }

  // ---- The objects: shared stat cells and the shallow copy in a snapshot ----

  class StatCell {
    var stat: Stat

    constructor ()
      ensures stat == FRESH
    {
      stat := FRESH;
    }

    method Count(c: Call)
      modifies this
      ensures stat == BumpStat(old(stat), c.ok, c.now)
    {
      stat := stat.(calls := stat.calls + 1);
      if c.ok {
        stat := stat.(ok := stat.ok + 1);
      } else {
        stat := stat.(errLastTs := c.now);
      }
    }
  }

  datatype Call = Call(skill: string, ok: bool, now: int)

  /** `skillStats` maps each skill to one cell, updated in place. */
  class Stats {
    var callsTotal: nat
    var okTotal: nat
    var skillStats: map<string, StatCell>

    ghost predicate Valid()
      reads this
    {
      forall a, b :: a in skillStats && b in skillStats && a != b ==> skillStats[a] != skillStats[b]
    }

    /** The entry a reader of `skillStats` sees for `skill`. */
    ghost function Shown(skill: string): Stat
      reads this, skillStats.Values
    {
      if skill in skillStats then skillStats[skill].stat else FRESH
    }

    constructor ()
      ensures Valid() && callsTotal == okTotal == 0 && skillStats == map[]
    {
      callsTotal, okTotal, skillStats := 0, 0, map[];
    }

    method BumpStats(c: Call)
      requires Valid()
      modifies this, skillStats.Values
      ensures Valid()
      ensures callsTotal == old(callsTotal) + 1 && okTotal == old(okTotal) + (if c.ok then 1 else 0)
      ensures skillStats.Keys == old(skillStats.Keys) + {c.skill}
      ensures Shown(c.skill) == BumpStat(old(Shown(c.skill)), c.ok, c.now)
      ensures forall k :: k in old(skillStats) && k != c.skill ==> skillStats[k].stat == old(skillStats[k].stat)
      ensures forall k :: k in old(skillStats) ==> skillStats[k] == old(skillStats[k])
      ensures c.skill !in old(skillStats) ==> fresh(skillStats[c.skill])
    {
      callsTotal := callsTotal + 1;
      if c.ok {
        okTotal := okTotal + 1;
      }
      var cur;
      if c.skill in skillStats {
        cur := skillStats[c.skill];
      } else {
        cur := new StatCell();
      }
      cur.Count(c);
      skillStats := skillStats[c.skill := cur];
    }

    /** Each call in turn: an entry that was there keeps its cell, which folds the calls for its skill. */
    method BumpAll(calls: seq<Call>)
      requires Valid()
      modifies this, skillStats.Values
      ensures Valid()
      ensures forall k :: k in old(skillStats) ==> k in skillStats && skillStats[k] == old(skillStats[k])
      ensures forall k :: k in old(skillStats) ==> skillStats[k].stat == Folded(old(skillStats[k].stat), calls, k)
    {
      var i := 0;
      assert calls[..0] == [];
      while i < |calls|
        invariant 0 <= i <= |calls|
        invariant Valid()
        invariant forall k :: k in skillStats ==> skillStats[k] in old(skillStats.Values) || fresh(skillStats[k])
        invariant forall k :: k in old(skillStats) ==> k in skillStats && skillStats[k] == old(skillStats[k])
        invariant forall k :: k in old(skillStats) ==>
          skillStats[k].stat == Folded(old(skillStats[k].stat), calls[..i], k)
      {
        FoldedPush(calls, i);
        BumpStats(calls[i]);
        i := i + 1;
      }
      assert calls[..i] == calls;
    }

    /**
     * A snapshot copies `skillStats` shallowly, signs what the copy shows, and uploads what it shows later. The
     * two agree, so the stored snapshot verifies, exactly when no call counted in between was for a skill
     * already in the copy; a first call of a new skill does no harm.
     */
    method SignThenUpload(between: seq<Call>) returns (signed: map<string, Stat>, uploaded: map<string, Stat>)
      requires Valid()
      modifies this, skillStats.Values
      ensures signed.Keys == uploaded.Keys == old(skillStats.Keys)
      ensures forall k :: k in signed ==> signed[k] == old(skillStats[k].stat)
      ensures signed == uploaded <==> forall c :: c in between ==> c.skill !in old(skillStats)
    {
      var copy := skillStats;
      signed := map k | k in copy :: copy[k].stat;
      BumpAll(between);
      uploaded := map k | k in copy :: copy[k].stat;
      forall k | k in signed
        ensures uploaded[k].calls == signed[k].calls + CallsOf(between, k)
        ensures CallsOf(between, k) == 0 ==> uploaded[k] == signed[k]
      {
        FoldedCounts(signed[k], between, k);
      }
      SameIffUntouched(signed, uploaded, between);
    }
  }

  /** What a stat becomes when the calls for `skill` are counted in it, one after the other. */
  function Folded(s: Stat, calls: seq<Call>, skill: string): Stat {
    if calls == [] then s else FoldOne(Folded(s, calls[..|calls| - 1], skill), calls[|calls| - 1], skill)
  }

  function FoldOne(s: Stat, c: Call, skill: string): Stat {
    if c.skill == skill then BumpStat(s, c.ok, c.now) else s
  }

  lemma FoldedPush(calls: seq<Call>, i: nat)
    requires i < |calls|
    ensures forall s, k :: Folded(s, calls[..i + 1], k) == FoldOne(Folded(s, calls[..i], k), calls[i], k)
  {
    assert calls[..i + 1][..i] == calls[..i];
  }

  /** Folding counts each call for the skill, and leaves the stat alone without any. */
  lemma {:induction false} FoldedCounts(s: Stat, calls: seq<Call>, skill: string)
    ensures Folded(s, calls, skill).calls == s.calls + CallsOf(calls, skill)
    ensures CallsOf(calls, skill) == 0 ==> Folded(s, calls, skill) == s
  {
    if calls != [] {
      FoldedCounts(s, calls[..|calls| - 1], skill);
    }
  }

  predicate FailsFor(c: Call, skill: string) {
    c.skill == skill && !c.ok
  }

  /** The time of the last error is that of the last call for the skill that failed. */
  lemma {:induction false} LastErrorIs(s: Stat, calls: seq<Call>, skill: string, i: nat)
    requires i < |calls| && FailsFor(calls[i], skill)
    requires forall j :: i < j < |calls| ==> !FailsFor(calls[j], skill)
    ensures Folded(s, calls, skill).errLastTs == calls[i].now
  {
    if i < |calls| - 1 {
      LastErrorIs(s, calls[..|calls| - 1], skill, i);
    }
  }

  /** Without one it stays, and only successes for the skill are counted as such. */
  lemma {:induction false} NoErrorKeepsTime(s: Stat, calls: seq<Call>, skill: string)
    requires forall j :: 0 <= j < |calls| ==> !FailsFor(calls[j], skill)
    ensures Folded(s, calls, skill).errLastTs == s.errLastTs
    ensures Folded(s, calls, skill).ok == s.ok + CallsOf(calls, skill)
  {
    if calls != [] {
      NoErrorKeepsTime(s, calls[..|calls| - 1], skill);
    }
  }

  /** How many of the calls are for `skill`. */
  function CallsOf(calls: seq<Call>, skill: string): nat {
    if calls == [] then 0
    else CallsOf(calls[..|calls| - 1], skill) + (if calls[|calls| - 1].skill == skill then 1 else 0)
  }

  lemma {:induction false} CallsOfZero(calls: seq<Call>, skill: string)
    ensures CallsOf(calls, skill) == 0 <==> forall c :: c in calls ==> c.skill != skill
  {
    if calls != [] {
      var front := calls[..|calls| - 1];
      CallsOfZero(front, skill);
      assert calls == front + [calls[|calls| - 1]];
    }
  }

  lemma SameIffUntouched(signed: map<string, Stat>, uploaded: map<string, Stat>, calls: seq<Call>)
    requires signed.Keys == uploaded.Keys
    requires forall k :: k in signed ==> uploaded[k].calls == signed[k].calls + CallsOf(calls, k)
    requires forall k :: k in signed && CallsOf(calls, k) == 0 ==> uploaded[k] == signed[k]
    ensures signed == uploaded <==> forall c :: c in calls ==> c.skill !in signed
  {
    forall k | k in signed
      ensures uploaded[k] == signed[k] <==> forall c :: c in calls ==> c.skill != k
    {
      CallsOfZero(calls, k);
    }
  }
}
