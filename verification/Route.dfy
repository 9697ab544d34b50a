/**
 * The `route` skill: look up a tag, forward the payload to another agent with one hop less, and splice the
 * traces on the way back. `hopBudget` is a real number, as any JSON number is accepted.
 */
module Route {
  import opened Wrappers

  type Pubkey = string

  /** The members of a skill's input that routing looks at; `body` stands for the rest of it. */
  datatype Input = Object(tag: Option<string>, payload: Option<Input>, hopBudget: Option<real>, body: nat)
                 | NotAnObject(body: nat)

  datatype Hop = Hop(from: Pubkey, to: Pubkey, skill: string)

  /** A skill's output: with a `trace` array (and an `output` beside it), or anything else. */
  datatype Output = Traced(output: Output, trace: seq<Hop>) | Plain(body: nat)

  datatype Error = MissingTag | BudgetExhausted | NoRoute | UnknownSkill | HopFailed | SkillFailed

  datatype Result = Ok(output: Output) | Err(error: Error)

  datatype Target = Target(dest: Pubkey, skill: string)

  /** An agent: its routing table if it hosts `route`, and its other skills. */
  datatype Agent = Agent(routes: Option<map<string, Target>>, skills: map<string, Input -> Result>)

  type World = map<Pubkey, Agent>

  const ROUTE: string := "route"

  const DEFAULT_BUDGET: real := 3.0

  /** `{...payload, hopBudget}`; spreading something that is not an object contributes no member we look at. */
  function WithBudget(payload: Option<Input>, budget: real): Input {
    match payload
    case Some(Object(tag, inner, _, body)) => Object(tag, inner, Some(budget), body)
    case _ => Object(None, None, Some(budget), 0)
  }

  /** How many routing requests are nested in an input: forwarding always takes one off. */
  function Nesting(i: Option<Input>): nat {
    match i
    case Some(Object(Some(_), inner, _, _)) => 1 + Nesting(inner)
    case _ => 0
  }

  /** The forwarded input; an absent payload reaches a terminal skill as undefined. */
  function Forwarded(t: Target, payload: Option<Input>, budget: real): (i: Input)
    ensures Nesting(Some(i)) <= Nesting(payload)
  {
    if t.skill == ROUTE then WithBudget(payload, budget - 1.0)
    else if payload.Some? then payload.value
    else NotAnObject(0)
  }

  /** The skill call that finally answered. */
  datatype Answer = Answer(agent: Pubkey, skill: string, output: Output)

  datatype Run = Run(result: Result, forwards: nat, path: seq<Hop>, answer: Option<Answer>)

  function Refuse(e: Error, forwards: nat): Run {
    Run(Err(e), forwards, [], None)
  }

  predicate Routes(w: World, at: Pubkey, skill: string) {
    at in w && skill == ROUTE && w[at].routes.Some?
  }

  function Budget(i: Input): real
    requires i.Object?
  {
    if i.hopBudget.Some? then i.hopBudget.value else DEFAULT_BUDGET
  }

  /**
   * Calling `skill` at agent `at`. `lost` says which hops fail in transit, by depth. `forwards` counts the calls
   * made on, `path` the hops to the skill that answered, and `answer` what it said; the code keeps only `result`.
   */
  function Invoke(w: World, at: Pubkey, skill: string, input: Input, lost: nat -> bool, depth: nat): Run
    decreases Nesting(Some(input))
  {
    if at !in w then Refuse(HopFailed, 0)
    else if Routes(w, at, skill) then
      if !input.Object? || input.tag.None? then Refuse(MissingTag, 0)
      else if Budget(input) <= 0.0 then Refuse(BudgetExhausted, 0)
      else if input.tag.value !in w[at].routes.value then Refuse(NoRoute, 0)
      else if lost(depth) then Refuse(HopFailed, 1)
      else
        var t := w[at].routes.value[input.tag.value];
        var r := Invoke(w, t.dest, t.skill, Forwarded(t, input.payload, Budget(input)), lost, depth + 1);
        match r.result
        case Err(_) => Refuse(HopFailed, r.forwards + 1)
        case Ok(down) =>
          var hop := Hop(at, t.dest, t.skill);
          Run(Ok(Splice(hop, down)), r.forwards + 1, [hop] + r.path, r.answer)
    else if skill !in w[at].skills then Refuse(UnknownSkill, 0)
    else
      match w[at].skills[skill](input)
      case Err(e) => Refuse(e, 0)
      case Ok(output) => Run(Ok(output), 0, [], Some(Answer(at, skill, output)))
  }

  /** A downstream trace is spliced after this hop; any other output gets a trace of its own. */
  function Splice(hop: Hop, down: Output): Output {
    match down
    case Traced(output, trace) => Traced(output, [hop] + trace)
    case Plain(_) => Traced(down, [hop])
  }

  /** An output under the trace of the hops that led to it. */
  function Prefixed(path: seq<Hop>, answer: Output): Output {
    match answer
    case Traced(output, trace) => Traced(output, path + trace)
    case Plain(_) => Traced(answer, path)
  }

  // ---- Termination and the budget ----

  /**
   * Whatever the routing tables, cyclic ones included, and whatever hops are lost: a request with budget `b`
   * causes fewer than `b + 1` forwards, none if `b` is not positive, and never more than the payload is deep.
   */
  lemma {:induction false} ForwardsAreBounded(
      w: World, at: Pubkey, skill: string, input: Input, lost: nat -> bool, depth: nat)
    ensures var r := Invoke(w, at, skill, input, lost, depth);
      && r.forwards <= Nesting(Some(input))
      && (input.Object? && Budget(input) <= 0.0 ==> r.forwards == 0)
      && (input.Object? && Budget(input) > 0.0 && Routes(w, at, skill) ==> r.forwards as real < Budget(input) + 1.0)
      && (!Routes(w, at, skill) ==> r.forwards == 0)
    decreases Nesting(Some(input))
  {
    if Routes(w, at, skill) && input.Object? && input.tag.Some? && Budget(input) > 0.0
      && input.tag.value in w[at].routes.value && !lost(depth)
    {
      var t := w[at].routes.value[input.tag.value];
      ForwardsAreBounded(w, t.dest, t.skill, Forwarded(t, input.payload, Budget(input)), lost, depth + 1);
    }
  }

  /** With a whole-number budget, at most that many forwards. */
  lemma WholeBudget(w: World, at: Pubkey, input: Input, lost: nat -> bool, hops: nat)
    requires input.Object? && Budget(input) == hops as real
    ensures Invoke(w, at, ROUTE, input, lost, 0).forwards <= hops
  {
    ForwardsAreBounded(w, at, ROUTE, input, lost, 0);
  }

  // ---- The trace ----

  /** Each hop starts where the one before it ended. */
  predicate Connected(from: Pubkey, path: seq<Hop>, to: Pubkey)
    decreases |path|
  {
    if path == [] then from == to else path[0].from == from && Connected(path[0].to, path[1..], to)
  }

  /** Every hop but the last goes to a router. */
  predicate ThroughRouters(w: World, path: seq<Hop>) {
    forall i :: 0 <= i < |path| - 1 ==> Routes(w, path[i].to, path[i].skill)
  }

  /**
   * A successful call was answered by one skill that is not a router, at the end of a connected path of at most
   * `forwards` hops from the first router. The output returned carries that path, before any trace the skill
   * itself returned.
   */
  lemma {:induction false} TraceIsThePath(
      w: World, at: Pubkey, skill: string, input: Input, lost: nat -> bool, depth: nat)
    requires Invoke(w, at, skill, input, lost, depth).result.Ok?
    ensures var r := Invoke(w, at, skill, input, lost, depth);
      && r.answer.Some? && Connected(at, r.path, r.answer.value.agent) && ThroughRouters(w, r.path)
      && |r.path| == r.forwards
      && (r.path != [] ==> r.path[|r.path| - 1].skill == r.answer.value.skill)
      && (Routes(w, at, skill) <==> r.path != [])
      && !Routes(w, r.answer.value.agent, r.answer.value.skill)
      && (r.path == [] ==> r.result == Ok(r.answer.value.output) && r.answer.value.skill == skill)
      && (r.path != [] ==> r.result == Ok(Prefixed(r.path, r.answer.value.output)))
    decreases Nesting(Some(input))
  {
    if Routes(w, at, skill) {
      var t := w[at].routes.value[input.tag.value];
      var next := Invoke(w, t.dest, t.skill, Forwarded(t, input.payload, Budget(input)), lost, depth + 1);
      TraceIsThePath(w, t.dest, t.skill, Forwarded(t, input.payload, Budget(input)), lost, depth + 1);
      var r := Invoke(w, at, skill, input, lost, depth);
      assert r.path[1..] == next.path;
      forall i | 0 <= i < |r.path| - 1 ensures Routes(w, r.path[i].to, r.path[i].skill) {
        assert i > 0 ==> r.path[i] == next.path[i - 1];
      }
      var hop, said := Hop(at, t.dest, t.skill), next.answer.value.output;
      assert r.path == [hop] + next.path;
      if said.Traced? {
        assert [hop] + next.path + said.trace == [hop] + (next.path + said.trace);
        assert next.path == [] ==> next.path + said.trace == said.trace;
      } else {
        assert next.path == [] ==> [hop] + next.path == [hop];
      }
    }
  }

  /**
   * The caller of `route` gets the terminal skill's output untouched, with exactly the path as its trace, if and
   * only if that output has no `trace` array of its own.
   */
  lemma UntouchedIffNoTrace(w: World, at: Pubkey, input: Input, lost: nat -> bool)
    requires Routes(w, at, ROUTE) && Invoke(w, at, ROUTE, input, lost, 0).result.Ok?
    ensures var r := Invoke(w, at, ROUTE, input, lost, 0);
      && r.answer.Some? && r.path != []
      && (r.result == Ok(Traced(r.answer.value.output, r.path)) <==> r.answer.value.output.Plain?)
  {
    TraceIsThePath(w, at, ROUTE, input, lost, 0);
  }

  // ---- What the terminal skill is given, and when a call succeeds ----

  datatype Place = Place(agent: Pubkey, skill: string)

  /** Where a request is after `n` hops, following the tags nested in it through the routing tables. */
  function Hops(w: World, at: Pubkey, skill: string, request: Option<Input>, n: nat): Option<Place>
    decreases n
  {
    if n == 0 then Some(Place(at, skill))
    else if Routes(w, at, skill) && request.Some? && request.value.Object? && request.value.tag.Some?
      && request.value.tag.value in w[at].routes.value
    then
      var t := w[at].routes.value[request.value.tag.value];
      Hops(w, t.dest, t.skill, request.value.payload, n - 1)
    else None
  }

  /** The payload nested `n` deep in a request. */
  function Nested(request: Option<Input>, n: nat): Option<Input> {
    if n == 0 then request
    else
      match request
      case Some(Object(_, payload, _, _)) => Nested(payload, n - 1)
      case _ => None
  }

  /**
   * What reaches a skill `n` hops on: the payload nested that deep as it is, or undefined where there is none. A
   * skill called `route` gets the payload's members with what is left of the budget.
   */
  predicate IsGiven(given: Input, request: Input, skill: string, n: nat) {
    var payload := Nested(Some(request), n);
    if n == 0 then given == request
    else if skill == ROUTE then
      && given.Object? && request.Object? && given.hopBudget == Some(Budget(request) - n as real)
      && (if payload.Some? && payload.value.Object? then
            given.tag == payload.value.tag && given.payload == payload.value.payload && given.body == payload.value.body
          else given.tag == None && given.payload == None && given.body == 0)
    else given == if payload.Some? then payload.value else NotAnObject(0)
  }

  /**
   * The call reaches, after `n` hops through routers, a skill that is no router and answers what it is given with
   * `output`: no hop is lost, and the budget is positive at each of the `n` routers.
   */
  ghost predicate Reaches(
      w: World, at: Pubkey, skill: string, input: Input, lost: nat -> bool, depth: nat, n: nat, answer: Answer)
  {
    && Hops(w, at, skill, Some(input), n) == Some(Place(answer.agent, answer.skill))
    && answer.agent in w && !Routes(w, answer.agent, answer.skill) && answer.skill in w[answer.agent].skills
    && (n > 0 ==> input.Object? && Budget(input) > (n - 1) as real)
    && (forall k :: depth <= k < depth + n ==> !lost(k))
    && exists given :: IsGiven(given, input, answer.skill, n)
                       && w[answer.agent].skills[answer.skill](given) == Ok(answer.output)
  }

  /** Following the tags does not depend on the budget written into the request on the way. */
  lemma HopsForwarded(w: World, t: Target, payload: Option<Input>, budget: real, n: nat)
    ensures Hops(w, t.dest, t.skill, Some(Forwarded(t, payload, budget)), n) == Hops(w, t.dest, t.skill, payload, n)
  {
  }

  /** What a skill is given `n` hops after the next one is what it is given `n + 1` hops after this one. */
  lemma GivenForwarded(t: Target, request: Input, given: Input, skill: string, n: nat)
    requires request.Object? && (n == 0 ==> skill == t.skill)
    requires n > 0 ==> t.skill == ROUTE && request.payload.Some? && request.payload.value.Object?
    ensures IsGiven(given, Forwarded(t, request.payload, Budget(request)), skill, n)
       <==> IsGiven(given, request, skill, n + 1)
  {
    var next := Forwarded(t, request.payload, Budget(request));
    assert Nested(Some(request), n + 1) == Nested(request.payload, n);
    if n > 0 {
      assert Nested(Some(next), n) == Nested(next.payload, n - 1);
      assert Nested(request.payload, n) == Nested(request.payload.value.payload, n - 1);
    }
  }

  /** A hop onwards from a router: where the tag is known, the budget positive and the hop not lost. */
  lemma InvokeRouter(w: World, at: Pubkey, skill: string, input: Input, lost: nat -> bool, depth: nat)
    requires Routes(w, at, skill)
    ensures var r := Invoke(w, at, skill, input, lost, depth);
      if input.Object? && input.tag.Some? && Budget(input) > 0.0 && !lost(depth)
         && input.tag.value in w[at].routes.value
      then
        var t := w[at].routes.value[input.tag.value];
        var next := Invoke(w, t.dest, t.skill, Forwarded(t, input.payload, Budget(input)), lost, depth + 1);
        && (r.result.Ok? <==> next.result.Ok?)
        && (next.result.Ok? ==> r.answer == next.answer && r.path == [Hop(at, t.dest, t.skill)] + next.path)
      else r.result.Err?
  {
  }

  /** Which refusal a router gives, checks in this order; whatever goes wrong further on is a failed hop. */
  lemma RouterRefusesIff(w: World, at: Pubkey, skill: string, input: Input, lost: nat -> bool, depth: nat)
    requires Routes(w, at, skill)
    ensures var r := Invoke(w, at, skill, input, lost, depth).result;
      var tagged := input.Object? && input.tag.Some?;
      && (r == Err(MissingTag) <==> !tagged)
      && (r == Err(BudgetExhausted) <==> tagged && Budget(input) <= 0.0)
      && (r == Err(NoRoute) <==> tagged && Budget(input) > 0.0 && input.tag.value !in w[at].routes.value)
      && (r.Err? && r.error !in {MissingTag, BudgetExhausted, NoRoute} ==> r.error == HopFailed)
  {
  }

  lemma {:induction false} SuccessReaches(
      w: World, at: Pubkey, skill: string, input: Input, lost: nat -> bool, depth: nat)
    requires Invoke(w, at, skill, input, lost, depth).result.Ok?
    ensures var r := Invoke(w, at, skill, input, lost, depth);
      r.answer.Some? && Reaches(w, at, skill, input, lost, depth, |r.path|, r.answer.value)
    decreases Nesting(Some(input))
  {
    if Routes(w, at, skill) {
      InvokeRouter(w, at, skill, input, lost, depth);
      var t := w[at].routes.value[input.tag.value];
      var next := Forwarded(t, input.payload, Budget(input));
      SuccessReaches(w, t.dest, t.skill, next, lost, depth + 1);
      var r := Invoke(w, t.dest, t.skill, next, lost, depth + 1);
      ReachesBefore(w, at, skill, input, lost, depth, |r.path|, r.answer.value);
    } else {
      assert IsGiven(input, input, skill, 0);
    }
  }

  /** One hop taken: what is reached from the next place is reached from this one, and the other way round. */
  lemma ReachesBefore(
      w: World, at: Pubkey, skill: string, input: Input, lost: nat -> bool, depth: nat, n: nat, answer: Answer)
    requires Routes(w, at, skill) && input.Object? && input.tag.Some? && input.tag.value in w[at].routes.value
    requires Budget(input) > 0.0 && !lost(depth)
    ensures var t := w[at].routes.value[input.tag.value];
      Reaches(w, t.dest, t.skill, Forwarded(t, input.payload, Budget(input)), lost, depth + 1, n, answer)
      <==> Reaches(w, at, skill, input, lost, depth, n + 1, answer)
  {
    var t := w[at].routes.value[input.tag.value];
    var next := Forwarded(t, input.payload, Budget(input));
    HopsForwarded(w, t, input.payload, Budget(input), n);
    if Hops(w, t.dest, t.skill, input.payload, n) == Some(Place(answer.agent, answer.skill)) {
      forall given
        ensures IsGiven(given, next, answer.skill, n) <==> IsGiven(given, input, answer.skill, n + 1)
      {
        GivenForwarded(t, input, given, answer.skill, n);
      }
    }
  }

  lemma {:induction false} ReachesSucceeds(
      w: World, at: Pubkey, skill: string, input: Input, lost: nat -> bool, depth: nat, n: nat, answer: Answer)
    requires Reaches(w, at, skill, input, lost, depth, n, answer)
    ensures var r := Invoke(w, at, skill, input, lost, depth);
      r.result.Ok? && r.answer == Some(answer) && |r.path| == n
    decreases n
  {
    if n == 0 {
      var given :| IsGiven(given, input, skill, 0) && w[at].skills[skill](given) == Ok(answer.output);
    } else {
      ReachesBefore(w, at, skill, input, lost, depth, n - 1, answer);
      InvokeRouter(w, at, skill, input, lost, depth);
      var t := w[at].routes.value[input.tag.value];
      ReachesSucceeds(w, t.dest, t.skill, Forwarded(t, input.payload, Budget(input)), lost, depth + 1, n - 1, answer);
    }
  }

  /**
   * Exactly when a call succeeds, and with what answer: when following the nested tags leads, over hops none of which
   * is lost and routers none of which is out of budget, to a skill that answers what it is given, which is the payload
   * nested as deep in the request as it is hops away.
   */
  lemma SucceedsIff(
      w: World, at: Pubkey, skill: string, input: Input, lost: nat -> bool, depth: nat, n: nat, answer: Answer)
    ensures var r := Invoke(w, at, skill, input, lost, depth);
      r.result.Ok? && r.answer == Some(answer) && |r.path| == n
      <==> Reaches(w, at, skill, input, lost, depth, n, answer)
  {
    if Invoke(w, at, skill, input, lost, depth).result.Ok? {
      SuccessReaches(w, at, skill, input, lost, depth);
    }
    if Reaches(w, at, skill, input, lost, depth, n, answer) {
      ReachesSucceeds(w, at, skill, input, lost, depth, n, answer);
    }
  }

  /** A request that names no budget has three hops. */
  lemma ThreeHopsByDefault(w: World, at: Pubkey, input: Input, lost: nat -> bool)
    requires input.Object? && input.hopBudget.None? && Routes(w, at, ROUTE)
    ensures Invoke(w, at, ROUTE, input, lost, 0) == Invoke(w, at, ROUTE, input.(hopBudget := Some(3.0)), lost, 0)
    ensures Invoke(w, at, ROUTE, input, lost, 0).forwards <= 3
  {
    WholeBudget(w, at, input, lost, 3);
  }
}
