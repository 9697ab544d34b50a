/** A whole run of the agent's inbox: every delivery is admitted or refused and, if admitted, served. */
module AgentRun {
  import opened Wrappers
  import opened CodeUnits
  import opened Json
  import opened Domains
  import opened Caller
  import R = Responder
  import N = NonceCache

  // Whatever the network repeats, the replay guard keeps each call to one run. The sender of a delivery is the peer the
  // bus names.

  /** A request as it was delivered, what its handler would do, and what the agent signed over it. */
  datatype Delivery = Delivery(
    from: Text,
    id: Text,
    caller: Text,
    skill: Text,
    req: N.Request,
    now: int,
    skillKnown: bool,
    paymentAccepted: bool,
    inputValid: bool,
    texts: seq<Text>,
    finish: R.Finish,
    signed: set<Domain>)

  function ArgsOf(me: Text, d: Delivery): Args {
    Args(d.id, me, d.caller, d.skill, 0, 0)
  }

  function OutputOf(f: R.Finish): Option<Json> {
    if f.Returns? then Some(f.output) else None
  }

  predicate SameRequest(d: Delivery, handled: Delivery) {
    handled == d.(signed := handled.signed)
  }

  predicate Admits(d: Delivery) {
    d.caller == d.from && d.skillKnown && d.paymentAccepted && d.inputValid
  }

  /** The refusal of a delivery: one error, signed for its id, caller and skill. */
  predicate IsRefusalOf(me: Text, d: Delivery, x: Domain) {
    x.ResErr? && x == Domain.ResErr(d.id, x.error, me, d.caller, d.skill, x.ts)
  }

  /** What one delivery leaves behind: one run's records if it was admitted, else a refusal and nothing more. */
  ghost predicate Handled(me: Text, d: Delivery, admitted: bool) {
    if admitted then
      && OneRun(ArgsOf(me, d), d.signed, d.texts, OutputOf(d.finish))
      && forall x :: x in d.signed ==> R.IsOwnRecord(ArgsOf(me, d), x)
    else exists x :: IsRefusalOf(me, d, x) && d.signed == {x}
  }

  /** What the environment decides about one request: the texts of errors, the clock, and which sends get through. */
  datatype Conditions = Conditions(refusal: Text, sendError: Text, clock: nat -> int, up: nat -> bool)

  /** handleSkillRequest up to the attestation. */
  method HandleSkillRequest(me: Text, guard: N.Guard, d: Delivery, env: Conditions)
    returns (handled: Delivery, decision: R.Decision, sent: seq<Msg>, attest: Option<bool>)
    requires d.finish.Returns? ==> Valid(d.finish.output)
    modifies guard
    ensures guard.seen == N.After(old(guard.seen), d.req, d.now, guard.maxAge, guard.cap)
    ensures decision.Admitted? <==> N.Judge(old(guard.seen), d.req, d.now, guard.maxAge).Accepted? && Admits(d)
    ensures SameRequest(d, handled) && Handled(me, handled, decision.Admitted?)
    ensures var error := Domain.ResErr(d.id, env.refusal, me, d.caller, d.skill, env.clock(0));
      !decision.Admitted? ==>
        && handled.signed == {error} && attest == None
        && |sent| == (if env.up(0) then 1 else 0)
        && (sent != [] ==> R.IsRefusal(ArgsOf(me, d), sent[0]) && Record(sent[0]) == error)
    ensures decision.Admitted? ==> exists k: nat ::
      && R.IsTranscript(ArgsOf(me, d), sent, k, d.texts, d.finish, attest)
      && R.IsSchedule(sent, k, d.texts, env.clock, env.up)
      && handled.signed == R.RunRecords(ArgsOf(me, d), d.texts, k, d.finish, env.sendError, env.clock)
  {
    attest := None;
    var checks := R.Checks(d.caller == d.from, d.skillKnown, d.paymentAccepted, d.inputValid);
    decision := R.Admit(guard, d.req, d.now, checks);
    var signed: set<Domain>;
    if decision != R.Admitted {
      var error := Domain.ResErr(d.id, env.refusal, me, d.caller, d.skill, env.clock(0));
      signed := {error};
      assert IsRefusalOf(me, d.(signed := signed), error);
      sent := if env.up(0) then [R.SentError(ArgsOf(me, d), env.refusal, env.clock(0))] else [];
    } else {
      var k;
      sent, k, attest, signed := R.Serve(ArgsOf(me, d), d.texts, d.finish, env.sendError, env.clock, env.up);
    }
    handled := d.(signed := signed);
  }

  // ---- A run ----

  function Arrivals(ds: seq<Delivery>): (r: seq<N.Delivery>)
    ensures |r| == |ds| && forall i :: 0 <= i < |ds| ==> r[i] == N.Delivery(ds[i].req, ds[i].now)
  {
    seq(|ds|, i requires 0 <= i < |ds| => N.Delivery(ds[i].req, ds[i].now))
  }

  predicate IsAdmitted(ds: seq<Delivery>, i: nat, maxAge: int, cap: int)
    requires i < |ds|
  {
    N.Passes(Arrivals(ds), i, maxAge, cap) && Admits(ds[i])
  }

  /** Each delivery was handled in turn. */
  ghost predicate IsRun(me: Text, ds: seq<Delivery>, maxAge: int, cap: int) {
    forall i :: 0 <= i < |ds| ==> Handled(me, ds[i], IsAdmitted(ds, i, maxAge, cap))
  }

  lemma OneMoreHandled(me: Text, ds: seq<Delivery>, d: Delivery, maxAge: int, cap: int)
    requires IsRun(me, ds, maxAge, cap)
    requires Handled(me, d,
      N.Judge(N.Cache(Arrivals(ds), maxAge, cap), d.req, d.now, maxAge).Accepted? && Admits(d))
    ensures IsRun(me, ds + [d], maxAge, cap)
    ensures N.Cache(Arrivals(ds + [d]), maxAge, cap) ==
      N.After(N.Cache(Arrivals(ds), maxAge, cap), d.req, d.now, maxAge, cap)
  {
    var all := ds + [d];
    assert Arrivals(all)[..|ds|] == Arrivals(ds);
    forall i | 0 <= i < |all| ensures Handled(me, all[i], IsAdmitted(all, i, maxAge, cap)) {
      assert Arrivals(all)[..i] == Arrivals(ds)[..i];
      if i == |ds| {
        assert Arrivals(ds)[..i] == Arrivals(ds);
      } else {
        assert Handled(me, ds[i], IsAdmitted(ds, i, maxAge, cap));
      }
    }
  }

  lemma OneMoreSame(ds: seq<Delivery>, hs: seq<Delivery>, h: Delivery)
    requires |hs| < |ds| && SameRequest(ds[|hs|], h)
    requires forall i :: 0 <= i < |hs| ==> SameRequest(ds[i], hs[i])
    ensures forall i :: 0 <= i < |hs + [h]| ==> SameRequest(ds[i], (hs + [h])[i])
  {
  }

  /** The inbox loop: deliveries are handled one after the other, each under its own conditions; the result is a run. */
  method HandleAll(me: Text, guard: N.Guard, ds: seq<Delivery>, env: nat -> Conditions)
    returns (handled: seq<Delivery>)
    requires guard.seen == []
    requires forall d :: d in ds && d.finish.Returns? ==> Valid(d.finish.output)
    modifies guard
    ensures |handled| == |ds| && forall i :: 0 <= i < |ds| ==> SameRequest(ds[i], handled[i])
    ensures IsRun(me, handled, guard.maxAge, guard.cap)
  {
    handled := [];
    assert Arrivals([]) == [];
    while |handled| < |ds|
      invariant |handled| <= |ds|
      invariant forall i :: 0 <= i < |handled| ==> SameRequest(ds[i], handled[i])
      invariant guard.seen == N.Cache(Arrivals(handled), guard.maxAge, guard.cap)
      invariant IsRun(me, handled, guard.maxAge, guard.cap)
    {
      var d := ds[|handled|];
      var h, _, _, _ := HandleSkillRequest(me, guard, d, env(|handled|));
      OneMoreHandled(me, handled, h, guard.maxAge, guard.cap);
      OneMoreSame(ds, handled, h);
      handled := handled + [h];
    }
  }

  predicate Copies(ds: seq<Delivery>, i: nat, j: nat)
    requires i < |ds| && j < |ds|
  {
    ds[i].from == ds[j].from && ds[i].id == ds[j].id
  }

  /** A sender draws a new id for each request, so what arrives with the same id is the same request again. */
  predicate CopiesAreVerbatim(ds: seq<Delivery>) {
    forall i, j :: 0 <= i < j < |ds| && Copies(ds, i, j) ==> ds[i].req == ds[j].req
  }

  /** Of all copies of a request, however late, one at most is admitted. */
  lemma AdmittedOnce(ds: seq<Delivery>, i: nat, j: nat, maxAge: int, cap: int)
    requires CopiesAreVerbatim(ds) && N.RateBelow(Arrivals(ds), maxAge, cap)
    requires i < |ds| && j < |ds| && Copies(ds, i, j)
    requires IsAdmitted(ds, i, maxAge, cap) && IsAdmitted(ds, j, maxAge, cap)
    ensures i == j
  {
    assert ds[i].req == ds[j].req;
    N.AtMostOnce(Arrivals(ds), i, j, maxAge, cap);
  }

  /** Everything signed over a run. */
  function AllSigned(ds: seq<Delivery>): set<Domain> {
    if ds == [] then {} else AllSigned(ds[..|ds| - 1]) + ds[|ds| - 1].signed
  }

  lemma {:induction false} SignedSomewhere(ds: seq<Delivery>, x: Domain) returns (i: nat)
    requires x in AllSigned(ds)
    ensures i < |ds| && x in ds[i].signed
  {
    if x in ds[|ds| - 1].signed {
      i := |ds| - 1;
    } else {
      i := SignedSomewhere(ds[..|ds| - 1], x);
    }
  }

  /** Delivery `i` is the one that was served for this call. */
  predicate Serves(ds: seq<Delivery>, i: nat, a: Args, maxAge: int, cap: int) {
    && i < |ds| && IsAdmitted(ds, i, maxAge, cap)
    && ds[i].id == a.id && ds[i].caller == a.me && ds[i].skill == a.skill
  }

  predicate IsAnswerFor(x: Domain, a: Args) {
    (x.Chunk? || x.ResOk?) && x.id == a.id && x.caller == a.me && x.skill == a.skill
  }

  /** A chunk or success for a call was signed when the call was served. */
  lemma AnswersComeFromService(me: Text, ds: seq<Delivery>, a: Args, x: Domain, maxAge: int, cap: int)
    requires IsRun(me, ds, maxAge, cap) && x in AllSigned(ds) && IsAnswerFor(x, a)
    ensures exists i: nat :: Serves(ds, i, a, maxAge, cap) && x in ds[i].signed
  {
    var i := SignedSomewhere(ds, x);
    assert Handled(me, ds[i], IsAdmitted(ds, i, maxAge, cap));
    assert Serves(ds, i, a, maxAge, cap);
  }

  lemma SignedIsWellFormed(me: Text, ds: seq<Delivery>, x: Domain, maxAge: int, cap: int)
    requires IsRun(me, ds, maxAge, cap) && x in AllSigned(ds)
    ensures WellFormed(x)
  {
    var i := SignedSomewhere(ds, x);
    assert Handled(me, ds[i], IsAdmitted(ds, i, maxAge, cap));
  }

  /** Records that answer no call at all: errors, attestations, snapshots, receipts. */
  ghost predicate AnswerNothing(others: set<Domain>) {
    forall x :: x in others ==> WellFormed(x) && !x.Chunk? && !x.ResOk?
  }

  /** Of a call that was served, all of them when it was. */
  lemma AnswersComeFromThisService(me: Text, ds: seq<Delivery>, a: Args, i: nat, x: Domain, maxAge: int, cap: int)
    requires IsRun(me, ds, maxAge, cap) && CopiesAreVerbatim(ds) && N.RateBelow(Arrivals(ds), maxAge, cap)
    requires Serves(ds, i, a, maxAge, cap) && x in AllSigned(ds) && IsAnswerFor(x, a)
    ensures x in ds[i].signed
  {
    AnswersComeFromService(me, ds, a, x, maxAge, cap);
    var j: nat :| Serves(ds, j, a, maxAge, cap) && x in ds[j].signed;
    AdmittedOnce(ds, i, j, maxAge, cap);
  }

  /** Records of which all the answers to a call are those of one delivery's run. */
  lemma SameAnswersOneRun(me: Text, d: Delivery, a: Args, all: set<Domain>)
    requires OneRun(ArgsOf(me, d), d.signed, d.texts, OutputOf(d.finish))
    requires d.id == a.id && d.caller == a.me && d.skill == a.skill
    requires forall x :: x in all ==> WellFormed(x) && (IsAnswerFor(x, a) ==> x in d.signed)
    ensures OneRun(a, all, d.texts, OutputOf(d.finish))
  {
  }

  lemma ServedIsOneRun(
      me: Text, ds: seq<Delivery>, a: Args, i: nat, others: set<Domain>, maxAge: int, cap: int)
    requires IsRun(me, ds, maxAge, cap) && CopiesAreVerbatim(ds) && N.RateBelow(Arrivals(ds), maxAge, cap)
    requires Serves(ds, i, a, maxAge, cap) && AnswerNothing(others)
    ensures OneRun(a, AllSigned(ds) + others, ds[i].texts, OutputOf(ds[i].finish))
  {
    var all := AllSigned(ds) + others;
    forall x | x in all ensures WellFormed(x) && (IsAnswerFor(x, a) ==> x in ds[i].signed) {
      if x in AllSigned(ds) {
        SignedIsWellFormed(me, ds, x, maxAge, cap);
        if IsAnswerFor(x, a) {
          AnswersComeFromThisService(me, ds, a, i, x, maxAge, cap);
        }
      }
    }
    assert Handled(me, ds[i], IsAdmitted(ds, i, maxAge, cap));
    SameAnswersOneRun(me, ds[i], a, all);
  }

  lemma UnservedIsOneRun(me: Text, ds: seq<Delivery>, a: Args, others: set<Domain>, maxAge: int, cap: int)
    requires IsRun(me, ds, maxAge, cap) && AnswerNothing(others)
    requires forall i: nat :: !Serves(ds, i, a, maxAge, cap)
    ensures OneRun(a, AllSigned(ds) + others, [], None)
  {
    forall x | x in AllSigned(ds) ensures WellFormed(x) && !IsAnswerFor(x, a) {
      SignedIsWellFormed(me, ds, x, maxAge, cap);
      if IsAnswerFor(x, a) {
        AnswersComeFromService(me, ds, a, x, maxAge, cap);
      }
    }
  }

  /**
   * Over a whole run of the agent, however often the network repeats requests: everything it signs is one run's for
   * each id, caller and skill, that of the one delivery it served, or of none.
   */
  lemma RunIsOneRun(me: Text, ds: seq<Delivery>, a: Args, others: set<Domain>, maxAge: int, cap: int)
    returns (served: Option<nat>)
    requires IsRun(me, ds, maxAge, cap) && CopiesAreVerbatim(ds) && N.RateBelow(Arrivals(ds), maxAge, cap)
    requires AnswerNothing(others)
    ensures served.Some? ==> Serves(ds, served.value, a, maxAge, cap)
    ensures served.None? ==> forall i: nat :: !Serves(ds, i, a, maxAge, cap)
    ensures OneRun(a, AllSigned(ds) + others,
                   if served.Some? then ds[served.value].texts else [],
                   if served.Some? then OutputOf(ds[served.value].finish) else None)
  {
    if i: nat :| Serves(ds, i, a, maxAge, cap) {
      served := Some(i);
      ServedIsOneRun(me, ds, a, i, others, maxAge, cap);
    } else {
      served := None;
      UnservedIsOneRun(me, ds, a, others, maxAge, cap);
    }
  }

  /**
   * End to end against a hostile network: the texts a caller shows are a prefix of those of the one delivery of its
   * request that was served, a success carries that handler's output, and a request never served shows nothing.
   */
  lemma CallerSeesTheServedRun(
      me: Text, ds: seq<Delivery>, a: Args, others: set<Domain>, ps: seq<Poll>, maxAge: int, cap: int)
    returns (served: Option<nat>)
    requires IsRun(me, ds, maxAge, cap) && CopiesAreVerbatim(ds) && N.RateBelow(Arrivals(ds), maxAge, cap)
    requires AnswerNothing(others) && a.expected == me
    requires Unforged(ps, me, AllSigned(ds) + others) && Parsed(ps)
    ensures served.None? ==> Receive(a, ps, 0).shown == [] && !Receive(a, ps, 0).outcome.Returned?
    ensures served.Some? ==>
      Serves(ds, served.value, a, maxAge, cap) && Receive(a, ps, 0).shown <= ds[served.value].texts
    ensures served.Some? && Receive(a, ps, 0).outcome.Returned? ==>
      var f := ds[served.value].finish;
      f.Returns? && Meaning(Receive(a, ps, 0).outcome.output) == Meaning(f.output)
  {
    served := RunIsOneRun(me, ds, a, others, maxAge, cap);
    ShownIsGenuinePrefix(a, ps, AllSigned(ds) + others,
                         if served.Some? then ds[served.value].texts else [],
                         if served.Some? then OutputOf(ds[served.value].finish) else None);
  }

  /** The same for callSkill. */
  lemma FinalIsTheServedOutput(
      me: Text, ds: seq<Delivery>, a: Args, others: set<Domain>, ps: seq<Poll>, maxAge: int, cap: int)
    requires IsRun(me, ds, maxAge, cap) && CopiesAreVerbatim(ds) && N.RateBelow(Arrivals(ds), maxAge, cap)
    requires AnswerNothing(others) && a.expected == me
    requires Unforged(ps, me, AllSigned(ds) + others) && Parsed(ps)
    requires ReceiveFinal(a, ps).Returned?
    ensures exists i: nat ::
      && Serves(ds, i, a, maxAge, cap) && ds[i].finish.Returns?
      && Meaning(ReceiveFinal(a, ps).output) == Meaning(ds[i].finish.output)
  {
    var served := RunIsOneRun(me, ds, a, others, maxAge, cap);
    FinalIsGenuine(a, ps, AllSigned(ds) + others,
                   if served.Some? then ds[served.value].texts else [],
                   if served.Some? then OutputOf(ds[served.value].finish) else None);
    assert Serves(ds, served.value, a, maxAge, cap);
  }
}
