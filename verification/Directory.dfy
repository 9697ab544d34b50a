/**
 * Reputation scores and the directory's ranking. Ratios are exact reals; a lookback is at least 1.
 */
module Directory {
  import opened Wrappers
  import C = Chain
  import A = AgentStats

  type Attestation = C.Root

  // ---- Scores over a list of attestations, newest first ----

  datatype Score = Score(n: nat, ok: nat, ratio: real, score: real)

  const NO_SCORE: Score := Score(0, 0, 0.0, 0.0)

  /** The empty skill name filters nothing. */
  predicate Matches(a: Attestation, target: string, skill: string) {
    a.base.payload.calleeINFT == target && (skill == "" || a.base.payload.skill == skill)
  }

  function Matching(atts: seq<Attestation>, target: string, skill: string): (r: seq<Attestation>)
    ensures |r| <= |atts|
  {
    if atts == [] then []
    else (if Matches(atts[0], target, skill) then [atts[0]] else []) + Matching(atts[1..], target, skill)
  }

  function OkCount(atts: seq<Attestation>): (n: nat)
    ensures n <= |atts|
  {
    if atts == [] then 0 else (if atts[0].base.payload.ok then 1 else 0) + OkCount(atts[1..])
  }

  function First<T>(s: seq<T>, n: nat): seq<T> {
    if n < |s| then s[..n] else s
  }

  function Ratio(ok: nat, n: nat): real {
    if n == 0 then 0.0 else ok as real / n as real
  }

  /** RepChain.score: the ratio over everything. */
  function PlainScore(atts: seq<Attestation>, target: string): Score {
    var filtered := Matching(atts, target, "");
    var ok, n := OkCount(filtered), |filtered|;
    Score(n, ok, Ratio(ok, n), Ratio(ok, n))
  }

  function ScoreFor(atts: seq<Attestation>, target: string, skill: string, lookback: nat): Score
    requires lookback >= 1
  {
    var filtered := First(Matching(atts, target, skill), lookback);
    var ok, n := OkCount(filtered), |filtered|;
    var confidence := (if n < lookback then n else lookback) as real / lookback as real;
    Score(n, ok, Ratio(ok, n), Ratio(ok, n) * confidence)
  }

  lemma Cancel(ok: nat, n: nat, lookback: nat)
    requires 0 < n && 0 < lookback
    ensures (ok as real / n as real) * (n as real / lookback as real) == ok as real / lookback as real
  {
    var x, y, z := ok as real, n as real, lookback as real;
    assert (x / y) * (y / z) == ((x / y) * y) / z;
  }

  lemma DivideOrder(a: nat, b: nat, d: nat)
    requires d > 0
    ensures a <= b <==> a as real / d as real <= b as real / d as real
    ensures a as real / d as real - b as real / d as real == (a - b) as real / d as real
  {
    var x, y, z := a as real, b as real, d as real;
    assert x / z - y / z == (x - y) / z;
    assert (x - y) / z * z == x - y;
  }

  lemma Fraction(ok: nat, lookback: nat)
    requires ok <= lookback && lookback >= 1
    ensures var r := ok as real / lookback as real;
      0.0 <= r <= 1.0 && (r == 1.0 <==> ok == lookback) && (r == 0.0 <==> ok == 0)
  {
    var r := ok as real / lookback as real;
    assert r * lookback as real == ok as real;
  }

  /**
   * The weighted score is the number of successes over the lookback: thin histories are pulled down exactly as if
   * the missing calls had failed. It is 1 only for a full window of successes and 0 only without any.
   */
  lemma ScoreIsOkOverLookback(atts: seq<Attestation>, target: string, skill: string, lookback: nat)
    requires lookback >= 1
    ensures var s := ScoreFor(atts, target, skill, lookback);
      && s.score == s.ok as real / lookback as real
      && 0.0 <= s.score <= 1.0
      && (s.score == 1.0 <==> s.ok == lookback)
      && (s.score == 0.0 <==> s.ok == 0)
      && s.ok <= s.n <= lookback
  {
    var s := ScoreFor(atts, target, skill, lookback);
    if s.n > 0 {
      Cancel(s.ok, s.n, lookback);
    }
    Fraction(s.ok, lookback);
  }

  lemma Unpenalised(ok: nat, n: nat, lookback: nat)
    requires 0 < n <= lookback
    ensures var plain, weighted := Ratio(ok, n), ok as real / lookback as real;
      weighted <= plain && (weighted == plain <==> ok == 0 || n == lookback)
  {
    var x, y, z := ok as real, n as real, lookback as real;
    var plain, weighted := x / y, x / z;
    assert plain * y == x && weighted * z == x;
    assert (plain - weighted) * y == weighted * (z - y);
    if x > 0.0 {
      assert weighted > 0.0;
    }
  }

  lemma WholeHistory(atts: seq<Attestation>, target: string, lookback: nat)
    requires lookback >= |Matching(atts, target, "")| >= 1
    ensures var p, s := PlainScore(atts, target), ScoreFor(atts, target, "", lookback);
      p.ok == s.ok && p.n == s.n && p.ratio == s.ratio == Ratio(p.ok, p.n) && 1 <= p.n <= lookback
  {
  }

  /** The plain ratio is the weighted score without its penalty for a history shorter than the lookback. */
  lemma PlainScoreIsUnpenalised(atts: seq<Attestation>, target: string, lookback: nat)
    requires lookback >= |Matching(atts, target, "")| >= 1
    ensures var p, s := PlainScore(atts, target), ScoreFor(atts, target, "", lookback);
      && s.score <= p.ratio
      && (s.score == p.ratio <==> p.ok == 0 || p.n == lookback)
  {
    WholeHistory(atts, target, lookback);
    ScoreIsOkOverLookback(atts, target, "", lookback);
    Unpenalised(PlainScore(atts, target).ok, PlainScore(atts, target).n, lookback);
  }

  lemma {:induction false} OkCountLast(atts: seq<Attestation>)
    requires atts != []
    ensures OkCount(atts) == OkCount(atts[..|atts| - 1]) + (if atts[|atts| - 1].base.payload.ok then 1 else 0)
  {
    if |atts| == 1 {
      assert atts[1..] == [] && atts[..0] == [];
    } else {
      OkCountLast(atts[1..]);
      assert atts[1..][..|atts| - 2] == atts[..|atts| - 1][1..];
      assert atts[1..][|atts| - 2] == atts[|atts| - 1];
    }
  }

  /** One newer entry in a window of `k`: it comes in, and the oldest goes out if the window was full. */
  lemma OkCountSlides(a: Attestation, ms: seq<Attestation>, k: nat)
    requires k >= 1
    ensures OkCount(First([a] + ms, k)) <= OkCount(First(ms, k)) + 1
    ensures OkCount(First(ms, k)) <= OkCount(First([a] + ms, k)) + 1
  {
    var was, now := First(ms, k), First([a] + ms, k);
    if |ms| < k {
      assert now == [a] + was && now[1..] == was;
    } else {
      assert now == [a] + was[..k - 1] && now[1..] == was[..k - 1];
      OkCountLast(was);
    }
  }

  /** One new attestation, whoever it is about, moves a score by at most one part in `lookback`. */
  lemma OneAttestationMovesLittle(a: Attestation, atts: seq<Attestation>, target: string, skill: string, lookback: nat)
    requires lookback >= 1
    ensures var was, now := ScoreFor(atts, target, skill, lookback), ScoreFor([a] + atts, target, skill, lookback);
      && -1.0 / lookback as real <= now.score - was.score <= 1.0 / lookback as real
      && (!Matches(a, target, skill) ==> now == was)
      && (Matches(a, target, skill) && !a.base.payload.ok ==> now.score <= was.score)
      && (Matches(a, target, skill) && a.base.payload.ok ==> now.score >= was.score)
  {
    var ms := Matching(atts, target, skill);
    assert ([a] + atts)[1..] == atts;
    ScoreIsOkOverLookback(atts, target, skill, lookback);
    ScoreIsOkOverLookback([a] + atts, target, skill, lookback);
    var was, now := ScoreFor(atts, target, skill, lookback), ScoreFor([a] + atts, target, skill, lookback);
    if Matches(a, target, skill) {
      OkCountSlides(a, ms, lookback);
      Slid(a, ms, lookback);
    } else {
      assert [] + ms == ms;
    }
    DivideOrder(now.ok, was.ok, lookback);
    DivideOrder(was.ok, now.ok, lookback);
    DivideOrder(was.ok + 1, was.ok, lookback);
    DivideOrder(now.ok, was.ok + 1, lookback);
    DivideOrder(was.ok, now.ok + 1, lookback);
    DivideOrder(now.ok + 1, now.ok, lookback);
  }

  lemma Slid(a: Attestation, ms: seq<Attestation>, k: nat)
    requires k >= 1
    ensures a.base.payload.ok ==> OkCount(First([a] + ms, k)) >= OkCount(First(ms, k))
    ensures !a.base.payload.ok ==> OkCount(First([a] + ms, k)) <= OkCount(First(ms, k))
  {
    var was, now := First(ms, k), First([a] + ms, k);
    if |ms| < k {
      assert now == [a] + was && now[1..] == was;
    } else {
      assert now == [a] + was[..k - 1] && now[1..] == was[..k - 1];
      OkCountLast(was);
    }
  }

  // ---- One candidate ----

  /** What ENS says about a name: nothing, or its records; the card is None when absent or unreadable. */
  datatype Records = Unresolved | Records(card: Option<set<string>>, tokenId: string, repHead: Option<C.Root>)

  datatype Entry = Entry(seat: nat, ens: string, tokenId: string, repHead: Option<C.Root>, score: Score)

  /** A failed walk leaves the score at zero; the agent is listed all the same. */
  function EntryFor(
      seat: nat, ens: string, rec: Records, store: set<C.Root>, skill: string, lookback: nat)
    : Option<Entry>
    requires lookback >= 1
  {
    if rec.Unresolved? || rec.card.None? || skill !in rec.card.value then None
    else
      var score :=
        if rec.repHead.None? || rec.tokenId == "" then NO_SCORE
        else
          match C.WalkFrom(store, rec.repHead, lookback, None)
          case NotFound => NO_SCORE
          case Found(atts) => ScoreFor(atts, rec.tokenId, skill, lookback);
      Some(Entry(seat, ens, rec.tokenId, rec.repHead, score))
  }

  lemma {:induction false} MatchingFirst(atts: seq<Attestation>, target: string, skill: string, k: nat)
    ensures Matching(First(atts, k), target, skill) <= Matching(atts, target, skill)
    ensures |Matching(First(atts, k), target, skill)| <= k
  {
    if k < |atts| && k > 0 {
      assert atts[..k][1..] == First(atts[1..], k - 1);
      MatchingFirst(atts[1..], target, skill, k - 1);
    }
  }

  lemma {:induction false} OkCountGrows(s: seq<Attestation>, t: seq<Attestation>)
    requires s <= t
    ensures OkCount(s) <= OkCount(t)
  {
    if s != [] {
      OkCountGrows(s[1..], t[1..]);
    }
  }

  /**
   * The directory looks back over the newest `lookback` attestations of the chain, whatever they are about, and
   * scores those about this skill: never more than the newest `lookback` about this skill would give.
   */
  lemma DirectoryScore(seat: nat, ens: string, rec: Records, es: seq<C.Event>, skill: string, lookback: nat)
    requires lookback >= 1
    requires rec.Records? && rec.card.Some? && skill in rec.card.value && rec.tokenId != ""
    requires var s := C.Run(C.Init(None, {}), es); rec.repHead == s.head && s.head.Some?
    ensures var s := C.Run(C.Init(None, {}), es);
      var e := EntryFor(seat, ens, rec, s.store, skill, lookback);
      && e.Some?
      && e.value.score.ok == OkCount(Matching(C.Newest(s.log, lookback), rec.tokenId, skill))
      && e.value.score.score == e.value.score.ok as real / lookback as real
      && e.value.score.score <= ScoreFor(C.Reverse(s.log), rec.tokenId, skill, lookback).score
  {
    var s := C.Run(C.Init(None, {}), es);
    C.WalkReturnsNewest({}, es, lookback, None);
    var all, window := C.Reverse(s.log), C.Newest(s.log, lookback);
    assert window == First(all, lookback);
    MatchingFirst(all, rec.tokenId, skill, lookback);
    var part, whole := Matching(window, rec.tokenId, skill), Matching(all, rec.tokenId, skill);
    assert First(part, lookback) == part;
    OkCountGrows(part, First(whole, lookback));
    ScoreIsOkOverLookback(window, rec.tokenId, skill, lookback);
    ScoreIsOkOverLookback(all, rec.tokenId, skill, lookback);
    DivideOrder(OkCount(part), OkCount(First(whole, lookback)), lookback);
  }

  lemma MatchingCons(a: Attestation, atts: seq<Attestation>, target: string, skill: string)
    ensures OkCount(Matching([a] + atts, target, skill)) ==
      OkCount(Matching(atts, target, skill)) + if Matches(a, target, skill) && a.base.payload.ok then 1 else 0
  {
    assert ([a] + atts)[1..] == atts;
    var ms := Matching(atts, target, skill);
    assert ([a] + ms)[1..] == ms && [] + ms == ms;
  }

  /** Counting a chain's successes for a skill from either end. */
  lemma {:induction false} CountBothWays(log: seq<C.Root>, target: string, skill: string, lookback: nat)
    requires |log| <= lookback && skill != ""
    requires forall i :: 0 <= i < |log| ==> log[i].base.payload.calleeINFT == target
    ensures OkCount(Matching(C.Newest(log, lookback), target, skill)) ==
      A.Count(A.SucceededOfSkill(skill), C.Payloads(log))
    decreases |log|
  {
    var f := A.SucceededOfSkill(skill);
    if log == [] {
      assert C.Payloads(log) == [];
    } else {
      var front, last := log[..|log| - 1], log[|log| - 1];
      C.NewestStep(log, lookback);
      CountBothWays(front, target, skill, lookback - 1);
      assert C.Newest(log, lookback)[1..] == C.Newest(front, lookback - 1);
      assert C.Payloads(log) == C.Payloads(front) + [last.base.payload];
      A.CountPushed(f, C.Payloads(front), last.base.payload);
      MatchingCons(last, C.Newest(front, lookback - 1), target, skill);
      assert last.base.payload.calleeINFT == target;
    }
  }

  /**
   * The public score agrees with the agent's private statistics: with no request between commit and count, and a
   * chain that fits the window, the score is the skill's successful calls over the lookback.
   */
  lemma ScoreAgreesWithStats(
      seat: nat, ens: string, rec: Records, me: string, es: seq<A.Event>, skill: string, lookback: nat)
    requires lookback >= 1 && skill != ""
    requires rec.Records? && rec.card.Some? && skill in rec.card.value && rec.tokenId == me != ""
    requires A.AtRest(A.Run(me, es)) && rec.repHead == A.Run(me, es).chain.head && rec.repHead.Some?
    requires |A.Run(me, es).chain.log| <= lookback
    ensures var s := A.Run(me, es); var e := EntryFor(seat, ens, rec, s.chain.store, skill, lookback);
      e.Some? && e.value.score.score == A.StatFor(s.totals.skillStats, skill).ok as real / lookback as real
  {
    var s := A.Run(me, es);
    A.ReputationAgreesWithStats(me, es, skill);
    A.EntriesAreMine(me, es);
    assert forall i :: 0 <= i < |s.chain.log| ==> s.chain.log[i].base.payload == C.Payloads(s.chain.log)[i];
    CountBothWays(s.chain.log, me, skill, lookback);
    A.ChainOfRun(me, es);
    DirectoryScore(seat, ens, rec, A.ChainEvents(me, es), skill, lookback);
  }

  // ---- The ranking ----

  datatype Query = Query(minScore: real, limit: int)

  /** Candidates that could be listed, in seed order. */
  function Eligible(cs: seq<Option<Entry>>, minScore: real): seq<Entry> {
    if cs == [] then []
    else
      (if cs[0].Some? && cs[0].value.score.score >= minScore then [cs[0].value] else [])
      + Eligible(cs[1..], minScore)
  }

  /** Stable, descending. */
  function InsertRanked(e: Entry, es: seq<Entry>): seq<Entry> {
    if es == [] || e.score.score >= es[0].score.score then [e] + es else [es[0]] + InsertRanked(e, es[1..])
  }

  function SortRanked(es: seq<Entry>): seq<Entry> {
    if es == [] then [] else InsertRanked(es[0], SortRanked(es[1..]))
  }

  /** How many a `slice(0, limit)` keeps: a negative limit counts from the end. */
  function Kept(n: nat, limit: int): nat {
    if limit < 0 then (if n + limit < 0 then 0 else n + limit) else if limit < n then limit else n
  }

  function RunQuery(cs: seq<Option<Entry>>, q: Query): seq<Entry> {
    var ranked := SortRanked(Eligible(cs, q.minScore));
    ranked[..Kept(|ranked|, q.limit)]
  }

  /** A better score, or the same and an earlier seat. */
  predicate Before(a: Entry, b: Entry) {
    a.score.score > b.score.score || (a.score.score == b.score.score && a.seat < b.seat)
  }

  predicate Ranked(es: seq<Entry>) {
    forall i, j :: 0 <= i < j < |es| ==> Before(es[i], es[j])
  }

  predicate Seated(es: seq<Entry>) {
    forall i, j :: 0 <= i < j < |es| ==> es[i].seat < es[j].seat
  }

  /** Each candidate knows its place in the seed list. */
  predicate InSeedOrder(cs: seq<Option<Entry>>) {
    forall i, j :: 0 <= i < j < |cs| && cs[i].Some? && cs[j].Some? ==> cs[i].value.seat < cs[j].value.seat
  }

  lemma {:induction false} EligibleSeated(cs: seq<Option<Entry>>, minScore: real)
    requires InSeedOrder(cs)
    ensures Seated(Eligible(cs, minScore))
    ensures forall e :: e in Eligible(cs, minScore) <==> Some(e) in cs && e.score.score >= minScore
  {
    if cs != [] {
      var rest := cs[1..];
      EligibleSeated(rest, minScore);
      assert cs == [cs[0]] + rest;
      forall e | e in Eligible(rest, minScore) && cs[0].Some? ensures cs[0].value.seat < e.seat {
        var j :| 0 <= j < |rest| && rest[j] == Some(e);
        assert cs[j + 1] == Some(e);
      }
    }
  }

  lemma {:induction false} InsertKeepsRanked(e: Entry, es: seq<Entry>)
    requires Ranked(es) && forall x :: x in es ==> e.seat < x.seat
    ensures Ranked(InsertRanked(e, es))
    ensures |InsertRanked(e, es)| == |es| + 1
    ensures forall x :: x in InsertRanked(e, es) <==> x == e || x in es
  {
    if es != [] {
      var tail := es[1..];
      assert es == [es[0]] + tail;
      if e.score.score < es[0].score.score {
        InsertKeepsRanked(e, tail);
        var r := InsertRanked(e, es);
        forall j | 1 <= j < |r| ensures Before(r[0], r[j]) {
          assert r[j] in InsertRanked(e, tail);
        }
      } else {
        forall j | 0 <= j < |es| ensures Before(e, es[j]) {
          assert es[j] in es;
          assert j == 0 || Before(es[0], es[j]);
        }
      }
    }
  }

  lemma {:induction false} SortIsRanked(es: seq<Entry>)
    requires Seated(es)
    ensures Ranked(SortRanked(es)) && |SortRanked(es)| == |es|
    ensures forall x :: x in SortRanked(es) <==> x in es
  {
    if es != [] {
      SortIsRanked(es[1..]);
      forall x | x in es[1..] ensures es[0].seat < x.seat {
        var j :| 0 <= j < |es[1..]| && es[1..][j] == x;
        assert es[j + 1] == x;
      }
      InsertKeepsRanked(es[0], SortRanked(es[1..]));
      assert es == [es[0]] + es[1..];
    }
  }

  /** The eligible candidates that come before `e`. */
  function Ahead(es: seq<Entry>, e: Entry): set<Entry> {
    set x | x in es && Before(x, e)
  }

  function Members(es: seq<Entry>): set<Entry> {
    set x | x in es
  }

  lemma MembersPush(es: seq<Entry>, e: Entry)
    requires e !in es
    ensures |Members(es + [e])| == |Members(es)| + 1
  {
    assert Members(es + [e]) == Members(es) + {e};
  }

  lemma LaterIsNew(es: seq<Entry>, k: nat)
    requires Ranked(es) && k < |es|
    ensures es[k] !in es[..k]
  {
    forall i | 0 <= i < k ensures es[i] != es[k] {
      assert Before(es[i], es[k]);
    }
  }

  lemma {:induction false} FirstAreDistinct(es: seq<Entry>, k: nat)
    requires Ranked(es) && k <= |es|
    ensures |Members(es[..k])| == k
  {
    if k == 0 {
      assert Members(es[..0]) == {};
    } else {
      FirstAreDistinct(es, k - 1);
      LaterIsNew(es, k - 1);
      MembersPush(es[..k - 1], es[k - 1]);
      assert es[..k] == es[..k - 1] + [es[k - 1]];
    }
  }

  /** In a ranked list a candidate's position is the number of those before it. */
  lemma PositionIsRank(es: seq<Entry>, k: nat)
    requires Ranked(es) && k < |es|
    ensures |Ahead(es, es[k])| == k
  {
    assert Ahead(es, es[k]) == Members(es[..k]) by {
      forall x | x in es && Before(x, es[k]) ensures x in es[..k] {
        var i :| 0 <= i < |es| && es[i] == x;
        assert i < k;
      }
      forall x | x in es[..k] ensures x in es && Before(x, es[k]) {
        var i :| 0 <= i < k && es[..k][i] == x;
      }
    }
    FirstAreDistinct(es, k);
  }

  /** The first `kept` of a ranked list are those with fewer than `kept` before them. */
  lemma FirstKeptIff(ranked: seq<Entry>, kept: nat, e: Entry)
    requires Ranked(ranked) && kept <= |ranked|
    ensures e in ranked[..kept] <==> e in ranked && |Ahead(ranked, e)| < kept
  {
    if e in ranked {
      var k :| 0 <= k < |ranked| && ranked[k] == e;
      PositionIsRank(ranked, k);
      if k < kept {
        assert ranked[..kept][k] == e;
      } else {
        forall i | 0 <= i < kept ensures ranked[..kept][i] != e {
          assert Before(ranked[i], ranked[k]);
        }
      }
    }
  }

  /** What was not kept comes after all that was. */
  lemma KeptComeFirst(ranked: seq<Entry>, kept: nat, k: nat)
    requires Ranked(ranked) && kept <= k < |ranked|
    ensures forall l :: l in ranked[..kept] ==> Before(l, ranked[k])
  {
    forall i | 0 <= i < kept ensures Before(ranked[..kept][i], ranked[k]) {
      assert Before(ranked[i], ranked[k]);
    }
  }

  /**
   * Exactly who is listed, and in what order: the eligible candidates with fewer than `Kept` eligible ones before
   * them, best first, earlier seeds first among equals. So nobody left out outscores anybody listed.
   */
  lemma ListedIff(cs: seq<Option<Entry>>, q: Query, e: Entry)
    requires InSeedOrder(cs)
    ensures var eligible := Eligible(cs, q.minScore); var listed := RunQuery(cs, q);
      && Ranked(listed)
      && |listed| == Kept(|eligible|, q.limit)
      && (e in listed <==>
            Some(e) in cs && e.score.score >= q.minScore && |Ahead(eligible, e)| < Kept(|eligible|, q.limit))
      && (Some(e) in cs && e.score.score >= q.minScore && e !in listed ==> forall l :: l in listed ==> Before(l, e))
  {
    var eligible := Eligible(cs, q.minScore);
    var ranked := SortRanked(eligible);
    EligibleSeated(cs, q.minScore);
    SortIsRanked(eligible);
    var kept := Kept(|ranked|, q.limit);
    assert Ahead(eligible, e) == Ahead(ranked, e);
    FirstKeptIff(ranked, kept, e);
    if e in ranked && e !in ranked[..kept] {
      var k :| 0 <= k < |ranked| && ranked[k] == e;
      PositionIsRank(ranked, k);
      KeptComeFirst(ranked, kept, k);
    }
  }

  /** How many are listed: as many as asked for and eligible; a negative limit leaves out that many at the end. */
  lemma ListedCount(cs: seq<Option<Entry>>, q: Query)
    ensures var n, listed := |Eligible(cs, q.minScore)|, |RunQuery(cs, q)|;
      && (q.limit >= 0 && q.limit <= n ==> listed == q.limit)
      && (q.limit >= n ==> listed == n)
      && (q.limit < 0 && n >= -q.limit ==> listed == n + q.limit)
      && (q.limit < 0 && n < -q.limit ==> listed == 0)
  {
    SortKeepsLength(Eligible(cs, q.minScore));
  }

  lemma {:induction false} SortKeepsLength(es: seq<Entry>)
    ensures |SortRanked(es)| == |es|
  {
    if es != [] {
      SortKeepsLength(es[1..]);
      InsertKeepsLength(es[0], SortRanked(es[1..]));
    }
  }

  lemma {:induction false} InsertKeepsLength(e: Entry, es: seq<Entry>)
    ensures |InsertRanked(e, es)| == |es| + 1
  {
    if es != [] {
      InsertKeepsLength(e, es[1..]);
    }
  }

  // ---- What a score is about ----

  lemma {:induction false} OthersDoNotMatch(
      xs: seq<Attestation>, a: Attestation, ys: seq<Attestation>, target: string, skill: string)
    requires a.base.payload.calleeINFT != target || (skill != "" && a.base.payload.skill != skill)
    ensures Matching(xs + [a] + ys, target, skill) == Matching(xs + ys, target, skill)
  {
    if xs == [] {
      assert xs + [a] + ys == [a] + ys && xs + ys == ys && ([a] + ys)[1..] == ys;
    } else {
      assert (xs + [a] + ys)[1..] == xs[1..] + [a] + ys && (xs + ys)[1..] == xs[1..] + ys;
      OthersDoNotMatch(xs[1..], a, ys, target, skill);
    }
  }

  /** An attestation about another callee, or about another skill than the one asked for, changes no score. */
  lemma OthersDoNotScore(
      xs: seq<Attestation>, a: Attestation, ys: seq<Attestation>, target: string, skill: string, lookback: nat)
    requires lookback >= 1
    requires a.base.payload.calleeINFT != target || (skill != "" && a.base.payload.skill != skill)
    ensures ScoreFor(xs + [a] + ys, target, skill, lookback) == ScoreFor(xs + ys, target, skill, lookback)
  {
    OthersDoNotMatch(xs, a, ys, target, skill);
  }

  /** Nor does one about another callee change the plain ratio. */
  lemma OthersDoNotScorePlainly(xs: seq<Attestation>, a: Attestation, ys: seq<Attestation>, target: string)
    requires a.base.payload.calleeINFT != target
    ensures PlainScore(xs + [a] + ys, target) == PlainScore(xs + ys, target)
  {
    OthersDoNotMatch(xs, a, ys, target, "");
  }

  /** And one about the callee and the skill asked for counts, in the window and by its outcome. */
  lemma OwnDoScore(a: Attestation, target: string, skill: string, lookback: nat)
    requires lookback >= 1
    requires a.base.payload.calleeINFT == target && (skill == "" || a.base.payload.skill == skill)
    ensures var s := ScoreFor([a], target, skill, lookback);
      s.n == 1 && s.ok == if a.base.payload.ok then 1 else 0
  {
    assert [a][1..] == [] && [a] + [] == [a];
  }

  /** Who is a candidate, and who scores nothing: no card for the skill, no chain, no token, or a chain with a gap. */
  lemma CandidateIff(
      seat: nat, ens: string, rec: Records, store: set<C.Root>, skill: string, lookback: nat)
    requires lookback >= 1
    ensures var e := EntryFor(seat, ens, rec, store, skill, lookback);
      && (e.Some? <==> rec.Records? && rec.card.Some? && skill in rec.card.value)
      && (e.Some? ==> e.value.seat == seat && e.value.ens == ens && e.value.tokenId == rec.tokenId
                      && e.value.repHead == rec.repHead)
      && (e.Some? && (rec.repHead.None? || rec.tokenId == ""
                      || C.WalkFrom(store, rec.repHead, lookback, None).NotFound?)
          ==> e.value.score == Score(0, 0, 0.0, 0.0))
  {
  }
}
