/** Wallet challenges: the message a wallet signs, and the single-use nonce rows behind it. */
module AuthNonce {
  import opened Wrappers
  import opened CodeUnits

  // Any number of verifications run at once; each takes its row in one atomic update, may await the signature check,
  // and puts the row back if the signature is bad. Addresses are taken to be in lower case, and nonces to be fresh.

  const NONCE_TTL_MS := 60_000
  const NONCE_LENGTH := 32
  const ADDRESS_LENGTH := 42

  const OPENING: Text := Ascii("agentdir authorization\naction: ")
  const OWNER_LABEL: Text := Ascii("\nowner: ")
  const ENS_LABEL: Text := Ascii("\nens: ")
  const NONCE_LABEL: Text := Ascii("\nnonce: ")
  const CLOSING: Text := Ascii("\nexpires: 60s")

  const MINT: Text := Ascii("mint")
  const SNAPSHOT: Text := Ascii("snapshot")
  const TRANSFER: Text := Ascii("transfer")
  const SKILL_EDIT: Text := Ascii("skill-edit")

  predicate IsAction(t: Text) {
    t == MINT || t == SNAPSHOT || t == TRANSFER || t == SKILL_EDIT
  }

  predicate LowerHex(u: Unit) {
    0x30 <= u <= 0x39 || 0x61 <= u <= 0x66
  }

  predicate IsNonce(t: Text) {
    |t| == NONCE_LENGTH && forall i :: 0 <= i < |t| ==> LowerHex(t[i])
  }

  predicate IsAddress(t: Text) {
    |t| == ADDRESS_LENGTH && t[0] == 0x30 && t[1] == 0x78 && forall i :: 2 <= i < |t| ==> LowerHex(t[i])
  }

  // ---- The message ----

  function Heading(action: Text, owner: Text): Text {
    OPENING + action + OWNER_LABEL + owner + ENS_LABEL
  }

  function BuildMessage(action: Text, owner: Text, ens: Text, nonce: Text): Text {
    Heading(action, owner) + ens + NONCE_LABEL + nonce + CLOSING
  }

  /** A line `nonce: ` with 32 hex digits starts after the line feed at `i`. */
  predicate NonceLineAt(t: Text, i: int) {
    && 0 <= i && i + 41 <= |t|
    && t[i..i + 8] == NONCE_LABEL
    && (forall k :: i + 8 <= k < i + 40 ==> LowerHex(t[k]))
    && t[i + 40] == LF
  }

  /** Where the first such line is, from position `i` on, or -1. */
  function FirstNonceLine(t: Text, i: nat): (r: int)
    requires i <= |t|
    ensures r >= 0 ==> i <= r && NonceLineAt(t, r) && forall j :: i <= j < r ==> !NonceLineAt(t, j)
    ensures r < 0 ==> r == -1 && forall j :: i <= j ==> !NonceLineAt(t, j)
    decreases |t| - i
  {
    if NonceLineAt(t, i) then i
    else if i == |t| then -1
    else FirstNonceLine(t, i + 1)
  }

  /** A nonce line is the label, a nonce and a line feed. */
  lemma NonceLineIff(t: Text, i: int)
    ensures NonceLineAt(t, i) <==>
      && 0 <= i && i + 41 <= |t| && IsNonce(t[i + 8..i + 40])
      && t == t[..i] + NONCE_LABEL + t[i + 8..i + 40] + [LF] + t[i + 41..]
  {
    if 0 <= i && i + 41 <= |t| {
      var nonce := t[i + 8..i + 40];
      var whole := t[..i] + NONCE_LABEL + nonce + [LF] + t[i + 41..];
      NonceLabelUnits();
      assert forall k :: i + 8 <= k < i + 40 ==> t[k] == nonce[k - i - 8];
      assert whole[i..i + 8] == NONCE_LABEL && whole[i + 40] == LF;
      if NonceLineAt(t, i) {
        assert t == t[..i] + t[i..i + 8] + nonce + [t[i + 40]] + t[i + 41..];
      }
    }
  }

  function ExtractNonce(t: Text): Option<Text> {
    var i := FirstNonceLine(t, 0);
    if i < 0 then None else Some(t[i + 8..i + 40])
  }

  lemma FirstNonceLineIs(t: Text, i: nat)
    requires NonceLineAt(t, i) && forall j :: 0 <= j < i ==> !NonceLineAt(t, j)
    ensures ExtractNonce(t) == Some(t[i + 8..i + 40])
  {
    assert !(0 <= FirstNonceLine(t, 0) < i);
  }

  lemma NonceLabelUnits()
    ensures |NONCE_LABEL| == 8 && NONCE_LABEL[0] == LF && NONCE_LABEL[1] == 0x6E
    ensures forall k :: 1 <= k < 8 ==> NONCE_LABEL[k] != LF
  {
  }

  /** A nonce line has line feeds at both ends and nowhere else, and `n` after the first. */
  lemma NonceLineShape(t: Text, i: nat)
    requires NonceLineAt(t, i)
    ensures t[i] == LF && t[i + 1] == 0x6E
    ensures forall k :: i < k < i + 40 ==> t[k] != LF
  {
    NonceLabelUnits();
    assert forall k :: i <= k < i + 8 ==> t[k] == NONCE_LABEL[k - i];
  }

  predicate LineFree(t: Text) {
    forall i :: 0 <= i < |t| ==> t[i] != LF
  }

  lemma ActionShape(t: Text)
    requires IsAction(t)
    ensures LineFree(t) && |t| >= 2
  {
  }

  /** No nonce line starts in the heading. */
  lemma HeadingHasNone(action: Text, owner: Text, rest: Text, i: nat)
    requires IsAction(action) && IsAddress(owner)
    requires i < |Heading(action, owner)|
    ensures !NonceLineAt(Heading(action, owner) + rest, i)
  {
    var h := Heading(action, owner);
    var t := h + rest;
    ActionShape(action);
    assert t[i] == h[i];
    if h[i] == LF {
      HeadingFeeds(action, owner, i);
      assert t[i + 1] == h[i + 1];
    }
    if NonceLineAt(t, i) {
      NonceLineShape(t, i);
    }
  }

  /** Where the labels have their line feeds, and what comes after. */
  lemma LabelFeeds()
    ensures forall k :: 0 <= k < |OPENING| && OPENING[k] == LF ==> k == 22
    ensures |OPENING| > 23 && OPENING[23] == 0x61
    ensures forall k :: 0 <= k < |OWNER_LABEL| && OWNER_LABEL[k] == LF ==> k == 0
    ensures |OWNER_LABEL| > 1 && OWNER_LABEL[1] == 0x6F
    ensures forall k :: 0 <= k < |ENS_LABEL| && ENS_LABEL[k] == LF ==> k == 0
    ensures |ENS_LABEL| > 1 && ENS_LABEL[1] == 0x65
  {
  }

  /** Each line feed in the heading is followed by one of the other labels. */
  lemma HeadingFeeds(action: Text, owner: Text, i: nat)
    requires LineFree(action) && IsAddress(owner)
    requires i < |Heading(action, owner)| && Heading(action, owner)[i] == LF
    ensures i + 1 < |Heading(action, owner)| && Heading(action, owner)[i + 1] != 0x6E
  {
    var h := Heading(action, owner);
    var a := |OPENING|;
    var b := a + |action|;
    var c := b + |OWNER_LABEL|;
    var d := c + |owner|;
    assert forall k :: 0 <= k < a ==> h[k] == OPENING[k];
    assert forall k :: a <= k < b ==> h[k] == action[k - a];
    assert forall k :: b <= k < c ==> h[k] == OWNER_LABEL[k - b];
    assert forall k :: c <= k < d ==> h[k] == owner[k - c];
    assert forall k :: d <= k < |h| ==> h[k] == ENS_LABEL[k - d];
    LabelFeeds();
    if i < a {
      assert i == 22;
    } else if b <= i < c {
      assert i == b;
    } else if d <= i {
      assert i == d;
    }
  }

  /** Behind the heading, a nonce line before the real one lies within the name and the line feed after it. */
  lemma NonceLinesInName(h: Text, ens: Text, tail: Text, i: nat)
    requires tail != [] && tail[0] == LF && i < |ens|
    ensures NonceLineAt(h + ens + tail, |h| + i) <==> NonceLineAt(ens + [LF], i)
  {
    var t, u := h + ens + tail, ens + [LF];
    assert forall k :: 0 <= k <= |ens| ==> t[|h| + k] == u[k];
    assert forall k :: |h| <= k <= |h| + |ens| ==> t[k] == u[k - |h|];
    if NonceLineAt(t, |h| + i) {
      NonceLineShape(t, |h| + i);
      assert t[|h| + |ens|] == LF;
      assert i + 40 <= |ens|;
      assert t[|h| + i..|h| + i + 8] == u[i..i + 8];
    }
    if NonceLineAt(u, i) {
      assert t[|h| + i..|h| + i + 8] == u[i..i + 8];
    }
  }

  lemma OwnNonceLine(h: Text, ens: Text, nonce: Text)
    requires IsNonce(nonce)
    ensures var t := h + ens + NONCE_LABEL + nonce + CLOSING; var i := |h| + |ens|;
      NonceLineAt(t, i) && t[i + 8..i + 40] == nonce
  {
    var t := h + ens + NONCE_LABEL + nonce + CLOSING;
    var i := |h| + |ens|;
    NonceLabelUnits();
    assert CLOSING[0] == LF && |CLOSING| > 0;
    assert t[i..i + 8] == NONCE_LABEL;
    assert t[i + 8..i + 40] == nonce;
    assert forall k :: i + 8 <= k < i + 40 ==> t[k] == nonce[k - i - 8];
    assert t[i + 40] == CLOSING[0];
  }

  lemma SameNonceText(h: Text, ens: Text, tail: Text, p: nat)
    requires tail != [] && tail[0] == LF && NonceLineAt(ens + [LF], p)
    ensures NonceLineAt(h + ens + tail, |h| + p)
    ensures (h + ens + tail)[|h| + p + 8..|h| + p + 40] == (ens + [LF])[p + 8..p + 40]
  {
    NonceLinesInName(h, ens, tail, p);
  }

  lemma NoneBeforeName(h: Text, ens: Text, tail: Text, p: nat)
    requires forall i :: 0 <= i < |h| ==> !NonceLineAt(h + ens + tail, i)
    requires tail != [] && tail[0] == LF && p <= |ens|
    requires forall i :: 0 <= i < p ==> !NonceLineAt(ens + [LF], i)
    ensures forall i :: 0 <= i < |h| + p ==> !NonceLineAt(h + ens + tail, i)
  {
    forall i | |h| <= i < |h| + p ensures !NonceLineAt(h + ens + tail, i) {
      NonceLinesInName(h, ens, tail, i - |h|);
    }
  }

  /** Behind a heading without nonce lines, the first is in the name if there is one there, else the one after it. */
  lemma ExtractBehind(h: Text, ens: Text, tail: Text, nonce: Text)
    requires forall i :: 0 <= i < |h| ==> !NonceLineAt(h + ens + tail, i)
    requires tail != [] && tail[0] == LF
    requires NonceLineAt(h + ens + tail, |h| + |ens|) && (h + ens + tail)[|h| + |ens| + 8..|h| + |ens| + 40] == nonce
    ensures ExtractNonce(h + ens + tail) ==
      if ExtractNonce(ens + [LF]).Some? then ExtractNonce(ens + [LF]) else Some(nonce)
  {
    var p := FirstNonceLine(ens + [LF], 0);
    if p >= 0 {
      NoneBeforeName(h, ens, tail, p);
      SameNonceText(h, ens, tail, p);
      FirstNonceLineIs(h + ens + tail, |h| + p);
    } else {
      NoneBeforeName(h, ens, tail, |ens|);
      FirstNonceLineIs(h + ens + tail, |h| + |ens|);
    }
  }

  lemma TailOf(h: Text, ens: Text, nonce: Text)
    ensures h + ens + NONCE_LABEL + nonce + CLOSING == h + ens + (NONCE_LABEL + nonce + CLOSING)
    ensures (NONCE_LABEL + nonce + CLOSING)[0] == LF
    ensures h + ens + (NONCE_LABEL + nonce + CLOSING) == h + (ens + (NONCE_LABEL + nonce + CLOSING))
  {
    NonceLabelUnits();
  }

  /** Exactly which nonce a built message is looked up under: its own, unless the name itself holds a nonce line. */
  lemma ExtractBuilt(action: Text, owner: Text, ens: Text, nonce: Text)
    requires IsAction(action) && IsAddress(owner) && IsNonce(nonce)
    ensures ExtractNonce(BuildMessage(action, owner, ens, nonce)) ==
      if ExtractNonce(ens + [LF]).Some? then ExtractNonce(ens + [LF]) else Some(nonce)
  {
    var h := Heading(action, owner);
    var tail := NONCE_LABEL + nonce + CLOSING;
    TailOf(h, ens, nonce);
    forall i | 0 <= i < |h| ensures !NonceLineAt(h + ens + tail, i) {
      HeadingHasNone(action, owner, ens + tail, i);
    }
    OwnNonceLine(h, ens, nonce);
    ExtractBehind(h, ens, tail, nonce);
  }

  lemma ActionsDiffer(a: Text, b: Text)
    requires IsAction(a) && IsAction(b) && a != b
    ensures a[..2] != b[..2]
  {
    var m, s, t, k := MINT, SNAPSHOT, TRANSFER, SKILL_EDIT;
    assert m[0] == 0x6D && s[0] == 0x73 && t[0] == 0x74 && k[0] == 0x73 && s[1] == 0x6E && k[1] == 0x6B;
    assert a[..2][0] == a[0] && a[..2][1] == a[1] && b[..2][0] == b[0] && b[..2][1] == b[1];
  }

  lemma SameTail(x: Text, n: Text, x': Text, n': Text)
    requires |n| == |n'| && x + NONCE_LABEL + n + CLOSING == x' + NONCE_LABEL + n' + CLOSING
    ensures x == x' && n == n'
  {
    var t, t' := x + NONCE_LABEL + n + CLOSING, x' + NONCE_LABEL + n' + CLOSING;
    assert |x| == |x'|;
    assert t[..|x|] == x && t'[..|x|] == x';
    var at := |x| + |NONCE_LABEL|;
    assert t[at..at + |n|] == n && t'[at..at + |n|] == n';
  }

  lemma SameAction(a: Text, rest: Text, a': Text, rest': Text)
    requires IsAction(a) && IsAction(a') && OPENING + a + rest == OPENING + a' + rest'
    ensures a == a' && rest == rest'
  {
    ActionShape(a);
    ActionShape(a');
    ActionAt(OPENING, a, rest);
    ActionAt(OPENING, a', rest');
    if a != a' {
      ActionsDiffer(a, a');
    }
  }

  lemma ActionAt(opening: Text, a: Text, rest: Text)
    requires |a| >= 2
    ensures (opening + a + rest)[|opening|..|opening| + 2] == a[..2]
    ensures (opening + a + rest)[|opening| + |a|..] == rest
  {
  }

  lemma SameOwner(o: Text, e: Text, o': Text, e': Text)
    requires |o| == |o'| && OWNER_LABEL + o + ENS_LABEL + e == OWNER_LABEL + o' + ENS_LABEL + e'
    ensures o == o' && e == e'
  {
    var t, t' := OWNER_LABEL + o + ENS_LABEL + e, OWNER_LABEL + o' + ENS_LABEL + e';
    var at := |OWNER_LABEL|;
    assert t[at..at + |o|] == o && t'[at..at + |o|] == o';
    var from := at + |o| + |ENS_LABEL|;
    assert t[from..] == e && t'[from..] == e';
  }

  lemma SplitHeading(a: Text, o: Text, e: Text)
    ensures Heading(a, o) + e == OPENING + a + (OWNER_LABEL + o + ENS_LABEL + e)
  {
  }

  /** A signed message fits one action, owner, name and nonce only, whatever is in the name. */
  lemma MessageBindsChallenge(a: Text, o: Text, e: Text, n: Text, a': Text, o': Text, e': Text, n': Text)
    requires IsAction(a) && IsAddress(o) && IsNonce(n) && IsAction(a') && IsAddress(o') && IsNonce(n')
    ensures BuildMessage(a, o, e, n) == BuildMessage(a', o', e', n') <==> a == a' && o == o' && e == e' && n == n'
  {
    if BuildMessage(a, o, e, n) == BuildMessage(a', o', e', n') {
      SameTail(Heading(a, o) + e, n, Heading(a', o') + e', n');
      SplitHeading(a, o, e);
      SplitHeading(a', o', e');
      SameAction(a, OWNER_LABEL + o + ENS_LABEL + e, a', OWNER_LABEL + o' + ENS_LABEL + e');
      SameOwner(o, e, o', e');
    }
  }

  // ---- The rows and the verifications in flight ----

  datatype Row = Row(owner: Text, ens: Text, message: Text, expiresAt: int, consumed: bool)

  /** A signature verifies only for the address and message it was made with. */
  datatype Sig = Sig(address: Text, message: Text)

  datatype Input = Input(owner: Text, ens: Text, message: Text, sig: Sig)

  /** A verification that has taken the row of `nonce` at time `now`. */
  datatype Attempt = Attempt(input: Input, nonce: Text, now: int)

  /** How a taken row was settled for good. A burn: wrong message, or the process or its last update failed. */
  datatype Entry = Success(a: Attempt) | Burn(a: Attempt)

  datatype State = State(
    rows: map<Text, Row>,
    inFlight: map<nat, Attempt>,
    started: set<nat>,
    log: seq<Entry>,
    issued: map<Text, Row>)

  datatype Event =
    | Issue(action: Text, owner: Text, ens: Text, nonce: Text, now: int)
    | Start(v: nat, input: Input, now: int)
    | Settle(v: nat, threw: bool)
    | Lose(v: nat)
    | Expire(nonce: Text, now: int)

  const EMPTY: State := State(map[], map[], {}, [], map[])

  /** The filter of the atomic update. */
  predicate Takable(rows: map<Text, Row>, nonce: Text, input: Input, now: int) {
    && nonce in rows
    && rows[nonce].owner == input.owner
    && rows[nonce].ens == input.ens
    && !rows[nonce].consumed
    && rows[nonce].expiresAt > now
  }

  function Mark(rows: map<Text, Row>, nonce: Text, consumed: bool): map<Text, Row> {
    if nonce in rows then rows[nonce := rows[nonce].(consumed := consumed)] else rows
  }

  predicate Valid(a: Attempt, threw: bool) {
    !threw && a.input.sig == Sig(a.input.owner, a.input.message)
  }

  function Begin(s: State, v: nat, input: Input, now: int): State {
    var nonce := ExtractNonce(input.message);
    if !IsAddress(input.owner) || nonce.None? || !Takable(s.rows, nonce.value, input, now) then s
    else
      var a := Attempt(input, nonce.value, now);
      var taken := s.(rows := Mark(s.rows, a.nonce, true));
      if s.rows[a.nonce].message != input.message then taken.(log := s.log + [Burn(a)])
      else taken.(inFlight := s.inFlight[v := a])
  }

  function Step(s: State, e: Event): State {
    match e
    case Issue(action, owner, ens, nonce, now) =>
      if !IsAddress(owner) || !IsAction(action) || !IsNonce(nonce) || nonce in s.issued then s
      else
        var row := Row(owner, ens, BuildMessage(action, owner, ens, nonce), now + NONCE_TTL_MS, false);
        s.(rows := s.rows[nonce := row], issued := s.issued[nonce := row])
    case Start(v, input, now) =>
      if v in s.started then s else Begin(s.(started := s.started + {v}), v, input, now)
    case Settle(v, threw) =>
      if v !in s.inFlight then s
      else
        var a := s.inFlight[v];
        var left := s.(inFlight := s.inFlight - {v});
        if Valid(a, threw) then left.(log := s.log + [Success(a)])
        else left.(rows := Mark(s.rows, a.nonce, false))
    case Lose(v) =>
      if v !in s.inFlight then s
      else s.(inFlight := s.inFlight - {v}, log := s.log + [Burn(s.inFlight[v])])
    case Expire(nonce, now) =>
      if nonce in s.rows && s.rows[nonce].expiresAt <= now then s.(rows := s.rows - {nonce}) else s
  }

  function Run(s: State, es: seq<Event>): State {
    if es == [] then s else Step(Run(s, es[..|es| - 1]), es[|es| - 1])
  }

  // ---- The invariant ----

  function Holders(s: State, nonce: Text): set<nat> {
    set v | v in s.inFlight && s.inFlight[v].nonce == nonce
  }

  function Settled(log: seq<Entry>, nonce: Text): nat {
    if log == [] then 0
    else Settled(log[..|log| - 1], nonce) + if log[|log| - 1].a.nonce == nonce then 1 else 0
  }

  function Successes(log: seq<Entry>, nonce: Text): nat {
    if log == [] then 0
    else
      Successes(log[..|log| - 1], nonce)
      + if log[|log| - 1].Success? && log[|log| - 1].a.nonce == nonce then 1 else 0
  }

  /** In-flight holders, finished successes and burns of a nonce, together. */
  function Tokens(s: State, nonce: Text): nat {
    |Holders(s, nonce)| + Settled(s.log, nonce)
  }

  /** The attempt is for the challenge that was issued under its nonce. */
  predicate Matches(issued: map<Text, Row>, a: Attempt) {
    && a.nonce in issued
    && a.input.owner == issued[a.nonce].owner
    && a.input.ens == issued[a.nonce].ens
    && a.input.message == issued[a.nonce].message
    && a.now < issued[a.nonce].expiresAt
  }

  predicate Genuine(issued: map<Text, Row>, e: Entry) {
    e.Success? ==> Matches(issued, e.a) && e.a.input.sig == Sig(e.a.input.owner, e.a.input.message)
  }

  /** What the counts of a nonce may be. */
  predicate Accounted(s: State, nonce: Text) {
    && Tokens(s, nonce) <= 1
    && (nonce !in s.issued ==> Tokens(s, nonce) == 0)
    && (nonce in s.rows ==> (s.rows[nonce].consumed <==> Tokens(s, nonce) == 1))
  }

  predicate RowsIssued(s: State) {
    forall n :: n in s.rows ==> n in s.issued && s.rows[n].(consumed := false) == s.issued[n]
  }

  ghost predicate Inv(s: State) {
    && s.inFlight.Keys <= s.started
    && RowsIssued(s)
    && (forall v :: v in s.inFlight ==> Matches(s.issued, s.inFlight[v]))
    && (forall i :: 0 <= i < |s.log| ==> Genuine(s.issued, s.log[i]))
    && (forall n :: Accounted(s, n))
  }

  lemma SettledPush(log: seq<Entry>, e: Entry, nonce: Text)
    ensures Settled(log + [e], nonce) == Settled(log, nonce) + if e.a.nonce == nonce then 1 else 0
  {
    assert (log + [e])[..|log|] == log;
  }

  lemma HoldersJoin(s: State, v: nat, a: Attempt, nonce: Text)
    requires v !in s.inFlight
    ensures |Holders(s.(inFlight := s.inFlight[v := a]), nonce)| ==
      |Holders(s, nonce)| + if a.nonce == nonce then 1 else 0
  {
    var joined := s.(inFlight := s.inFlight[v := a]);
    if a.nonce == nonce {
      assert Holders(joined, nonce) == Holders(s, nonce) + {v};
    } else {
      assert Holders(joined, nonce) == Holders(s, nonce);
    }
  }

  lemma HoldersLeave(s: State, v: nat, nonce: Text)
    requires v in s.inFlight
    ensures |Holders(s, nonce)| ==
      |Holders(s.(inFlight := s.inFlight - {v}), nonce)| + if s.inFlight[v].nonce == nonce then 1 else 0
  {
    var left := s.(inFlight := s.inFlight - {v});
    if s.inFlight[v].nonce == nonce {
      assert Holders(s, nonce) == Holders(left, nonce) + {v};
    } else {
      assert Holders(s, nonce) == Holders(left, nonce);
    }
  }

  lemma IssueKeepsInv(s: State, e: Event)
    requires Inv(s) && e.Issue?
    ensures Inv(Step(s, e))
  {
    var t := Step(s, e);
    forall n ensures Accounted(t, n) {
      assert Accounted(s, n) && Holders(t, n) == Holders(s, n);
    }
  }

  lemma TakenIsAccounted(s: State, v: nat, a: Attempt, n: Text)
    requires Accounted(s, n) && v !in s.inFlight
    requires a.nonce in s.rows && a.nonce in s.issued && !s.rows[a.nonce].consumed
    ensures Accounted(s.(rows := Mark(s.rows, a.nonce, true), inFlight := s.inFlight[v := a]), n)
  {
    var t := s.(rows := Mark(s.rows, a.nonce, true), inFlight := s.inFlight[v := a]);
    HoldersJoin(s, v, a, n);
    assert Holders(t, n) == Holders(s.(inFlight := s.inFlight[v := a]), n);
  }

  lemma BurntIsAccounted(s: State, a: Attempt, n: Text)
    requires Accounted(s, n)
    requires a.nonce in s.rows && a.nonce in s.issued && !s.rows[a.nonce].consumed
    ensures Accounted(s.(rows := Mark(s.rows, a.nonce, true), log := s.log + [Burn(a)]), n)
  {
    var t := s.(rows := Mark(s.rows, a.nonce, true), log := s.log + [Burn(a)]);
    SettledPush(s.log, Burn(a), n);
    assert Holders(t, n) == Holders(s, n);
  }

  lemma BeginKeepsInv(s: State, v: nat, input: Input, now: int)
    requires Inv(s) && v !in s.inFlight && v in s.started
    ensures Inv(Begin(s, v, input, now))
  {
    var nonce := ExtractNonce(input.message);
    if IsAddress(input.owner) && nonce.Some? && Takable(s.rows, nonce.value, input, now) {
      var a := Attempt(input, nonce.value, now);
      forall n ensures Accounted(Begin(s, v, input, now), n) {
        assert Accounted(s, n);
        TakenIsAccounted(s, v, a, n);
        BurntIsAccounted(s, a, n);
      }
    }
  }

  lemma StartKeepsInv(s: State, v: nat, input: Input, now: int)
    requires Inv(s)
    ensures Inv(Step(s, Start(v, input, now)))
  {
    if v !in s.started {
      var s1 := s.(started := s.started + {v});
      forall n ensures Accounted(s1, n) {
        assert Accounted(s, n) && Holders(s1, n) == Holders(s, n);
      }
      BeginKeepsInv(s1, v, input, now);
    }
  }

  function Without(s: State, v: nat): State {
    s.(inFlight := s.inFlight - {v})
  }

  /** A holder that settles for good hands its token to the log. */
  lemma SettledIsAccounted(s: State, v: nat, entry: Entry, n: Text)
    requires v in s.inFlight && entry.a == s.inFlight[v] && Accounted(s, n)
    ensures Accounted(Without(s, v).(log := s.log + [entry]), n)
  {
    var t := Without(s, v).(log := s.log + [entry]);
    HoldersLeave(s, v, n);
    assert Holders(t, n) == Holders(Without(s, v), n);
    SettledPush(s.log, entry, n);
  }

  /** A holder that rolls back takes its token and the mark away. */
  lemma RolledBackIsAccounted(s: State, v: nat, n: Text)
    requires v in s.inFlight && Accounted(s, n)
    ensures Accounted(Without(s, v).(rows := Mark(s.rows, s.inFlight[v].nonce, false)), n)
  {
    var t := Without(s, v).(rows := Mark(s.rows, s.inFlight[v].nonce, false));
    HoldersLeave(s, v, n);
    assert Holders(t, n) == Holders(Without(s, v), n);
  }

  lemma EndIsAccounted(s: State, e: Event, n: Text)
    requires (e.Settle? || e.Lose?) && e.v in s.inFlight && Accounted(s, n)
    ensures Accounted(Step(s, e), n)
  {
    var a := s.inFlight[e.v];
    if e.Lose? {
      SettledIsAccounted(s, e.v, Burn(a), n);
    } else if Valid(a, e.threw) {
      SettledIsAccounted(s, e.v, Success(a), n);
    } else {
      RolledBackIsAccounted(s, e.v, n);
    }
  }

  lemma EndKeepsInv(s: State, e: Event)
    requires Inv(s) && (e.Settle? || e.Lose?) && e.v in s.inFlight
    ensures Inv(Step(s, e))
  {
    assert Matches(s.issued, s.inFlight[e.v]);
    forall n ensures Accounted(Step(s, e), n) {
      assert Accounted(s, n);
      EndIsAccounted(s, e, n);
    }
  }

  lemma StepKeepsInv(s: State, e: Event)
    requires Inv(s)
    ensures Inv(Step(s, e))
  {
    match e
    case Issue(_, _, _, _, _) => IssueKeepsInv(s, e);
    case Start(v, input, now) => StartKeepsInv(s, v, input, now);
    case Settle(v, _) => if v in s.inFlight { EndKeepsInv(s, e); }
    case Lose(v) => if v in s.inFlight { EndKeepsInv(s, e); }
    case Expire(_, _) =>
      forall n ensures Accounted(Step(s, e), n) {
        assert Accounted(s, n) && Holders(Step(s, e), n) == Holders(s, n);
      }
  }

  lemma {:induction false} RunKeepsInv(s: State, es: seq<Event>)
    requires Inv(s)
    ensures Inv(Run(s, es))
  {
    if es != [] {
      RunKeepsInv(s, es[..|es| - 1]);
      StepKeepsInv(Run(s, es[..|es| - 1]), es[|es| - 1]);
    }
  }

  /** The row is the one `issueChallenge` writes for its nonce. */
  ghost predicate Built(nonce: Text, row: Row) {
    IsNonce(nonce) && IsAddress(row.owner)
    && exists action :: IsAction(action) && row.message == BuildMessage(action, row.owner, row.ens, nonce)
  }

  ghost predicate AllBuilt(issued: map<Text, Row>) {
    forall n :: n in issued ==> Built(n, issued[n])
  }

  lemma {:induction false} RunKeepsBuilt(s: State, es: seq<Event>)
    requires AllBuilt(s.issued)
    ensures AllBuilt(Run(s, es).issued)
  {
    if es != [] {
      RunKeepsBuilt(s, es[..|es| - 1]);
      var t, e := Run(s, es[..|es| - 1]), es[|es| - 1];
      if e.Issue? && Step(t, e).issued != t.issued {
        assert Built(e.nonce, Step(t, e).issued[e.nonce]);
      }
    }
  }

  lemma {:induction false} SuccessesAreSettled(log: seq<Entry>, nonce: Text)
    ensures Successes(log, nonce) <= Settled(log, nonce)
  {
    if log != [] {
      SuccessesAreSettled(log[..|log| - 1], nonce);
    }
  }

  lemma EmptyInv()
    ensures Inv(EMPTY)
  {
    forall n ensures Accounted(EMPTY, n) {
      assert Holders(EMPTY, n) == {};
    }
  }

  /**
   * Over every interleaving of any number of verifications: a nonce has at most one success, and a row is marked
   * consumed exactly when one holder is in flight, one success is finished, or it was burnt.
   */
  lemma AtMostOneSuccess(es: seq<Event>, nonce: Text)
    ensures var s := Run(EMPTY, es);
      && Successes(s.log, nonce) <= 1
      && (nonce in s.rows ==> (s.rows[nonce].consumed <==> |Holders(s, nonce)| + Settled(s.log, nonce) == 1))
      && (Successes(s.log, nonce) == 1 ==> Holders(s, nonce) == {} && Settled(s.log, nonce) == 1)
  {
    EmptyInv();
    RunKeepsInv(EMPTY, es);
    var s := Run(EMPTY, es);
    assert Accounted(s, nonce);
    SuccessesAreSettled(s.log, nonce);
  }

  /** A success is by the wallet's signature over the very message issued, for its owner and name, before it expired. */
  lemma SuccessIsGenuine(es: seq<Event>, i: nat)
    requires i < |Run(EMPTY, es).log| && Run(EMPTY, es).log[i].Success?
    ensures var s := Run(EMPTY, es); var a := s.log[i].a;
      && a.nonce in s.issued
      && a.input.message == s.issued[a.nonce].message
      && a.input.sig == Sig(s.issued[a.nonce].owner, s.issued[a.nonce].message)
      && a.input.ens == s.issued[a.nonce].ens
      && a.now < s.issued[a.nonce].expiresAt
      && Built(a.nonce, s.issued[a.nonce])
  {
    EmptyInv();
    RunKeepsInv(EMPTY, es);
    RunKeepsBuilt(EMPTY, es);
    assert Genuine(Run(EMPTY, es).issued, Run(EMPTY, es).log[i]);
  }

  /** The `Issue` a row comes from: it drew the nonce, and the row is valid for `NONCE_TTL_MS` from then. */
  ghost predicate IssuedBy(e: Event, nonce: Text, row: Row) {
    && e.Issue? && e.nonce == nonce && IsAction(e.action)
    && row.owner == e.owner && row.ens == e.ens && row.expiresAt == e.now + 60_000
    && row.message == BuildMessage(e.action, e.owner, e.ens, nonce)
  }

  lemma {:induction false} RowsComeFromIssues(es: seq<Event>, nonce: Text) returns (i: nat)
    requires nonce in Run(EMPTY, es).issued
    ensures i < |es| && IssuedBy(es[i], nonce, Run(EMPTY, es).issued[nonce])
  {
    var front, last := es[..|es| - 1], es[|es| - 1];
    if nonce in Run(EMPTY, front).issued {
      i := RowsComeFromIssues(front, nonce);
    } else {
      i := |es| - 1;
    }
  }

  /**
   * Each success answers a challenge that was issued: the message is the one built for its action, owner, name and
   * nonce, and the verification began less than a minute after it was issued.
   */
  lemma SuccessAnswersAnIssue(es: seq<Event>, k: nat) returns (i: nat)
    requires k < |Run(EMPTY, es).log| && Run(EMPTY, es).log[k].Success?
    ensures var a := Run(EMPTY, es).log[k].a;
      && i < |es| && es[i].Issue? && es[i].nonce == a.nonce && IsAction(es[i].action)
      && a.now < es[i].now + 60_000
      && a.input.owner == es[i].owner && a.input.ens == es[i].ens
      && a.input.message == BuildMessage(es[i].action, es[i].owner, es[i].ens, a.nonce)
      && a.input.sig == Sig(es[i].owner, a.input.message)
  {
    EmptyInv();
    RunKeepsInv(EMPTY, es);
    assert Genuine(Run(EMPTY, es).issued, Run(EMPTY, es).log[k]);
    i := RowsComeFromIssues(es, Run(EMPTY, es).log[k].a.nonce);
  }

  /** A row that has not expired is there: nothing deletes it before its time, and nothing changes what it says. */
  lemma {:induction false} RowsStayUntilExpired(s: State, es: seq<Event>, nonce: Text)
    requires Inv(s) && nonce in s.rows
    requires forall e :: e in es && e.Expire? ==> e.now < s.rows[nonce].expiresAt
    ensures Inv(Run(s, es)) && nonce in Run(s, es).rows
    ensures Run(s, es).rows[nonce].(consumed := false) == s.rows[nonce].(consumed := false)
  {
    if es != [] {
      var front, last := es[..|es| - 1], es[|es| - 1];
      assert last in es && forall e :: e in front ==> e in es;
      RowsStayUntilExpired(s, front, nonce);
      StepKeepsInv(Run(s, front), last);
      RowSurvives(Run(s, front), last, nonce);
    }
  }

  lemma RowSurvives(s: State, e: Event, nonce: Text)
    requires Inv(s) && nonce in s.rows && (e.Expire? ==> e.now < s.rows[nonce].expiresAt)
    ensures nonce in Step(s, e).rows
    ensures Step(s, e).rows[nonce].(consumed := false) == s.rows[nonce].(consumed := false)
  {
    assert nonce in s.issued;
  }

  // ---- Rolling back ----

  predicate Ends(e: Event, v: nat) {
    (e.Settle? || e.Lose?) && e.v == v
  }

  /** The holder of a row is the only one. */
  lemma OnlyHolder(s: State, v: nat, w: nat)
    requires Inv(s) && v in s.inFlight && w in s.inFlight && s.inFlight[w].nonce == s.inFlight[v].nonce
    ensures v == w
  {
    var n := s.inFlight[v].nonce;
    assert Accounted(s, n) && v in Holders(s, n);
    HoldersLeave(s, v, n);
    var others := Holders(s.(inFlight := s.inFlight - {v}), n);
    assert |others| == 0;
    assert w !in others;
  }

  /** And while it is held, the row is marked as consumed, if it has not expired. */
  lemma HeldIsConsumed(s: State, v: nat)
    requires Inv(s) && v in s.inFlight
    ensures s.inFlight[v].nonce in s.issued
    ensures s.inFlight[v].nonce in s.rows ==> s.rows[s.inFlight[v].nonce].consumed
  {
    var n := s.inFlight[v].nonce;
    assert Matches(s.issued, s.inFlight[v]);
    assert Accounted(s, n) && v in Holders(s, n);
  }

  /** While a verification holds its row, nobody else touches it; only expiry may delete it. */
  lemma HeldRowIsUntouched(s: State, e: Event, v: nat)
    requires Inv(s) && v in s.inFlight && !Ends(e, v)
    ensures var t := Step(s, e); var n := s.inFlight[v].nonce;
      && v in t.inFlight && t.inFlight[v] == s.inFlight[v]
      && (n in t.rows ==> n in s.rows && t.rows[n] == s.rows[n])
  {
    HeldIsConsumed(s, v);
    if (e.Settle? || e.Lose?) && e.v in s.inFlight && s.inFlight[e.v].nonce == s.inFlight[v].nonce {
      OnlyHolder(s, v, e.v);
    }
  }

  lemma {:induction false} HeldThroughout(s: State, es: seq<Event>, v: nat)
    requires Inv(s) && v in s.inFlight
    requires forall i :: 0 <= i < |es| ==> !Ends(es[i], v)
    ensures var t := Run(s, es); var n := s.inFlight[v].nonce;
      && v in t.inFlight && t.inFlight[v] == s.inFlight[v]
      && (n in t.rows ==> n in s.rows && t.rows[n] == s.rows[n])
  {
    if es != [] {
      var front := es[..|es| - 1];
      HeldThroughout(s, front, v);
      RunKeepsInv(s, front);
      HeldRowIsUntouched(Run(s, front), es[|es| - 1], v);
    }
  }

  lemma StartTakes(s: State, v: nat, input: Input, now: int)
    requires Inv(s) && v !in s.started && v in Step(s, Start(v, input, now)).inFlight
    ensures var t := Step(s, Start(v, input, now));
      && ExtractNonce(input.message).Some?
      && t.inFlight[v] == Attempt(input, ExtractNonce(input.message).value, now)
      && ExtractNonce(input.message).value in s.rows
      && !s.rows[ExtractNonce(input.message).value].consumed
      && t.rows == Mark(s.rows, ExtractNonce(input.message).value, true)
  {
  }

  lemma SettleRollsBack(s: State, v: nat, threw: bool)
    requires Inv(s) && v in s.inFlight && !Valid(s.inFlight[v], threw)
    ensures var n := s.inFlight[v].nonce; var t := Step(s, Settle(v, threw));
      Tokens(t, n) == 0 && t.rows == Mark(s.rows, n, false)
  {
    var n := s.inFlight[v].nonce;
    var t := Step(s, Settle(v, threw));
    assert Accounted(s, n) && v in Holders(s, n);
    HoldersLeave(s, v, n);
    assert Holders(t, n) == Holders(s.(inFlight := s.inFlight - {v}), n);
  }

  /**
   * A bad signature costs nothing: whatever the others do in between, the row is afterwards as it was before it was
   * taken, unless it expired meanwhile, and nothing is recorded against the nonce.
   */
  lemma BadSignatureRollsBack(s: State, v: nat, input: Input, now: int, es: seq<Event>, threw: bool)
    requires Inv(s) && v !in s.started && v in Step(s, Start(v, input, now)).inFlight
    requires forall i :: 0 <= i < |es| ==> !Ends(es[i], v)
    requires !Valid(Attempt(input, ExtractNonce(input.message).value, now), threw)
    ensures var n := ExtractNonce(input.message).value;
      var t := Step(Run(Step(s, Start(v, input, now)), es), Settle(v, threw));
      && n in s.rows
      && (n in t.rows ==> t.rows[n] == s.rows[n])
      && Tokens(t, n) == 0
  {
    var held := Step(s, Start(v, input, now));
    StartTakes(s, v, input, now);
    StepKeepsInv(s, Start(v, input, now));
    HeldThroughout(held, es, v);
    RunKeepsInv(held, es);
    SettleRollsBack(Run(held, es), v, threw);
  }

  /** A verification ends in success exactly when the check did not throw and the owner's wallet signed the message. */
  lemma SettleSucceedsIff(s: State, v: nat, threw: bool)
    requires v in s.inFlight
    ensures var a, t := s.inFlight[v], Step(s, Settle(v, threw));
      if !threw && a.input.sig.address == a.input.owner && a.input.sig.message == a.input.message then
        t.log == s.log + [Success(a)] && t.rows == s.rows
      else t.log == s.log && (a.nonce in s.rows ==> a.nonce in t.rows && !t.rows[a.nonce].consumed)
  {
  }

  /** No other challenge was ever issued with the same message. */
  lemma MessagesDiffer(s: State, action: Text, owner: Text, ens: Text, nonce: Text, n: Text)
    requires AllBuilt(s.issued) && IsAction(action) && IsAddress(owner) && IsNonce(nonce)
    requires n in s.issued && n != nonce
    ensures s.issued[n].message != BuildMessage(action, owner, ens, nonce)
  {
    var row := s.issued[n];
    assert Built(n, row);
    var a :| IsAction(a) && row.message == BuildMessage(a, row.owner, row.ens, n);
    MessageBindsChallenge(a, row.owner, row.ens, n, action, owner, ens, nonce);
  }

  function Honest(owner: Text, ens: Text, message: Text): Input {
    Input(owner, ens, message, Sig(owner, message))
  }

  /** Taking a row and settling it at once, with the signature its message asks for. */
  function Answer(s: State, v: nat, input: Input, now: int): State {
    Step(Step(s, Start(v, input, now)), Settle(v, false))
  }

  lemma TakableSucceeds(s: State, v: nat, input: Input, now: int, nonce: Text)
    requires Inv(s) && v !in s.started && IsAddress(input.owner)
    requires input.sig == Sig(input.owner, input.message)
    requires ExtractNonce(input.message) == Some(nonce) && Takable(s.rows, nonce, input, now)
    requires s.rows[nonce].message == input.message
    ensures Answer(s, v, input, now).log == s.log + [Success(Attempt(input, nonce, now))]
  {
  }

  lemma OtherNonceFails(s: State, v: nat, input: Input, now: int, nonce: Text)
    requires Inv(s) && v !in s.started
    requires ExtractNonce(input.message) == Some(nonce)
    requires nonce in s.rows ==> s.rows[nonce].message != input.message
    ensures var t := Answer(s, v, input, now); t.log == s.log || t.log == s.log + [Burn(Attempt(input, nonce, now))]
  {
  }

  /**
   * A fresh challenge answered in time with the wallet's signature succeeds if and only if the name does not hold a
   * nonce line of its own with another nonce; if it does, nothing succeeds.
   */
  lemma HonestAnswerSucceedsIff(
      s: State, action: Text, owner: Text, ens: Text, nonce: Text, issuedAt: int, v: nat, now: int)
    requires Inv(s) && AllBuilt(s.issued) && IsAction(action) && IsAddress(owner) && IsNonce(nonce)
    requires nonce !in s.issued && v !in s.started && now < issuedAt + NONCE_TTL_MS
    ensures var input := Honest(owner, ens, BuildMessage(action, owner, ens, nonce));
      var t := Answer(Step(s, Issue(action, owner, ens, nonce, issuedAt)), v, input, now);
      if ExtractNonce(ens + [LF]) in {None, Some(nonce)} then t.log == s.log + [Success(Attempt(input, nonce, now))]
      else t.log == s.log || exists a :: t.log == s.log + [Burn(a)]
  {
    var message := BuildMessage(action, owner, ens, nonce);
    var s1 := Step(s, Issue(action, owner, ens, nonce, issuedAt));
    ExtractBuilt(action, owner, ens, nonce);
    IssueKeepsInv(s, Issue(action, owner, ens, nonce, issuedAt));
    var found := ExtractNonce(message).value;
    if found == nonce {
      TakableSucceeds(s1, v, Honest(owner, ens, message), now, nonce);
    } else {
      if found in s1.rows {
        RowMessageDiffers(s, s1, action, owner, ens, nonce, found, issuedAt);
      }
      OtherNonceFails(s1, v, Honest(owner, ens, message), now, found);
    }
  }

  lemma RowMessageDiffers(
      s: State, s1: State, action: Text, owner: Text, ens: Text, nonce: Text, found: Text, issuedAt: int)
    requires Inv(s) && AllBuilt(s.issued) && IsAction(action) && IsAddress(owner) && IsNonce(nonce)
    requires s1 == Step(s, Issue(action, owner, ens, nonce, issuedAt)) && found in s1.rows && found != nonce
    ensures s1.rows[found].message != BuildMessage(action, owner, ens, nonce)
  {
    assert s.rows[found].(consumed := false) == s.issued[found];
    MessagesDiffer(s, action, owner, ens, nonce, found);
  }

  /** A name without line feeds, as every valid name is, never gets in the way: the honest answer succeeds. */
  lemma PlainNameSucceeds(
      s: State, action: Text, owner: Text, ens: Text, nonce: Text, issuedAt: int, v: nat, now: int)
    requires Inv(s) && AllBuilt(s.issued) && IsAction(action) && IsAddress(owner) && IsNonce(nonce) && LineFree(ens)
    requires nonce !in s.issued && v !in s.started && now < issuedAt + NONCE_TTL_MS
    ensures var input := Honest(owner, ens, BuildMessage(action, owner, ens, nonce));
      Answer(Step(s, Issue(action, owner, ens, nonce, issuedAt)), v, input, now).log ==
        s.log + [Success(Attempt(input, nonce, now))]
  {
    PlainNameHasNone(ens);
    HonestAnswerSucceedsIff(s, action, owner, ens, nonce, issuedAt, v, now);
  }

  lemma PlainNameHasNone(ens: Text)
    requires LineFree(ens)
    ensures ExtractNonce(ens + [LF]) == None
  {
    var t := ens + [LF];
    assert forall k :: 0 <= k < |ens| ==> t[k] == ens[k];
    if FirstNonceLine(t, 0) >= 0 {
      NonceLineShape(t, FirstNonceLine(t, 0));
    }
  }

  // ---- The collection ----

  class Nonces {
    var rows: map<Text, Row>
    ghost var inFlight: map<nat, Attempt>
    ghost var started: set<nat>
    ghost var log: seq<Entry>
    ghost var issued: map<Text, Row>

    ghost function Abs(): State
      reads this
    {
      State(rows, inFlight, started, log, issued)
    }

    constructor ()
      ensures Abs() == EMPTY
    {
      rows, inFlight, started, log, issued := map[], map[], {}, [], map[];
    }

    /** The draw of the nonce is the caller's. */
    method IssueChallenge(action: Text, owner: Text, ens: Text, nonce: Text, now: int) returns (message: Option<Text>)
      requires IsNonce(nonce) && nonce !in issued
      modifies this
      ensures Abs() == Step(old(Abs()), Issue(action, owner, ens, nonce, now))
      ensures message ==
        if IsAddress(owner) && IsAction(action) then Some(BuildMessage(action, owner, ens, nonce)) else None
    {
      if !IsAddress(owner) || !IsAction(action) {
        return None;
      }
      var text := BuildMessage(action, owner, ens, nonce);
      var row := Row(owner, ens, text, now + NONCE_TTL_MS, false);
      rows := rows[nonce := row];
      issued := issued[nonce := row];
      message := Some(text);
    }

    /** Up to the signature check: Some(a) means the row of `a` is taken and the check is awaited. */
    method BeginVerify(v: nat, input: Input, now: int) returns (a: Option<Attempt>)
      requires v !in started
      modifies this
      ensures Abs() == Step(old(Abs()), Start(v, input, now))
      ensures inFlight == if a.Some? then old(inFlight)[v := a.value] else old(inFlight)
    {
      started := started + {v};
      if !IsAddress(input.owner) { return None; }
      var nonce := ExtractNonce(input.message);
      if nonce.None? { return None; }
      if !Takable(rows, nonce.value, input, now) { return None; }
      var row := rows[nonce.value];
      rows := rows[nonce.value := row.(consumed := true)];
      var attempt := Attempt(input, nonce.value, now);
      if row.message != input.message {
        log := log + [Burn(attempt)];
        return None;
      }
      inFlight := inFlight[v := attempt];
      a := Some(attempt);
    }

    /** From the signature check to the answer. */
    method FinishVerify(v: nat, a: Attempt, threw: bool) returns (ok: bool)
      requires v in inFlight && inFlight[v] == a
      modifies this
      ensures Abs() == Step(old(Abs()), Settle(v, threw))
      ensures ok <==> log == old(log) + [Success(a)]
    {
      inFlight := inFlight - {v};
      var valid := if threw then false else a.input.sig == Sig(a.input.owner, a.input.message);
      if !valid {
        if a.nonce in rows {
          rows := rows[a.nonce := rows[a.nonce].(consumed := false)];
        }
        return false;
      }
      log := log + [Success(a)];
      ok := true;
    }
  }
}
