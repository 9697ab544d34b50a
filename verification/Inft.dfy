/** AgentdirINFT: state root, pubkey and URI per token, written by its owner only, with an event for every write. */
module Inft {

  // Minting and safe transfers call the receiver back, so a call carries the calls its receiver makes from inside the
  // hook (by any sender; each may itself revert), and whether the receiver accepts.

  type Address = nat
  type Bytes32 = nat

  const ZERO: nat := 0

  datatype LogEvent =
    | PubkeyUpdated(id: nat, pubkey: Bytes32)
    | StateUpdated(id: nat, prevRoot: Bytes32, newRoot: Bytes32, author: Address)
    | UriUpdated(id: nat, uri: string)
    | Transferred(from: Address, to: Address, id: nat)
    | OwnershipTransferred(prev: Address, next: Address)

  datatype Storage = Storage(
    contractOwner: Address,
    owners: map<nat, Address>,
    pubkeys: map<nat, Bytes32>,
    roots: map<nat, Bytes32>,
    uris: map<nat, string>,
    nextId: nat)

  datatype State = State(storage: Storage, log: seq<LogEvent>)

  datatype Call =
    | Mint(sender: Address, to: Address, pubkey: Bytes32, root: Bytes32, uri: string, hook: seq<Call>, accepts: bool)
    | SetRoot(sender: Address, id: nat, root: Bytes32)
    | SetPubkey(sender: Address, id: nat, pubkey: Bytes32)
    | SetUri(sender: Address, id: nat, uri: string)
    | Transfer(approved: bool, from: Address, to: Address, id: nat, hook: seq<Call>, accepts: bool)
    | ChangeOwner(sender: Address, next: Address)

  /** A mapping read: absent keys hold zero. */
  function Get(m: map<nat, nat>, id: nat): nat {
    if id in m then m[id] else ZERO
  }

  const EMPTY: Storage := Storage(ZERO, map[], map[], map[], map[], 1)

  function Deploy(owner: Address): State {
    State(EMPTY.(contractOwner := owner), [OwnershipTransferred(ZERO, owner)])
  }

  function Minted(s: State, to: Address, pubkey: Bytes32, root: Bytes32, uri: string): State {
    var t := s.storage;
    var id := t.nextId;
    State(t.(nextId := id + 1, pubkeys := t.pubkeys[id := pubkey], roots := t.roots[id := root],
             uris := t.uris[id := uri], owners := t.owners[id := to]),
          s.log + [PubkeyUpdated(id, pubkey), StateUpdated(id, ZERO, root, to), UriUpdated(id, uri),
                   Transferred(ZERO, to, id)])
  }

  predicate Owns(s: State, who: Address, id: nat) {
    Get(s.storage.owners, id) != ZERO && s.storage.owners[id] == who
  }

  /** A call that reverts leaves everything as it was. */
  function Exec(s: State, c: Call): State
    decreases c, 0
  {
    var t := s.storage;
    match c
    case Mint(sender, to, pubkey, root, uri, hook, accepts) =>
      if sender != t.contractOwner || to == ZERO then s
      else
        var after := ExecAll(Minted(s, to, pubkey, root, uri), hook);
        if accepts then after else s
    case SetRoot(sender, id, root) =>
      if !Owns(s, sender, id) then s
      else State(t.(roots := t.roots[id := root]), s.log + [StateUpdated(id, Get(t.roots, id), root, sender)])
    case SetPubkey(sender, id, pubkey) =>
      if !Owns(s, sender, id) then s
      else State(t.(pubkeys := t.pubkeys[id := pubkey]), s.log + [PubkeyUpdated(id, pubkey)])
    case SetUri(sender, id, uri) =>
      if !Owns(s, sender, id) then s
      else State(t.(uris := t.uris[id := uri]), s.log + [UriUpdated(id, uri)])
    case Transfer(approved, from, to, id, hook, accepts) =>
      if !approved || to == ZERO || !Owns(s, from, id) then s
      else
        var after := ExecAll(State(t.(owners := t.owners[id := to]), s.log + [Transferred(from, to, id)]), hook);
        if accepts then after else s
    case ChangeOwner(sender, next) =>
      if sender != t.contractOwner || sender == ZERO then s
      else State(t.(contractOwner := next), s.log + [OwnershipTransferred(sender, next)])
  }

  function ExecAll(s: State, cs: seq<Call>): State
    decreases cs, 1
  {
    if cs == [] then s else ExecAll(Exec(s, cs[0]), cs[1..])
  }

  // ---- Rebuilding storage from the log ----

  /** What an indexer does with one event. */
  function Apply(v: Storage, e: LogEvent): Storage {
    match e
    case PubkeyUpdated(id, pubkey) => v.(pubkeys := v.pubkeys[id := pubkey])
    case StateUpdated(id, _, newRoot, _) => v.(roots := v.roots[id := newRoot])
    case UriUpdated(id, uri) => v.(uris := v.uris[id := uri])
    case Transferred(from, to, id) =>
      v.(owners := v.owners[id := to], nextId := if from == ZERO then id + 1 else v.nextId)
    case OwnershipTransferred(_, next) => v.(contractOwner := next)
  }

  function Replay(log: seq<LogEvent>): Storage {
    if log == [] then EMPTY else Apply(Replay(log[..|log| - 1]), log[|log| - 1])
  }

  /**
   * A state event continues the root its token had, and was made by the token's owner at that moment, or is the
   * first event of a token about to be minted.
   */
  predicate Authorised(v: Storage, e: LogEvent) {
    e.StateUpdated? ==>
      && e.prevRoot == Get(v.roots, e.id)
      && (if e.id in v.owners then e.author == v.owners[e.id] else e.id == v.nextId && e.prevRoot == ZERO)
  }

  ghost predicate AllAuthorised(log: seq<LogEvent>) {
    forall k :: 0 <= k < |log| ==> Authorised(Replay(log[..k]), log[k])
  }

  ghost predicate Inv(s: State) {
    && Replay(s.log) == s.storage
    && AllAuthorised(s.log)
    && WellKept(s.storage)
  }

  lemma ReplayPush(log: seq<LogEvent>, e: LogEvent)
    requires AllAuthorised(log) && Authorised(Replay(log), e)
    ensures Replay(log + [e]) == Apply(Replay(log), e)
    ensures AllAuthorised(log + [e])
  {
    var t := log + [e];
    assert t[..|log|] == log;
    forall k | 0 <= k < |t| ensures Authorised(Replay(t[..k]), t[k]) {
      if k < |log| {
        assert t[..k] == log[..k];
      }
    }
  }

  lemma ReplayPushTwo(log: seq<LogEvent>, e1: LogEvent, e2: LogEvent)
    requires AllAuthorised(log) && Authorised(Replay(log), e1) && Authorised(Apply(Replay(log), e1), e2)
    ensures Replay(log + [e1, e2]) == Apply(Apply(Replay(log), e1), e2)
    ensures AllAuthorised(log + [e1, e2])
  {
    ReplayPush(log, e1);
    ReplayPush(log + [e1], e2);
    assert log + [e1, e2] == log + [e1] + [e2];
  }

  lemma ReplayPushFour(log: seq<LogEvent>, e1: LogEvent, e2: LogEvent, e3: LogEvent, e4: LogEvent)
    requires AllAuthorised(log) && Authorised(Replay(log), e1) && Authorised(Apply(Replay(log), e1), e2)
    requires !e3.StateUpdated? && !e4.StateUpdated?
    ensures Replay(log + [e1, e2, e3, e4]) == Apply(Apply(Apply(Apply(Replay(log), e1), e2), e3), e4)
    ensures AllAuthorised(log + [e1, e2, e3, e4])
  {
    ReplayPushTwo(log, e1, e2);
    ReplayPushTwo(log + [e1, e2], e3, e4);
    assert log + [e1, e2, e3, e4] == log + [e1, e2] + [e3, e4];
  }

  lemma MintedKeepsInv(s: State, to: Address, pubkey: Bytes32, root: Bytes32, uri: string)
    requires Inv(s) && to != ZERO
    ensures Inv(Minted(s, to, pubkey, root, uri))
  {
    var id := s.storage.nextId;
    ReplayPushFour(s.log, PubkeyUpdated(id, pubkey), StateUpdated(id, ZERO, root, to), UriUpdated(id, uri),
                   Transferred(ZERO, to, id));
  }

  predicate WellKept(t: Storage) {
    t.roots.Keys == t.owners.Keys && forall id :: id in t.owners ==> id < t.nextId && t.owners[id] != ZERO
  }

  lemma WriteKeepsInv(s: State, e: LogEvent)
    requires Inv(s) && Authorised(s.storage, e) && WellKept(Apply(s.storage, e))
    ensures Inv(State(Apply(s.storage, e), s.log + [e]))
  {
    ReplayPush(s.log, e);
  }

  lemma SimpleCallKeepsInv(s: State, c: Call)
    requires Inv(s) && !c.Mint? && !c.Transfer?
    ensures Inv(Exec(s, c))
  {
    match c
    case SetRoot(sender, id, root) =>
      if Owns(s, sender, id) { WriteKeepsInv(s, StateUpdated(id, Get(s.storage.roots, id), root, sender)); }
    case SetPubkey(sender, id, pubkey) => WriteKeepsInv(s, PubkeyUpdated(id, pubkey));
    case SetUri(sender, id, uri) => WriteKeepsInv(s, UriUpdated(id, uri));
    case ChangeOwner(sender, next) => WriteKeepsInv(s, OwnershipTransferred(sender, next));
  }

  lemma {:induction false} ExecKeepsInv(s: State, c: Call)
    requires Inv(s)
    ensures Inv(Exec(s, c))
    decreases c, 0
  {
    if c.Mint? {
      if c.sender == s.storage.contractOwner && c.to != ZERO {
        MintedKeepsInv(s, c.to, c.pubkey, c.root, c.uri);
        ExecAllKeepsInv(Minted(s, c.to, c.pubkey, c.root, c.uri), c.hook);
      }
    } else if c.Transfer? {
      if c.approved && c.to != ZERO && Owns(s, c.from, c.id) {
        var e := Transferred(c.from, c.to, c.id);
        WriteKeepsInv(s, e);
        ExecAllKeepsInv(State(Apply(s.storage, e), s.log + [e]), c.hook);
      }
    } else {
      SimpleCallKeepsInv(s, c);
    }
  }

  lemma {:induction false} ExecAllKeepsInv(s: State, cs: seq<Call>)
    requires Inv(s)
    ensures Inv(ExecAll(s, cs))
    decreases cs, 1
  {
    if cs != [] {
      ExecKeepsInv(s, cs[0]);
      ExecAllKeepsInv(Exec(s, cs[0]), cs[1..]);
    }
  }

  /**
   * In every state reachable from deployment, whatever receivers do inside their hooks, replaying the event log
   * rebuilds the whole storage, and every state event was authorised when it was emitted.
   */
  lemma ReplayRebuildsStorage(owner: Address, txs: seq<Call>)
    ensures var s := ExecAll(Deploy(owner), txs);
      Replay(s.log) == s.storage && AllAuthorised(s.log)
  {
    var d := Deploy(owner);
    ReplayPush([], OwnershipTransferred(ZERO, owner));
    assert [] + [OwnershipTransferred(ZERO, owner)] == d.log;
    ExecAllKeepsInv(d, txs);
  }

  // ---- Each token's roots form one linked history ----

  predicate IsStateOf(e: LogEvent, id: nat) {
    e.StateUpdated? && e.id == id
  }

  /** The new root of the last state event for `id`, or zero. */
  function LastRoot(log: seq<LogEvent>, id: nat): Bytes32 {
    if log == [] then ZERO
    else if IsStateOf(log[|log| - 1], id) then log[|log| - 1].newRoot
    else LastRoot(log[..|log| - 1], id)
  }

  lemma {:induction false} ReplayRootIsLastRoot(log: seq<LogEvent>, id: nat)
    ensures Get(Replay(log).roots, id) == LastRoot(log, id)
  {
    if log != [] {
      ReplayRootIsLastRoot(log[..|log| - 1], id);
    }
  }

  /**
   * Per token, each state event's previous root is the new root of the event before it (zero for the first), the
   * last new root is the one in storage, and an update of a token that has an owner is made by that owner.
   */
  lemma StateHistoryIsLinked(owner: Address, txs: seq<Call>, id: nat, k: nat)
    requires k < |ExecAll(Deploy(owner), txs).log| && IsStateOf(ExecAll(Deploy(owner), txs).log[k], id)
    ensures var s := ExecAll(Deploy(owner), txs);
      && s.log[k].prevRoot == LastRoot(s.log[..k], id)
      && (id in Replay(s.log[..k]).owners ==> s.log[k].author == Replay(s.log[..k]).owners[id])
      && (id !in Replay(s.log[..k]).owners ==> s.log[k].prevRoot == ZERO && id == Replay(s.log[..k]).nextId)
      && Get(s.storage.roots, id) == LastRoot(s.log, id)
  {
    var s := ExecAll(Deploy(owner), txs);
    ReplayRebuildsStorage(owner, txs);
    ReplayRootIsLastRoot(s.log[..k], id);
    ReplayRootIsLastRoot(s.log, id);
    assert Authorised(Replay(s.log[..k]), s.log[k]);
  }

  // ---- What each call stores ----

  /** Everything about every token but `id`, and the contract's owner, is the same in both. */
  ghost predicate SameButFor(id: nat, t: Storage, u: Storage) {
    && t.contractOwner == u.contractOwner
    && (forall k :: k != id ==> (k in t.owners <==> k in u.owners) && (k in t.owners ==> t.owners[k] == u.owners[k]))
    && (forall k :: k != id ==> Get(t.pubkeys, k) == Get(u.pubkeys, k) && Get(t.roots, k) == Get(u.roots, k))
    && (forall k :: k != id ==> (k in t.uris <==> k in u.uris) && (k in t.uris ==> t.uris[k] == u.uris[k]))
  }

  /** The token `id` as it reads: its owner, pubkey, state root and URI. */
  predicate Holds(t: Storage, id: nat, owner: Address, pubkey: Bytes32, root: Bytes32, uri: string) {
    && id in t.owners && t.owners[id] == owner
    && Get(t.pubkeys, id) == pubkey && Get(t.roots, id) == root
    && id in t.uris && t.uris[id] == uri
  }

  /**
   * A successful mint hands the receiver's hook a state with the next id owned by the recipient and holding exactly
   * the pubkey, root and URI passed, every other token as before, and four events that say so; a mint by anybody but
   * the contract's owner, to nobody, or to a receiver that refuses changes nothing.
   */
  lemma MintStores(
      s: State, sender: Address, to: Address, pubkey: Bytes32, root: Bytes32, uri: string, hook: seq<Call>,
      accepts: bool)
    returns (handed: State)
    ensures var after := Exec(s, Mint(sender, to, pubkey, root, uri, hook, accepts));
      if sender == s.storage.contractOwner && to != ZERO && accepts then after == ExecAll(handed, hook) else after == s
    ensures var id := s.storage.nextId;
      && Holds(handed.storage, id, to, pubkey, root, uri)
      && handed.storage.nextId == id + 1 && SameButFor(id, s.storage, handed.storage)
      && handed.log == s.log + [PubkeyUpdated(id, pubkey), StateUpdated(id, ZERO, root, to), UriUpdated(id, uri),
                                Transferred(ZERO, to, id)]
  {
    handed := Minted(s, to, pubkey, root, uri);
  }

  /** The owner's updates store exactly the value passed, log it, and touch nothing else; anybody else's do nothing. */
  lemma UpdatesStore(s: State, sender: Address, id: nat, value: Bytes32, uri: string)
    ensures var t := Exec(s, SetRoot(sender, id, value));
      if Owns(s, sender, id) then
        && Get(t.storage.roots, id) == value
        && t.storage == s.storage.(roots := t.storage.roots) && SameButFor(id, s.storage, t.storage)
        && t.log == s.log + [StateUpdated(id, Get(s.storage.roots, id), value, sender)]
      else t == s
    ensures var t := Exec(s, SetPubkey(sender, id, value));
      if Owns(s, sender, id) then
        && Get(t.storage.pubkeys, id) == value
        && t.storage == s.storage.(pubkeys := t.storage.pubkeys) && SameButFor(id, s.storage, t.storage)
        && t.log == s.log + [PubkeyUpdated(id, value)]
      else t == s
    ensures var t := Exec(s, SetUri(sender, id, uri));
      if Owns(s, sender, id) then
        && id in t.storage.uris && t.storage.uris[id] == uri
        && t.storage == s.storage.(uris := t.storage.uris) && SameButFor(id, s.storage, t.storage)
        && t.log == s.log + [UriUpdated(id, uri)]
      else t == s
  {
  }

  /** The contract's owner, and nobody else, names the next one; that changes no token. */
  lemma ChangeOwnerMoves(s: State, sender: Address, next: Address)
    ensures var t := Exec(s, ChangeOwner(sender, next));
      if sender == s.storage.contractOwner && sender != ZERO then
        && t.storage == s.storage.(contractOwner := next)
        && t.log == s.log + [OwnershipTransferred(sender, next)]
      else t == s
  {
  }

  /** A transfer hands the hook a state in which only the owner of that token is another. */
  lemma TransferMoves(s: State, approved: bool, from: Address, to: Address, id: nat, hook: seq<Call>, accepts: bool)
    returns (handed: State)
    ensures var after := Exec(s, Transfer(approved, from, to, id, hook, accepts));
      if approved && to != ZERO && Owns(s, from, id) && accepts then after == ExecAll(handed, hook) else after == s
    ensures id in handed.storage.owners && handed.storage.owners[id] == to
    ensures handed.storage == s.storage.(owners := handed.storage.owners) && SameButFor(id, s.storage, handed.storage)
    ensures handed.log == s.log + [Transferred(from, to, id)]
  {
    var t := s.storage;
    handed := State(t.(owners := t.owners[id := to]), s.log + [Transferred(from, to, id)]);
  }

  // ---- The contract ----

  class AgentdirINFT {
    var storage: Storage
    var log: seq<LogEvent>

    ghost function Abs(): State
      reads this
    {
      State(storage, log)
    }

    constructor (owner: Address)
      ensures Abs() == Deploy(owner)
    {
      storage := EMPTY.(contractOwner := owner);
      log := [OwnershipTransferred(ZERO, owner)];
    }

    /** State is written before the receiver hook runs. */
    method MintToken(
        sender: Address, to: Address, pubkey: Bytes32, root: Bytes32, uri: string, hook: seq<Call>, accepts: bool)
      returns (ok: bool, tokenId: nat)
      modifies this
      ensures Abs() == Exec(old(Abs()), Mint(sender, to, pubkey, root, uri, hook, accepts))
      ensures ok <==> old(storage.contractOwner) == sender && to != ZERO && accepts
      ensures ok ==> tokenId == old(storage.nextId)
      decreases hook, 2
    {
      tokenId := storage.nextId;
      if sender != storage.contractOwner || to == ZERO {
        return false, tokenId;
      }
      var savedStorage, savedLog := storage, log;
      storage := storage.(nextId := tokenId + 1);
      storage := storage.(pubkeys := storage.pubkeys[tokenId := pubkey]);
      storage := storage.(roots := storage.roots[tokenId := root]);
      storage := storage.(uris := storage.uris[tokenId := uri]);
      log := log + [PubkeyUpdated(tokenId, pubkey)];
      log := log + [StateUpdated(tokenId, ZERO, root, to)];
      log := log + [UriUpdated(tokenId, uri)];
      storage := storage.(owners := storage.owners[tokenId := to]);
      log := log + [Transferred(ZERO, to, tokenId)];
      assert log == Minted(old(Abs()), to, pubkey, root, uri).log;
      RunHook(hook);
      if !accepts {
        storage, log := savedStorage, savedLog;
      }
      ok := accepts;
    }

    method SetAgentStateRoot(sender: Address, id: nat, root: Bytes32) returns (ok: bool)
      modifies this
      ensures Abs() == Exec(old(Abs()), SetRoot(sender, id, root))
      ensures ok <==> Owns(old(Abs()), sender, id)
    {
      if Get(storage.owners, id) == ZERO || storage.owners[id] != sender {
        return false;
      }
      var prev := Get(storage.roots, id);
      storage := storage.(roots := storage.roots[id := root]);
      log := log + [StateUpdated(id, prev, root, sender)];
      ok := true;
    }

    method SetAgentAxlPubkey(sender: Address, id: nat, pubkey: Bytes32) returns (ok: bool)
      modifies this
      ensures Abs() == Exec(old(Abs()), SetPubkey(sender, id, pubkey))
      ensures ok <==> Owns(old(Abs()), sender, id)
    {
      if Get(storage.owners, id) == ZERO || storage.owners[id] != sender {
        return false;
      }
      storage := storage.(pubkeys := storage.pubkeys[id := pubkey]);
      log := log + [PubkeyUpdated(id, pubkey)];
      ok := true;
    }

    method SetTokenURI(sender: Address, id: nat, uri: string) returns (ok: bool)
      modifies this
      ensures Abs() == Exec(old(Abs()), SetUri(sender, id, uri))
      ensures ok <==> Owns(old(Abs()), sender, id)
    {
      if Get(storage.owners, id) == ZERO || storage.owners[id] != sender {
        return false;
      }
      storage := storage.(uris := storage.uris[id := uri]);
      log := log + [UriUpdated(id, uri)];
      ok := true;
    }

    method TransferToken(approved: bool, from: Address, to: Address, id: nat, hook: seq<Call>, accepts: bool)
      modifies this
      ensures Abs() == Exec(old(Abs()), Transfer(approved, from, to, id, hook, accepts))
      decreases hook, 2
    {
      if !approved || to == ZERO || !Owns(State(storage, log), from, id) {
        return;
      }
      var savedStorage, savedLog := storage, log;
      storage := storage.(owners := storage.owners[id := to]);
      log := log + [Transferred(from, to, id)];
      RunHook(hook);
      if !accepts {
        storage, log := savedStorage, savedLog;
      }
    }

    /** transferOwnership and renounceOwnership. */
    method TransferContract(sender: Address, next: Address)
      modifies this
      ensures Abs() == Exec(old(Abs()), ChangeOwner(sender, next))
    {
      if sender == storage.contractOwner && sender != ZERO {
        storage := storage.(contractOwner := next);
        log := log + [OwnershipTransferred(sender, next)];
      }
    }

    method Dispatch(c: Call)
      modifies this
      ensures Abs() == Exec(old(Abs()), c)
      decreases c, 3
    {
      match c
      case Mint(sender, to, pubkey, root, uri, hook, accepts) =>
        var _, _ := MintToken(sender, to, pubkey, root, uri, hook, accepts);
      case SetRoot(sender, id, root) =>
        var _ := SetAgentStateRoot(sender, id, root);
      case SetPubkey(sender, id, pubkey) =>
        var _ := SetAgentAxlPubkey(sender, id, pubkey);
      case SetUri(sender, id, uri) =>
        var _ := SetTokenURI(sender, id, uri);
      case Transfer(approved, from, to, id, hook, accepts) =>
        TransferToken(approved, from, to, id, hook, accepts);
      case ChangeOwner(sender, next) =>
        TransferContract(sender, next);
    }

    method RunHook(cs: seq<Call>)
      modifies this
      ensures Abs() == ExecAll(old(Abs()), cs)
      decreases cs, 1
    {
      if cs != [] {
        Dispatch(cs[0]);
        RunHook(cs[1..]);
      }
    }
  }
}
