# agentdir in Dafny

agentdir lets agents call each other's skills over a peer-to-peer bus. Requests carry a nonce and a time stamp;
responses and streamed chunks are signed over a canonical JSON text; every served call is attested on an append-only
reputation chain; an agent's state is snapshotted on a second chain whose newest root is anchored on an NFT contract;
a router skill forwards calls within a hop budget. A web front end drives calls and shows the stream as it arrives.

This project models those parts and proves what they promise.

* **Canonical text.** `CodeUnits`, `Json`, `JsonParse` and `Canonical` model JavaScript strings, JSON printing and
  parsing, and `canonicalJson`. Two values have the same canonical text exactly when they mean the same, and the text
  survives the wire. `Domains` lays out the six signed records and shows that a digest determines its record; `Stored`
  takes a signed record to storage and back, signature and all.
* **Chains.** `Chain` is the promise-lock machine of `RepChain` under any interleaving, with the backward walk;
  `Snapshot` is rotation with seeding, failures and restarts, `Overlap` its overlapping calls; `Inft` is the contract
  with re-entrant receivers and its event log; `AgentStats` ties the reputation chain to the statistics in memory;
  `Directory` ranks by it.
* **Calls.** `NonceCache` (replay guard), `Responder` (a text skill's generator, serving one request, admission),
  `AgentRun` (the agent's whole inbox), `Caller` (the receive loops against a hostile network), `Completeness` (what a
  success says about the stream), `Envelope` (messages as JSON), `LocalBus`, `Route`.
* **Streaming.** `Channel` (wake-ups), `Framing` (the cutting both event readers share), `Sse` (route printer and panel
  parser), `DirectStream` (the compute client's reader), `Provider` (the stream it reads), and `Pipeline`, which
  composes all of it from model delta to panel, with `DirectRun` as its plainest run.
* **Small stateful parts.** `RateLimit` (fixed window with collection) and `AuthNonce` (single-use wallet challenges).

Concurrent code is a step function over the stretches between awaits, run over arbitrary event sequences; beside it a
class has one method per stretch, whose postcondition is that the abstract state takes that step. Loops are methods
proved against functions, and the results are lemmas about those functions.

Signatures and hashes are ideal: a signature verifies only for the key and digest it was made with, `keccak256` is
injective (a digest is the text hashed, a storage root the record it addresses), and random ids are fresh. Times and
network behaviour are parameters.

## Model

| member | source | states |
|---|---|---|
| Canonical.CanonicalInjective | packages/sdk/src/agent-card.ts:43-52 | two values have the same canonical text if and only if they mean the same: undefined members dropped, undefined elements null, member order ignored |
| Canonical.CanonicalParses | packages/sdk/src/agent-card.ts:43-52 | the canonical text is JSON, and parses to a value with the meaning of the original |
| Canonical.SurvivesTheWire | packages/sdk/src/agent-card.ts:38-52 | printing a value with `JSON.stringify`, parsing it and recomputing the canonical text gives the text of the original |
| Canonical.CanonicalIsStable | packages/sdk/src/agent-card.ts:38-52 | re-encoding the parsed canonical text changes nothing |
| Canonical.CanonicalIsPlainText | packages/sdk/src/agent-card.ts:45-56 | the text hashed has no control characters and no lone surrogates, so hashing its UTF-8 bytes loses nothing |
| CodeUnits.StrictlySortedUnique | packages/sdk/src/agent-card.ts:48-50 | a set of keys has one sorted order under comparison by code units |
| CodeUnits.LessIff | packages/sdk/src/agent-card.ts:48-50 | one key comes before another if and only if, after the units they share, it ends or goes on with the smaller unit |
| CodeUnits.TrimSplits | Frontend/app/call/[ens]/call-panel.tsx:117-129 | trimming takes off white space only, and leaves none at the ends |
| Canonical.CanonicalAscends | packages/sdk/src/agent-card.ts:48-51 | read back, the canonical text has the keys of every object, however deep, ascending in that order |
| Canonical.CanonicalPair | packages/sdk/src/agent-card.ts:44-52 | the exact text of an object with two keys, whatever the values and in whichever order they were inserted |
| Canonical.CanonicalExample | packages/sdk/src/agent-card.test.ts:28-32 | the exact text of the nested object of the test |
| Json.SpelledAs | packages/sdk/src/agent-card.ts:45-51 | each code unit in a string is printed as itself, as one of the seven letter escapes, or as four lower-case hexadecimal digits |
| JsonParse.PlainTextIsItself | packages/sdk/src/agent-card.ts:45-51 | text without quotes, backslashes, control characters or lone surrogates is printed as it is |
| JsonParse.ParseUndoesStringify | packages/agent/src/local-bus.ts:39-41 | parsing what `JSON.stringify` printed gives the value up to what JSON cannot say, with its meaning intact |
| JsonParse.StringifyIsPrintable | Frontend/app/api/call/route.ts:78-82 | JSON text holds no raw CR or LF, so an event is one frame |
| JsonParse.StringifyIsUtf8Safe | Frontend/app/api/call/route.ts:78-82 | JSON text holds no lone surrogate, so UTF-8 encoding it loses nothing |
| Domains.DigestBindsRecord | packages/agent/src/protocol.ts:33-50 | two digests are equal if and only if the records agree in kind and every bound field, free-form output compared by meaning |
| Domains.KindsDoNotCollide | packages/agent/src/protocol.ts:105-114 | chunk, success, error, receipt, attestation and snapshot records never share a digest |
| Domains.DigestSurvivesTheWire | packages/agent/src/caller.ts:155-176 | a record whose free-form output or statistics are replaced by what was read off the wire keeps its digest |
| Stored.StoredVerifiesIff | packages/sdk/src/rep.ts:28-71 | `{...base, sig}` printed, parsed, and checked over the rest without `sig` verifies under a key if and only if that key signed it, over this very record |
| Stored.AttestationReadsBack | packages/sdk/src/rep.ts:36-71 | every attestation read back from storage verifies under its signer's key and no other, and its `prevRoot` is read as written |
| Stored.SnapshotReadsBack | packages/sdk/src/snapshot.ts:57-109 | the same for every snapshot, free-form statistics included, and its `prevSnapshotRoot` |
| Stored.MemberReadsBack | packages/sdk/src/rep.ts:73-75 | every member of a stored record is read back as written, up to what JSON cannot say |
| Stored.MessageNames | packages/agent/src/protocol.ts:33-114 | the id, the parties, the skill and the time of a chunk or response are signed each under its own name |
| Stored.MessageContent | packages/agent/src/protocol.ts:33-114 | so are its sequence number and text, its output or its error, and `ok` tells the last two apart |
| Stored.AttestationPartyNames | packages/sdk/src/rep.ts:54-65 | so are the parties and the skill of an attestation |
| Stored.AttestationLinkNames | packages/sdk/src/rep.ts:54-65 | its link is null when there is none, and the provider's attestation is left out when there is none |
| Stored.SnapshotLinkNames | packages/sdk/src/snapshot.ts:19-33 | so are the statistics and the two links of a snapshot |
| Stored.SignedObjectSurvives | packages/sdk/src/snapshot.ts:57-63 | taking `sig` off what was parsed leaves an object with the canonical text that was signed |
| Envelope.ResponseVerifies | packages/agent/src/caller.ts:155-184 | whatever a handler returns, its response signed, printed, parsed and checked is accepted in time, and gives that output |
| Envelope.ChunkVerifies | packages/agent/src/caller.ts:102-134 | every chunk signed, printed, parsed and checked at its place in time is accepted, with its text |
| Chain.LinearChain | packages/sdk/src/rep.ts:49-71 | over every interleaving of appends, failures and foreign uploads: each record's `prevRoot` is the one committed just before, `head` is the last, all are stored, and calls commit in call order |
| Chain.QuiescentLog | packages/sdk/src/rep.ts:49-52 | with nothing pending, the calls are the committed ones followed by the rejected ones |
| Chain.NothingRejected | packages/sdk/src/rep.ts:49-52 | without a rejected signature or upload nothing is ever rejected, so with nothing pending every call is committed, in call order |
| Chain.PoisonIsFinal | packages/sdk/src/rep.ts:50 | after one rejected append, nothing is ever committed again by that chain object |
| Chain.CommitsAreDistinct | packages/sdk/src/rep.ts:54-70 | no two commits share a root, and depth counts commits |
| Chain.RecordsAreTimed | packages/sdk/src/rep.ts:54-66 | each record carries the time at which its append was let in, in commit order |
| Chain.StoreIsUploads | packages/sdk/src/rep.ts:68-70 | over any run the storage holds what it held and every upload that landed, even of a rejected append, and nothing else |
| Chain.WalkReturnsNewest | packages/sdk/src/rep.ts:81-91 | walking from the head of any reachable chain returns the newest `limit` records in reverse commit order, cut at the first bad signature |
| Chain.OneSignerWalk | packages/sdk/src/rep.ts:77-91 | when every append is signed with one key, the walk that checks that key returns the newest `limit` records, whatever failed or others uploaded |
| Chain.WalkStops | packages/sdk/src/rep.ts:81-91 | a walk goes back link by link to the limit, to the first record, to the first the key did not sign, or to the first missing from storage, and fails exactly in the last case |
| Chain.RepChain.Walk | packages/sdk/src/rep.ts:81-91 | the loop computes the recursive walk, missing blobs and early stops included |
| Chain.RepChain.StartNext | packages/sdk/src/rep.ts:50-65 | takes the oldest waiting call and reads `head` at that moment, or rejects it if the lock is poisoned |
| Chain.RepChain.OnStored | packages/sdk/src/rep.ts:68-70 | commits the record in flight and moves `head` to it |
| Snapshot.AnchoredRootsAreLinear | packages/agent/src/agent.ts:326-380 | over any run of rotations, failed signings, uploads and anchorings and restarts, unless a failed read hid a root: each anchored root has every earlier one, and the root the contract held at the start, as a proper ancestor; none repeats, all are stored, and the contract holds the newest |
| Snapshot.GoodReadsLoseNothing | packages/agent/src/agent.ts:354-362 | successful root reads are enough for that hypothesis |
| Snapshot.FirstRotationLinksIff | packages/agent/src/agent.ts:354-378 | a process's first rotation links to the anchored root if and only if the read succeeded or there was nothing to read |
| Snapshot.AnchoredAsAsked | packages/agent/src/agent.ts:347-380 | over every run, the contents of the snapshots anchored are among those that rotations were asked to take, in order, each used at most once |
| Snapshot.RotationAnchorsItsOwn | packages/agent/src/agent.ts:347-380 | a rotation without a failure anchors exactly the snapshot it was asked for, linked to the contract's root or to the head |
| Snapshot.RestartContinues | packages/agent/src/agent.ts:347-380 | a restart forgets a failure, and the next rotation follows the root the contract holds |
| Snapshot.FailureStopsAnchoring | packages/sdk/src/snapshot.ts:94-111 | after a failed signature or upload, and until a restart, nothing more is anchored |
| Snapshot.FailedAnchorIsFollowed | packages/agent/src/agent.ts:365-380 | after a failed transaction the contract is as before, and the next snapshot follows the one that was stored but not anchored |
| Snapshot.Rotation.OnRootRead | packages/agent/src/agent.ts:354-365 | seeds the head from the contract, or goes on as genesis when the read failed |
| Snapshot.Rotation.OnUploaded | packages/sdk/src/snapshot.ts:107-111 | moves the head only on success; a failure poisons the lock |
| Overlap.OneAtATimeIsLinear | packages/agent/src/agent.ts:326-380 | with calls of `snapshotNow` one at a time, as `maybeSnapshot` ensures, each anchored root is a proper ancestor of the next |
| Overlap.OverlapForks | packages/agent/src/agent.ts:352-378 | two overlapping direct calls can anchor two snapshots with the same parent: a concrete run |
| Overlap.FirstSnapshotsDoNotFork | packages/agent/src/agent.ts:352-378 | with nothing anchored yet the same schedule does not fork |
| Overlap.OverlapReorders | packages/agent/src/agent.ts:365-378 | two overlapping direct calls can leave the older snapshot as the contract's root, out of ancestry order: a concrete run |
| Overlap.EveryStateCanBreak | packages/agent/src/agent.ts:330-336 | the guard of `maybeSnapshot` is needed everywhere: from every ordered state at rest, some overlapping schedule without a failure anchors out of order |
| Inft.ReplayRebuildsStorage | packages/contracts/src/AgentdirINFT.sol:50-100 | in every reachable state, with receivers re-entering during `mint`, replaying the event log gives the whole storage, and every state event was authorised when emitted |
| Inft.StateHistoryIsLinked | packages/contracts/src/AgentdirINFT.sol:81-86 | per token, each event's previous root is the new root of the one before (zero first), the last is the one stored, and each update after minting is by the owner at that moment |
| Inft.MintStores | packages/contracts/src/AgentdirINFT.sol:50-65 | a successful mint hands the hook a state with exactly the pubkey, root, URI and owner passed at the next id, every other token as before, and the four events; any other mint changes nothing |
| Inft.UpdatesStore | packages/contracts/src/AgentdirINFT.sol:81-100 | an update by the owner stores exactly the value passed and nothing else, with its event; by anybody else it changes nothing |
| Inft.TransferMoves | packages/contracts/src/AgentdirINFT.sol:23 | an inherited transfer changes the owner of that token only |
| Inft.AgentdirINFT.MintToken | packages/contracts/src/AgentdirINFT.sol:50-65 | state and events are written before the receiver's hook runs, and a refusal rolls everything back |
| Inft.AgentdirINFT.SetAgentStateRoot | packages/contracts/src/AgentdirINFT.sol:81-86 | only the owner of an existing token updates its root, logging the previous one |
| AgentStats.OnlyServedRequestsCount | packages/agent/src/agent.ts:211-323 | at every moment of any interleaving of requests, from admission to count: the statistics count exactly the requests that went all the way, and the chain holds those and the ones just committed; a refused request, a lost reply or a rejected append changes neither |
| AgentStats.ReputationAgreesWithStats | packages/agent/src/agent.ts:211-323 | whenever no request is between commit and count: chain length is `callsTotal`, its ok entries `okTotal`, and each skill's entries its `skillStats` |
| AgentStats.ChainOfRun | packages/agent/src/agent.ts:483-501 | the agent's chain is a run of the promise-lock machine, fed by the requests whose reply was sent |
| AgentStats.EntriesAreMine | packages/agent/src/agent.ts:491-495 | every entry of an agent's chain is about that agent |
| AgentStats.StatsLagTheChain | packages/agent/src/agent.ts:302-311 | at any moment the statistics lag the chain by exactly the requests between commit and count |
| AgentStats.RequestsAreTrue | packages/agent/src/agent.ts:211-313 | at every moment, what is attested and counted of a request names the caller and skill it arrived with, the way its own handler ended and what its own reply took; exactly the requests not admitted are refused |
| AgentStats.LastErrorIs | packages/agent/src/agent.ts:315-323 | `errLastTs` is the time of the last call for the skill that failed |
| AgentStats.Stats.BumpStats | packages/agent/src/agent.ts:315-323 | counts in place, in the cell the skill already has |
| AgentStats.Stats.SignThenUpload | packages/agent/src/agent.ts:365-374 | the shallow copy uploaded shows what was signed if and only if no call counted in between was for a skill already in it |
| AgentStats.SameIffUntouched | packages/agent/src/agent.ts:365-374 | that condition, on the values signed and uploaded |
| NonceCache.Guard.RejectStale | packages/agent/src/agent.ts:130-143 | the verdict and the cache afterwards: freshness first, then replay, eviction of the oldest entry over the size |
| NonceCache.CacheIsLastPassed | packages/agent/src/agent.ts:135-141 | the cache is exactly the last `nonceCacheSize` nonces that passed |
| NonceCache.WindowIsDistinct | packages/agent/src/agent.ts:134-141 | any `nonceCacheSize + 1` consecutive passes have different nonces |
| NonceCache.PassesIff | packages/agent/src/agent.ts:130-143 | a request passes if and only if it is fresh and its nonce is not among the last `nonceCacheSize` that passed |
| NonceCache.ReplayBound | packages/agent/src/agent.ts:130-143 | if a nonce passes twice, at least `nonceCacheSize` different others passed in between; a verbatim request passes twice only within twice the age limit |
| NonceCache.AtMostOnce | packages/agent/src/agent.ts:130-143 | if at most `nonceCacheSize` requests pass within any span of twice the age limit, a verbatim request passes at most once in the whole run, however often and however late it is replayed |
| NonceCache.RateIsTight | packages/agent/src/agent.ts:136-141 | the rate is the best possible: with one pass more at one moment, a request passes twice, for every cache size and age limit |
| NonceCache.PassesAgainIff | packages/agent/src/agent.ts:130-143 | a nonce that has not passed since passes again if and only if the request is fresh and at least `nonceCacheSize` others have passed in between |
| NonceCache.EvictedPasses | packages/agent/src/agent.ts:136-141 | the bound is exact: after that many others, a fresh replay does pass |
| Responder.StreamHandler | packages/agent/src/skills.ts:93-111 | yields the non-empty deltas in order, and returns the trim of all the text said |
| Responder.TextsKeepSpoken | packages/agent/src/skills.ts:104-110 | skipping empty and non-string deltas loses no text |
| Responder.Serve | packages/agent/src/agent.ts:266-294 | sends chunks 0, 1, ... up to the first send that fails, and then the response if its own send holds, each at its own time; the response is the output, the handler's error, or the error of the failed send; signs exactly one record a send tried; attests only after a response |
| Responder.ServedIsHeard | packages/agent/src/caller.ts:84-187 | what a caller hears, in order and in time, of a run that was answered: the texts up to the first failed send, then the output, the handler's error, or the error of that send |
| Responder.Admit | packages/agent/src/agent.ts:211-249 | admits exactly the requests that pass every check, in order; a fresh nonce is spent even by a refused one |
| Responder.OtherRecordsDoNotMatter | packages/agent/src/protocol.ts:33-37 | records signed for other ids, callers or skills, or for other purposes, do not disturb a run |
| AgentRun.HandleSkillRequest | packages/agent/src/agent.ts:211-294 | one delivery is admitted or refused and, if admitted, served; a refusal signs and sends exactly one error, for its id, caller and skill |
| AgentRun.HandleAll | packages/agent/src/agent.ts:96-128 | the inbox loop handles deliveries one after the other, each with its own clock, failing sends and error texts, and what results is a run |
| AgentRun.RunIsOneRun | packages/agent/src/agent.ts:130-143 | when what a sender sends with one id is one request, and requests pass below the rate of `NonceCache.AtMostOnce`, everything the agent ever signs is one run's for each id, caller and skill, however often and however late requests are replayed |
| AgentRun.CallerSeesTheServedRun | packages/agent/src/caller.ts:84-187 | over such a run, whatever the network repeats, drops, reorders and injects: the texts shown are a prefix of those of the one delivery served, a success carries its output, and a request never served shows nothing |
| AgentRun.FinalIsTheServedOutput | packages/agent/src/caller.ts:206-279 | the same for `callSkill` |
| Caller.CallSkillStream | packages/agent/src/caller.ts:66-187 | the polling loop computes the specified outcome and the texts passed to `onChunk`, in order |
| Caller.CallSkill | packages/agent/src/caller.ts:189-279 | the non-streaming loop computes the specified outcome |
| Caller.ReturnedIsAccepted | packages/agent/src/caller.ts:84-187 | an output returned is that of a response polled before the deadline, fresh when checked, signed by the peer called, for this caller and skill |
| Caller.ShownIsAccepted | packages/agent/src/caller.ts:102-134 | each text shown is that of a chunk as fresh, as genuine, and with the next number |
| Caller.FinalIsAccepted | packages/agent/src/caller.ts:206-279 | the same for the output `callSkill` returns |
| Caller.StaleEndsTheCall | packages/agent/src/caller.ts:114-154 | a message for this call that is in order and from the right peer but too old when checked ends the call with that failure, in both loops |
| Caller.DeadlineEndsTheCall | packages/agent/src/caller.ts:84-100 | the first poll at or after the deadline ends a call that still waits, in both loops |
| Caller.ChunkFaultMeans | packages/agent/src/caller.ts:102-134 | which failure each defect of a chunk gives, and that a chunk without one passes |
| Caller.ResponseOutcomeMeans | packages/agent/src/caller.ts:135-184 | which failure each defect of a response gives, signed errors included, and that one without is returned |
| Caller.ShownIsGenuinePrefix | packages/agent/src/caller.ts:84-187 | if the records signed for a call are one run's, then against a network that drops, repeats, reorders and injects but cannot forge, the texts shown are a prefix, in order, of those emitted, and a success carries the handler's output |
| Caller.FinalIsGenuine | packages/agent/src/caller.ts:206-279 | the same for `callSkill`, under the same supposition |
| Caller.LoopsAgree | packages/agent/src/caller.ts:189-279 | where the streaming loop succeeds, `callSkill` on the same messages succeeds with the same output |
| Caller.InOrderDelivery | packages/agent/src/caller.ts:84-187 | chunks and response delivered in order and in time are all accepted, up to the output |
| Caller.ShowsEverythingIff | packages/agent/src/caller.ts:84-187 | a success showed the first n texts, n being the number of its chunks that arrived before the response, so everything if and only if as many arrived as were emitted |
| Caller.AnyPrefixCanSucceed | packages/agent/src/caller.ts:155-184 | the response does not bind the number of chunks: losing the last ones leaves a successful call that showed any prefix |
| Completeness.TruncatedRun | packages/agent/src/caller.ts:155-184 | for every stream and every place to cut it, a run with nothing forged in which the call succeeds and shows only the texts before the cut |
| Completeness.EveryStreamCanBeServed | packages/agent/src/agent.ts:211-294 | for every stream there is a run of the agent that serves it, a caller that shows all of it, and one that returns its summary without looking at chunks: what is proved of such runs is about calls that happen |
| Completeness.SummaryTellsIff | packages/agent/src/skills.ts:104-110 | the caller's test: a text skill's summary is the trim of what was shown if and only if nothing but white space is missing |
| Envelope.MessageRoundTrip | packages/agent/src/protocol.ts:118-145 | printing a chunk or response, parsing it and applying the guards gives the message back, every field as sent |
| Envelope.ChunkGuardIff | packages/agent/src/protocol.ts:135-145 | exactly what passes for a chunk |
| Envelope.ResponseGuardIff | packages/agent/src/protocol.ts:131-133 | exactly what passes for a response, and that any truthy `ok` makes it a success |
| Envelope.BadChunkStopsTheCall | packages/agent/src/caller.ts:102-134 | a chunk for this call that passes the guard with a field no signed record can have makes the call fail |
| Envelope.LookupWired | packages/agent/src/caller.ts:115-154 | reading a property commutes with the wire, undefined members included |
| LocalBus.Fifo | packages/agent/src/local-bus.ts:32-47 | per inbox, what was received and what is still queued make up exactly what was sent since it was opened, in order |
| LocalBus.Bus.SendTo | packages/agent/src/local-bus.ts:32-37 | appends to the addressee's queue, or is refused when there is no such inbox |
| LocalBus.Bus.RecvOnce | packages/agent/src/local-bus.ts:43-47 | hands out the oldest packet, or nothing |
| Route.ForwardsAreBounded | packages/agent/src/skills.ts:288-306 | over any routing tables, cyclic ones included, and any lost hops: fewer than budget + 1 forwards, none without budget, and never more than the payload nests |
| Route.WholeBudget | packages/agent/src/skills.ts:289-306 | with a whole-number budget, at most that many forwards |
| Route.TraceIsThePath | packages/agent/src/skills.ts:335-356 | a success was answered by one non-router at the end of a connected path through routers, and carries that path before any trace of its own |
| Route.SucceedsIff | packages/agent/src/skills.ts:288-356 | a call succeeds with an answer if and only if following the nested tags leads, over hops none of which is lost and routers none of which is out of budget, to a skill that gives that answer on the payload nested as deep as it is hops away, or on undefined where there is none |
| Route.RouterRefusesIff | packages/agent/src/skills.ts:288-340 | which refusal a router gives, in the order of its checks |
| Route.ThreeHopsByDefault | packages/agent/src/skills.ts:288-306 | a request that names no budget has three hops |
| Route.UntouchedIffNoTrace | packages/agent/src/skills.ts:344-356 | the terminal output arrives untouched, with exactly the path as trace, if and only if it has no `trace` array |
| Channel.NoLostWakeup | Frontend/lib/call-server.ts:401-457 | over every interleaving the consumer never sleeps while a chunk waits or the call is done, and has yielded a prefix of what was pushed |
| Channel.FinishedYieldsAll | Frontend/lib/call-server.ts:446-457 | a consumer that left its loop has yielded exactly the chunks pushed before the call settled, in order |
| Channel.DrainsWhenDone | Frontend/lib/call-server.ts:446-455 | once the call is done, one step per waiting chunk and one more finish the consumer |
| Channel.SleepsWhenDrained | Frontend/lib/call-server.ts:446-455 | while the call goes on, the consumer yields what is waiting and then sleeps |
| Channel.ChunkChannel.RunToSuspension | Frontend/lib/call-server.ts:446-455 | one stretch of the generator: the next chunk, or sleep, or the end |
| Framing.SplitInvisible | Frontend/app/call/[ens]/call-panel.tsx:109-116 | on text without CR, reading it in any pieces finds the frames and the tail of the whole text |
| Framing.CutLosesNothing | packages/sdk/src/compute-direct.ts:154-158 | frames with their blank lines and the tail are the whole text |
| Framing.NoBlankLineLeft | packages/sdk/src/compute-direct.ts:156-158 | between reads the buffer holds no blank line |
| Framing.PerReadNormalisationExact | packages/sdk/src/compute-direct.ts:154-158 | normalising each read alone gives the normalised whole, and the reader its frames and tail, if and only if no read boundary cuts a CRLF pair |
| Framing.CutPairLosesFrame | packages/sdk/src/compute-direct.ts:149-156 | a cut pair can lose a frame: a concrete text and split |
| Framing.NormaliseAtPair | Frontend/app/call/[ens]/call-panel.tsx:109-116 | each CRLF pair becomes one line feed and all other text stays as it is |
| Framing.LinesJoin | packages/sdk/src/compute-direct.ts:159-161 | joining the lines of a frame with line feeds gives the frame, and no line holds one |
| Sse.SseRoundTrip | Frontend/app/call/[ens]/call-panel.tsx:105-139 | for every sequence of events and every split of the printed text, the parser yields exactly that sequence and keeps nothing back |
| Sse.ReceivedSameMeaning | Frontend/app/api/call/route.ts:78-92 | each event arrives under its name with its meaning |
| Sse.Fire | Frontend/app/call/[ens]/call-panel.tsx:105-139 | the reading loop shows the events of all complete frames, in order |
| Sse.ReadFrame | Frontend/app/call/[ens]/call-panel.tsx:117-129 | the event in a frame; no data, or data that is not JSON, is skipped |
| Sse.NullStopsThePanel | Frontend/app/call/[ens]/call-panel.tsx:119-139 | a null payload of a chunk, final or error event stops the reader: nothing is shown any more |
| Sse.Send | Frontend/app/api/call/route.ts:78-92 | the text enqueued is the printed events, one after the other |
| DirectStream.Stream | packages/sdk/src/compute-direct.ts:143-174 | the nested loops take every complete frame, line by line, and leave the tail |
| DirectStream.IncrementalRefinesBatch | packages/sdk/src/compute-direct.ts:143-174 | for CR-free text split any way: deltas, chat id and last usage are those of the whole text cut at once, and only the unterminated tail is ignored |
| DirectStream.IncrementalRefinesNormalised | packages/sdk/src/compute-direct.ts:149-154 | with CRs, the same against the normalised text when no boundary cuts a pair |
| DirectStream.HeaderDecidesChatId | packages/sdk/src/compute-direct.ts:141-165 | a header key, or the first usable id, is never replaced |
| DirectStream.DeltasGrow | packages/sdk/src/compute-direct.ts:167-168 | deltas are only added at the end, and none is empty |
| Provider.UsageIsLast | packages/sdk/src/compute-direct.ts:164-168 | the usage is that of the last chunk to report one |
| Provider.StreamRoundTrip | packages/sdk/src/compute-direct.ts:143-174 | a printed stream of chunks and `[DONE]`, read in any pieces, is taken chunk by chunk, in order, with nothing left over |
| Provider.ProvidedIsSpoken | packages/sdk/src/compute-direct.ts:164-168 | the deltas of streamed completions are their non-empty contents in order, all the text is said, and the chat id is the header's or else theirs |
| Provider.ProvidedReachesThePanel | Frontend/lib/call-server.ts:401-517 | from the provider's stream to the panel, split any way at either end: the text shown is the contents streamed |
| Pipeline.ServeTextSkill | packages/agent/src/agent.ts:266-294 | generator and agent together send chunks 0..k-1 of the stream and then exactly one response with the trimmed whole |
| Pipeline.BusDelivers | packages/agent/src/local-bus.ts:39-47 | through a drained inbox, what the caller's loop looks at is the agent's messages as sent, whatever else was in the inbox that any reader of JSON does not take for this call's |
| Pipeline.CallerHears | packages/agent/src/caller.ts:84-187 | in time, the caller shows every delta and returns the summary |
| Pipeline.ShownIsPrefixOfSpoken | packages/agent/src/caller.ts:84-187 | on any network that cannot forge, the text shown is at every moment a prefix of what the model said |
| Pipeline.ShowCall | Frontend/lib/call-server.ts:446-517 | the panel after the events of a successful call: all the text, the trace, no error, and the result with its output |
| Pipeline.ShowFailure | Frontend/app/call/[ens]/call-panel.tsx:119-139 | a final event of a failed call shows its result and its error, and keeps the text so far |
| Pipeline.ShowError | Frontend/app/call/[ens]/call-panel.tsx:119-139 | an error event shows its error, and keeps the text and the trace |
| Pipeline.StreamReachesThePanel | Frontend/lib/call-server.ts:401-517 | for every interleaving, schedule and read split in which no timeout or freshness check fires and nobody else uses the call's id, the panel's text is the model's text and the summary is its trim |
| DirectRun.EveryStreamCanArrive | packages/agent/src/agent.ts:266-294 | for every stream there is a run with everything the end-to-end theorem supposes, so no stream gets stuck for want of one |
| RateLimit.Limiter.RateLimit | Frontend/lib/rate-limit.ts:18-37 | every answer is that of the limiter that never collects |
| RateLimit.Limiter.Collect | Frontend/lib/rate-limit.ts:39-44 | only expired buckets are deleted |
| RateLimit.ServeAll | Frontend/lib/rate-limit.ts:18-44 | a new limiter, collection and all, fed any calls with fixed parameters per key, grants no key more than `2 * limit - 1` calls within any window-long interval |
| RateLimit.AtMostTwiceTheLimit | Frontend/lib/rate-limit.ts:18-37 | no half-open interval as long as the window sees more than `2 * limit - 1` allowed calls of one key |
| RateLimit.BoundIsTight | Frontend/lib/rate-limit.ts:18-37 | that many are reached by a concrete run of calls |
| RateLimit.RemainingIsExact | Frontend/lib/rate-limit.ts:18-37 | of the calls of a key that follow before `resetAt`, exactly the first `remaining` are allowed, and each is told the same `resetAt` |
| RateLimit.WindowRestarts | Frontend/lib/rate-limit.ts:18-37 | the first call at or after `resetAt` starts a new window |
| AuthNonce.MessageBindsChallenge | Frontend/lib/wallet-auth.ts:22-33 | a message fits one action, owner, name and nonce only, whatever is in the name |
| AuthNonce.ExtractBuilt | Frontend/lib/wallet-auth.ts:77-80 | the nonce found in a built message is its own unless the name holds a nonce line, and then it is that one |
| AuthNonce.NonceLineIff | Frontend/lib/wallet-auth.ts:77-80 | a nonce line is the label, 32 lower-case hexadecimal digits and a line feed |
| AuthNonce.AtMostOneSuccess | Frontend/lib/wallet-auth.ts:69-120 | over every interleaving of any number of verifications: at most one success per nonce, and a row is consumed exactly when it has one in-flight holder, finished success or burn |
| AuthNonce.SuccessIsGenuine | Frontend/lib/wallet-auth.ts:82-119 | a success is a valid signature over the very message issued, for its owner and name, before it expired |
| AuthNonce.SuccessAnswersAnIssue | Frontend/lib/wallet-auth.ts:35-120 | each success answers a challenge that was issued, with the message built for its action, owner, name and nonce, and began less than a minute after it was issued |
| AuthNonce.RowsStayUntilExpired | Frontend/lib/wallet-auth.ts:35-67 | nothing deletes a row before it expires, and nothing changes what it says |
| AuthNonce.SettleSucceedsIff | Frontend/lib/wallet-auth.ts:100-120 | a verification ends in success if and only if the check did not throw and the owner's wallet signed the message |
| AuthNonce.BadSignatureRollsBack | Frontend/lib/wallet-auth.ts:110-118 | after a bad signature the row is as before it was taken, whatever others did meanwhile, unless it expired |
| AuthNonce.HonestAnswerSucceedsIff | Frontend/lib/wallet-auth.ts:35-120 | a fresh challenge answered in time succeeds if and only if the name holds no nonce line with another nonce; the failing case needs a direct call, as the challenge route refuses such names |
| AuthNonce.PlainNameSucceeds | Frontend/lib/wallet-auth.ts:35-120 | for a name without line feeds, as every name the route accepts is, the honest answer always succeeds |
| AuthNonce.Nonces.BeginVerify | Frontend/lib/wallet-auth.ts:69-98 | takes the row in one update, or refuses; a wrong message burns it |
| AuthNonce.Nonces.FinishVerify | Frontend/lib/wallet-auth.ts:100-120 | succeeds on a valid signature, else puts the row back |
| Directory.ScoreIsOkOverLookback | packages/sdk/src/rep.ts:117-135 | the score is successes over lookback, within [0, 1], 1 only for a full window of successes and 0 only without any |
| Directory.PlainScoreIsUnpenalised | packages/sdk/src/rep.ts:94-99 | the plain ratio is the score without its penalty: equal exactly for a full window or no success |
| Directory.OneAttestationMovesLittle | packages/sdk/src/rep.ts:117-135 | one new attestation moves a score by at most 1/lookback, in the direction of its outcome, and not at all if it is not about the skill |
| Directory.OthersDoNotScore | packages/sdk/src/rep.ts:117-126 | an attestation about another callee, or about another skill than the one asked for, changes no score |
| Directory.OwnDoScore | packages/sdk/src/rep.ts:117-126 | one about the callee and the skill counts, by its outcome |
| Directory.CandidateIff | packages/sdk/src/directory.ts:81-117 | who is a candidate: an agent with records, a card and the skill on it; and who scores nothing |
| Directory.DirectoryScore | packages/sdk/src/directory.ts:105-115 | for any reachable chain, a listed score is the skill's successes among the newest `lookback` attestations of any skill, so at most what `scoreFor` gives on the whole chain |
| Directory.ScoreAgreesWithStats | packages/sdk/src/directory.ts:105-115 | while an agent's chain fits the window, its public score is its own count of successes over the lookback |
| Directory.ListedIff | packages/sdk/src/directory.ts:66-79 | exactly the eligible candidates with fewer than `limit` eligible ones before them are listed, best first, earlier seeds first among equals |
| Directory.ListedCount | packages/sdk/src/directory.ts:66-79 | how many are listed: all the eligible ones up to the limit; a negative limit leaves out that many at the end |

## Left out

- Cryptography: Ed25519, keccak256, AES-GCM and random generation are ideal, as said above.
- Numbers are identified by the text JavaScript prints for them; `-0` prints as `0`, and integers are below 10^21.
- Values that are not JSON (dates, functions, big integers) are not modelled; `NonFinite` stands for NaN and infinities.
- JsonParse.ParseUndoesStringify: the reader takes the compact text `JSON.stringify` prints; white space, duplicate keys and other spellings of a number are not modelled there. What a caller makes of foreign text is a parameter of the results about the bus, which need it to agree on the agent's own messages only.
- Text decoding is left out: reads are sequences of UTF-16 units, as if each read ended between characters; that encoding loses nothing is proved.
- Public keys and addresses are taken to be in lower case already; checksummed spellings of addresses are not modelled.
- Envelope.BadChunkStopsTheCall: one error stands for the several ways such a message makes the call fail; keys sign the six records only, so a signature over a fractional `seq` or `ts` does not exist.
- Caller.ShownIsGenuinePrefix: only a prefix is guaranteed, although packages/agent/src/protocol.ts:82-86 says the response binds the whole sequence; the code does not, as `TruncatedRun` shows, and `ShowsEverythingIff` says exactly when everything was shown.
- Caller.ShownIsGenuinePrefix: supposes that the records signed for the call are one run's, which `AgentRun` derives from the replay guard.
- AgentRun.RunIsOneRun: supposes that a sender draws a new id for each request, that the bus names the true sender, and the arrival rate; `NonceCache.RateIsTight` shows that a higher rate lets a request pass twice.
- Chain.LinearChain: says nothing about progress after a failure; `PoisonIsFinal` shows that there is none.
- Snapshot.AnchoredRootsAreLinear: rotations do not overlap, as `maybeSnapshot` ensures; `Overlap` shows what overlapping direct calls of `snapshotNow` can do, the head being seeded outside the lock. A second writer, and a transaction landing after the process that sent it died, are left out.
- The snapshot writer in Frontend/app/api/snapshot/route.ts starts every chain at null and is outside the ancestry theorem.
- Snapshot contents are one number there; `Domains` has the full record and `AgentStats.Stats.SignThenUpload` the shallow copy.
- AgentStats.ReputationAgreesWithStats: agents with a reputation chain; without one `attest` does nothing and the statistics count alone.
- Responder.Admit: the payment and input checks are booleans; receipts are not single-use in the code, so nothing holds over runs.
- AgentRun.HandleSkillRequest: the texts of refusals and of failed sends are parameters, as are the clock and which sends get through.
- Route.ForwardsAreBounded: budgets are exact reals, where the code subtracts in floating point and loses whole steps from 2^53 on; a router's failed hop is one error, without its text.
- Pipeline.StreamReachesThePanel: supposes that no timeout or freshness check fires; without that, `ShownIsPrefixOfSpoken` holds.
- Sse.Fire: `String()` of a chunk's text that is not a string is a parameter, and a null payload stops the panel's reader.
- RateLimit.AtMostTwiceTheLimit: one limit and one window per key, limit at least 1, and a clock that does not go back.
- AuthNonce.AtMostOneSuccess: nonces are fresh when drawn, and an update of the collection is atomic.
- Directory.ScoreIsOkOverLookback: ratios are exact reals and the lookback is at least 1.
- The sentiment skill's handling of its label, the non-streaming handlers, input schemas, agent-card validation and API errors are single-branch checks.
- Network clients (AXL, ENS, 0G storage and compute, KeeperHub, Mongo), React rendering, wizards, demos and deployment are not part of this model.
