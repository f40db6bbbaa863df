# Causal Frontier Ratchet: a verified model

This project models the protocol and storage core of the Causal Frontier Ratchet (CFR), a leaderless
group key agreement over a causal graph of signed operations, together with its media layer and its
crash-safe store, and proves what that core promises. `dafny verify dfyconfig.toml` checks all of it.

## How the model is built

- **Values and objects.** Each component has specification functions on values. Components the source
  updates in place (`Dag`, `NodeKeys`, `Participant`, `PrekeyPool`, `Chan`, `RecvChan`, `Replay`, the
  ratchets, `Protector`, `Writer`, `Reader`, `LogicalState`) are classes whose methods run the source's
  loops and are proved against those functions. Theorems over whole runs are lemmas about the functions.
- **Numbers.** Identifiers, digests and tags are the numbers their big-endian bytes denote, so the byte
  order of sorted containers is `<`; `BigEndian` proves that. 64-bit limits are explicit.
- **Cryptography.** Hashes, key derivations, commitments, signatures, checksums and the cipher are
  function parameters. Where a law is needed (no two opened secrets share a commitment, a lawful
  cipher, no collision between two signed images) it is a named hypothesis of the theorem that needs
  it, on the values that occur. Chaining by exclusive or is modelled on sets of one-bits.
- **Choices outside the model.** Fresh randomness, prekey state and channel contents enter a
  participant as the parameter `Env`, which allows more than the code does; `PoolRuns.Follows` picks the
  ones that answer as a prekey pool does, where exactness needs it. Failures, torn writes and crash
  points enter the store as data of each event.

| files | content |
|---|---|
| `Base`, `BigEndian`, `Ops` | shared types, fixed-width integers, operations |
| `Graph`, `Traversal`, `Topological`, `Dag` | causal graph, worklists, contraction, ordering |
| `Membership`, `Roster`, `Frontier`, `Keys` | remove-wins roster, frontier, node and group keys |
| `Replica`, `Convergence`, `Sync`, `Exchange`, `Participant` | ingest and repair, delivery-order independence, anti-entropy |
| `Prekey`, `Leftover`, `PoolRuns`, `Leaver` | the prekey pool, exactly when an exchange leaves nothing over, and one that does |
| `Contribution`, `Agreement`, `Reunion`, `Channel` | contributing and removing, key agreement over all runs, channels |
| `Layout`, `Bitstream`, `Stability`, `Frame` | codec layouts, when they survive encryption, frame round trip |
| `Replay`, `Ratchet`, `Media`, `MediaRuns`, `Protector`, `MediaState`, `MediaImport` | media protection and its persisted state |
| `Wal`, `Store`, `Crash` | log formats, recovery, the store as a machine with crashes |
| `Outbox`, `LogicalCodec`, `Durable` | bookkeeping, its codec, and both over the store |
| `Coders`, `MapCoder`, `Tlv`, `TlvIo`, `OpCodec`, `Wire` | canonical codecs |

## Where the code is not what one might expect

- **Layouts and encryption.** The receiver recomputes the layout from the ciphertext. For Annex B
  frames, for unrecognised H.264 and H.265 frames of three bytes or more, and for AV1 frames that do
  not parse, some ciphertext has a different layout and the frame is lost. `StableExactly` and
  `RoundTripExactly` give the exact condition `KeepsGeometry` for every codec; `FrameMisread` builds a
  failing cipher for every frame outside it.
- **Checkpoint errors after the log rename.** If the directory sync or the reopening fails after the
  fresh log was renamed into place, the store keeps writing to the replaced file. Commits that return
  after that are lost in a crash (`OrphanedCommitIsLost`) and their outbox identifiers are given out
  again (`OrphanReusesIdentifier`), until a later checkpoint succeeds. `NothingLostExactly` states when
  nothing can be lost; a caller who reopens after every error is safe (`PrudentCrashAtomicity`,
  `DurableExactlyOnce`).
- **Publishing without membership.** Learning an operation can make a participant publish prekeys even
  while it is not a member. Such a publication is unauthorised, and what is chained onto it can never
  be stored elsewhere: it waits in the other side's pending buffer for good (`LeaverLeavesResidue`).
  Graph union, frontier and roster are unaffected (`SyncConverges`); `ExchangeExactly` gives the exact
  condition for nothing to be left over, on the requester's graph, its prekey pool and the delivery.
- **Log limit below the log header.** Options allow a log limit under twelve bytes; such a store is
  created and can never be opened again (`OpensExactly`).
- **Receive buffer.** It stays strictly ahead of the position except for the largest 64-bit index
  (`LastSliceStaysBehind`).
- **A refused packet** from a roster member creates a fresh, unstarted receiver entry; ratchets and
  windows are unchanged (`RefusedChangesNothing`).
- **Documentation.** `docs/protocol.md` gives a 13-byte trailer and says a sync request lists all
  identifiers; the code has a 33-byte trailer and sends heads. The model follows the code.

## Model

| member | source | states |
|---|---|---|
| `DagModule.Dag.Add` | crates/cfr-core/src/dag.rs:76-96 | insertion keeps the graph well formed, is idempotent, refuses past the operation limit, bumps the epoch exactly when the graph changes, and drops the cache only then |
| `DagModule.Dag.Ancestors` | crates/cfr-core/src/dag.rs:104-124 | through the cache or by search, the answer is exactly the strict causal past |
| `Traversal.Walk` | crates/cfr-core/src/dag.rs:104-124 | the worklist search terminates with exactly the reachability set |
| `DagModule.Dag.CausalClosure` | crates/cfr-core/src/dag.rs:131-141 | the known heads with everything before them, unknown heads ignored |
| `DagModule.Dag.PrecedesIn` | crates/cfr-core/src/dag.rs:144-146 | decides strict causal precedence |
| `DagModule.Dag.HeadsOf` | crates/cfr-core/src/dag.rs:149-159 | the unreferenced operations; their closure is the whole graph |
| `Graph.HeadsImplyAll` | crates/cfr-core/src/dag.rs:126-159 | the causal closure of the heads is every operation, in every well-formed graph |
| `DagModule.Dag.Compact` | crates/cfr-core/src/dag.rs:166-211 | the graph is exactly the kept operations, still well formed, and precedence on every kept pair is what it was |
| `Traversal.ContractionPreservesPrecedence` | crates/cfr-core/src/dag.rs:161-211 | rewiring every survivor to its nearest surviving ancestors yields an acyclic graph with the same precedence between survivors |
| `Traversal.RewireAll` | crates/cfr-core/src/dag.rs:166-211 | the contraction worklists compute exactly the nearest surviving ancestors |
| `DagModule.Dag.TopologicalOrder` | crates/cfr-core/src/dag.rs:215-247 | a permutation of all operations with every operation after its parents |
| `Topological.Order` | crates/cfr-core/src/dag.rs:215-247 | the same for the loop itself, with an in-degree table that cannot underflow |
| `RosterLoops.CountedRemoves` | crates/cfr-core/src/membership.rs:66-93 | collects exactly the evictions that count: self, administrator, proven accusation, or a quorum of distinct authors voting once each |
| `RosterLoops.MembersIn` | crates/cfr-core/src/membership.rs:105-130 | the loop computes exactly the identities with an admission that every counted eviction precedes |
| `RosterLoops.MembersBeforeFast` | crates/cfr-core/src/membership.rs:139-152 | filtering the full graph gives the roster in the operation's past |
| `RosterLoops.MembersBeforeReference` | crates/cfr-core/src/membership.rs:155-177 | rebuilding the induced graph operation by operation gives the same roster |
| `Membership.FilteredEqualsInduced` | crates/cfr-core/src/membership.rs:132-177 | evaluating a causally closed part inside the full graph equals evaluating it alone |
| `Membership.VerdictIsStable` | crates/cfr-core/src/membership.rs:198-239 | any two graphs that know an operation agree on its authorisation, unless it is a dependency-free self-admission, whose verdict is exactly that no other author has founded |
| `Membership.EvictionPersists` | crates/cfr-core/src/membership.rs:66-93 | a counted eviction of an admission stays witnessed under growth even when its author's ballot is replaced by one with a lower identifier |
| `Membership.EvictionIsPermanent` | crates/cfr-core/src/membership.rs:100-130 | an evicted identity is a member of a larger graph if and only if an admission new since then has every counted eviction in its past |
| `Membership.NoResurrection` | crates/cfr-core/src/membership.rs:100-130 | without a new admission an eviction is final in every extension |
| `Frontier.ComputeTips` | crates/cfr-core/src/keys.rs:22-36 | the covering loop yields exactly the contributions no other contribution descends from |
| `Frontier.ContractionKeepsTips` | crates/cfr-core/src/keys.rs:16-36 | contraction leaves the frontier unchanged if and only if it keeps the frontier |
| `Frontier.TipsIgnoreOthers` | crates/cfr-core/src/keys.rs:16-36 | operations that are not contributions do not move the frontier |
| `Frontier.NewTipDominates` | crates/cfr-core/src/keys.rs:16-36 | a contribution signed on top of everything known becomes the whole frontier with everything in its past |
| `Keys.CombineOrderIndependent` | crates/cfr-core/src/keys.rs:129-135 | the combined key of a set does not depend on the listing order |
| `Keys.GroupKeyDependsOnTips` | crates/cfr-core/src/keys.rs:161-179 | two stores that agree on the frontier's node keys derive the same group key |
| `Keys.InsertKeeps` | crates/cfr-core/src/keys.rs:98-110 | insertion keeps the window valid and bounded, stores the new key, changes no other, and drops only the oldest |
| `Keys.NodeKeys.Put` | crates/cfr-core/src/keys.rs:98-110 | the eviction loop realises that insertion |
| `Keys.NodeKeys.Touch` | crates/cfr-core/src/keys.rs:113-118 | moves a node key to the most recent place and ignores an absent one |
| `Keys.NodeKeys.CombineKeys` | crates/cfr-core/src/keys.rs:129-135 | combines exactly the requested keys and fails closed when one is absent |
| `ParticipantModule.Participant.GetDerived` | crates/cfr-core/src/member.rs:299-325 | frontier, roster, roster digest and version label, cached or not, are what recomputation gives |
| `ParticipantModule.Participant.IsAuthorised` | crates/cfr-core/src/member.rs:439-457 | the memoised verdict is what recomputation gives, in every reachable object state |
| `ParticipantModule.Participant.IngestOp` | crates/cfr-core/src/member.rs:938-1001 | ingest refuses, deduplicates, parks, overflows, applies and reacts exactly as specified, keeping both caches coherent |
| `ParticipantModule.Participant.DrainPending` | crates/cfr-core/src/member.rs:1227-1252 | the drain loop realises repeated passes until one makes no progress |
| `ParticipantModule.Participant.HandleOps` | crates/cfr-core/src/member.rs:852-866 | an operation or a delivery is ingested and then drained |
| `ParticipantModule.Participant.HandleSync` | crates/cfr-core/src/member.rs:867-898 | the answer holds, in dependency order, what the requester's heads do not imply |
| `Convergence.StillAuthorised` | crates/cfr-core/src/member.rs:938-1001 | an operation of an authorised target is authorised wherever its dependencies have arrived |
| `Convergence.StuckIsEmpty` | crates/cfr-core/src/member.rs:1221-1252 | when every operation of a closed target has arrived and no parked one is ready, nothing is parked and the target is complete |
| `Convergence.AnyOrderConverges` | crates/cfr-core/src/member.rs:938-1001 | any order, duplication and batching of a closed authorised target leaves nothing pending and holds the target plus own publications |
| `Convergence.PublicationsAreInvisible` | crates/cfr-core/src/member.rs:1221-1252 | publications made in reaction change neither frontier nor roster |
| `Convergence.OrdersAgree` | crates/cfr-core/src/keys.rs:22-50 | two receivers of one target agree on frontier, roster and version label |
| `Sync.HeadsDoNotOverclaim` | crates/cfr-core/src/member.rs:867-898 | what the responder infers from heads the requester does hold |
| `Sync.ReverseExactly` | crates/cfr-core/src/member.rs:885-898 | a head is unknown here exactly when the requester holds something unknown here |
| `Sync.InOrderNeverParks` | crates/cfr-core/src/member.rs:858-866 | a delivery in dependency order never parks |
| `Sync.SyncTeaches` | crates/cfr-core/src/member.rs:864-898 | one answered request, whose heads may be those of an earlier state, gives the requester everything the responder holds with nothing pending, and the reverse request is sent exactly when needed |
| `Exchange.HandleMixed` | crates/cfr-core/src/member.rs:858-866 | publications the receiver finds unauthorised or cannot place hold up nothing but themselves: every operation of the target still enters |
| `Exchange.SyncConverges` | crates/cfr-core/src/member.rs:864-960 | whatever is published on the way, after both directions each side contains the union, only publications can be pending, and frontier and roster agree; if the first side stays a member whenever what it learns makes it publish, nothing is left over |
| `Leftover.UnevictedExchange` | crates/cfr-core/src/member.rs:864-960 | that condition holds whenever the first side is a member of its own graph and nothing the other side adds evicts it |
| `Leftover.CompleteExactly` | crates/cfr-core/src/member.rs:864-1001 | an exchange leaves nothing over if and only if everything the first side holds by then is authorised |
| `PoolRuns.SoundExactly` | crates/cfr-core/src/member.rs:938-1042 | in every execution that answers as the prekey pool does, everything the first side holds by then is authorised if and only if, by its own graph, pool and the delivery, it is a member at every operation that makes the pool rotate |
| `PoolRuns.ExchangeExactly` | crates/cfr-core/src/member.rs:864-1042 | so the exchange leaves nothing over if and only if that condition holds beforehand |
| `PoolRuns.SomeRunFollows` | crates/cfr-core/src/prekey.rs:72-112 | whatever the pool and the channels opened so far, some execution of the exchange answers as they do |
| `PoolRuns.MemberIsOrderly` | crates/cfr-core/src/member.rs:986-1042 | the condition holds for every pool when the first side stays a member at every operation that can make it publish |
| `PoolRuns.OpenIsOrderly` | crates/cfr-core/src/member.rs:991-1013 | and for a first side whose pool is open, member or not, when the delivery holds no request for its prekeys and no contribution addressed to it |
| `Prekey.PrekeyPool.AgreeFor` | crates/cfr-core/src/prekey.rs:83-96 | agrees exactly when not sealed and the peer's key is no low-order point, and seals once everyone expected was served |
| `Prekey.PrekeyPool.Rotate` | crates/cfr-core/src/prekey.rs:107-112 | a fresh open generation with nobody served |
| `Prekey.PrekeyPool.Tick` | crates/cfr-core/src/prekey.rs:60-65 | seals at the deadline |
| `Leftover.HandleShuns` | crates/cfr-core/src/member.rs:938-1001 | an operation not authorised in its own past enters no graph that agrees on that past, whatever is delivered and in whatever order |
| `Leftover.ChainedSticks` | crates/cfr-core/src/member.rs:1227-1252 | a publication chained onto an unauthorised one stays in the other side's buffer, or is lost to its limit |
| `Leaver.LeaverLeavesResidue` | crates/cfr-core/src/member.rs:864-1042 | a concrete exchange that meets every condition on the two graphs and yet, whatever the prekey pool, leaves such a publication behind in every execution: one side had left, was asked for prekeys twice, then was admitted again |
| `Sync.SignedByMember` | crates/cfr-core/src/member.rs:463-465 | what a current member signs on its heads is authorised and keeps the whole graph authorised |
| `Sync.SoundHasOneFounder` | crates/cfr-core/src/member.rs:1379-1403 | an authorised graph has one founding author |
| `Agreement.DerivationUnique` | crates/cfr-core/src/keys.rs:148-158 | where no two opened secrets share a commitment, a signed contribution fixes one tree of secrets, hence one node key |
| `Agreement.AbsorbIsCanonical` | crates/cfr-core/src/member.rs:678-704 | whatever secret a contributor delivers, what is absorbed is the canonical node key or nothing |
| `Agreement.StepKeepsGood` | crates/cfr-core/src/member.rs:1295-1367 | publishing, learning, opening, and sending and receiving welcomes and repair answers, each received late, often or never, keep every stored node key and every key under way canonical |
| `Agreement.RunKeepsGood` | crates/cfr-core/src/member.rs:185-194 | over every run from the founding state all node keys stored or under way are canonical |
| `Agreement.KeysAgree` | crates/cfr-core/src/keys.rs:161-179 | in every state of every run equal frontiers and roster digests give equal group keys whenever both sides can derive |
| `Agreement.SameNodeKey` | crates/cfr-core/src/keys.rs:98-135 | any two participants that hold a key for a node hold the same key |
| `Reunion.ExchangeThenSameKey` | crates/cfr-core/src/keys.rs:161-179 | in every state of every run two participants whose graphs come from a full exchange derive the same group key whenever both can |
| `Contribution.ContributionDominates` | crates/cfr-core/src/member.rs:555-634 | a successful contribution is the whole new frontier, has everything known in its past, keeps the roster, and its group key is exactly the fresh secret chained onto the replaced frontier |
| `Contribution.ContributedShape` | crates/cfr-core/src/member.rs:555-655 | the signed contribution names the chainable parents and the addressed members, and its own node key is stored |
| `Contribution.ContributionKeepsRoster` | crates/cfr-core/src/member.rs:555-634 | contributing does not change membership |
| `Contribution.RemoveCompletes` | crates/cfr-core/src/member.rs:789-840 | removing another party on the contributing path completes the removal |
| `Channel.Chan.Step` | crates/cfr-core/src/channel.rs:64-72 | hands out index and key of the current position and moves on, refusing at the last index without change |
| `Channel.Chan.Advance` | crates/cfr-core/src/channel.rs:47-61 | never wraps |
| `Channel.RecvChan.Offer` | crates/cfr-core/src/channel.rs:105-119 | releases the sender's key only for the next index and buffers at most 64 later ones |
| `Channel.RecvChan.Commit` | crates/cfr-core/src/channel.rs:124-130 | advances exactly for the next index |
| `Channel.RecvChan.TakeNext` | crates/cfr-core/src/channel.rs:133-140 | takes the buffered slice of the next index with its key |
| `Channel.RecvChan.Receive` | crates/cfr-core/src/member.rs:1051-1106 | one arrival with the drain that follows it realises the specification |
| `Channel.SessionInOrder` | crates/cfr-core/src/channel.rs:74-140 | over any arrivals what is committed is consecutive from the old position to the new one, the buffer stays bounded, and every buffered slice is strictly ahead or waits at the largest index |
| `Channel.CommittedIsSentPrefix` | crates/cfr-core/src/channel.rs:74-140 | under reordering, duplication, loss and forgery a fresh channel commits a prefix of what was sent, each index once and in order |
| `Channel.LastSliceStaysBehind` | crates/cfr-core/src/channel.rs:105-140 | the one exception to a buffer strictly ahead: a slice buffered for the largest index is left behind when the position reaches it |
| `Bitstream.FindStartCodes` | crates/cfr-media/src/codec/h264.rs:24-43 | the scan loop finds the specified start codes |
| `Bitstream.FindLengthPrefixed` | crates/cfr-media/src/codec/h264.rs:65-85 | the loop splits length-prefixed frames and refuses all others |
| `Layout.BuildLayout` | crates/cfr-media/src/codec/h264.rs:88-112 | the accumulation and merging loops compute the specified layout |
| `Layout.FromUnitsTiles` | crates/cfr-media/src/codec/h264.rs:88-112 | units that follow one another give a layout that tiles the frame |
| `Bitstream.LayoutWithHeader` | crates/cfr-media/src/codec/h264.rs:114-126 | container detection in order Annex B, length prefixed, protect everything |
| `Bitstream.ReadLeb` | crates/cfr-media/src/codec/av1.rs:27-39 | the LEB128 loop, at most eight bytes |
| `Bitstream.WalkObus` | crates/cfr-media/src/codec/av1.rs:41-83 | the OBU walk, falling back to full protection |
| `Bitstream.EveryCodecTiles` | crates/cfr-media/src/codec/mod.rs:93-132 | every codec tiles every byte string: ordered, disjoint, gap-free |
| `Stability.Av1StableExactly` | crates/cfr-media/src/codec/av1.rs:41-83 | the AV1 layout survives replacing the secret bytes if and only if the frame parses or is empty |
| `Stability.NalStableExactly` | crates/cfr-media/src/codec/h264.rs:24-126 | the H.264 and H.265 layouts survive if and only if the frame is length prefixed, shorter than three bytes, or every Annex B unit is too short to form a new start code |
| `Stability.StableExactly` | crates/cfr-media/src/codec/mod.rs:119-132 | for every codec, the exact condition under which encryption keeps the layout |
| `Stability.Misreading` | crates/cfr-media/src/codec/h264.rs:47-62 | otherwise some ciphertext shows a changed byte as readable |
| `Frame.ScatterInPlace` | crates/cfr-media/src/frame.rs:140-147 | the in-place write realises the specification |
| `Frame.ScatterBack` | crates/cfr-media/src/frame.rs:131-147 | writing back what was gathered restores the frame whatever was scattered in between |
| `Frame.TrailerRoundTrip` | crates/cfr-media/src/frame.rs:84-107 | the 33-byte trailer survives the wire |
| `Frame.TrailerCanonical` | crates/cfr-media/src/frame.rs:94-107 | every accepted trailer is exactly what the encoder writes |
| `Frame.ProtectedParses` | crates/cfr-media/src/frame.rs:239-340 | a protected frame parses to its trailer, keeps every readable byte, and opens to the original when its layout is unchanged |
| `Frame.FrameRoundTrip` | crates/cfr-media/src/frame.rs:239-340 | for every frame whose geometry survives, opening undoes protecting |
| `Frame.FrameMisread` | crates/cfr-media/src/frame.rs:312-340 | for every other frame some lawful cipher makes opening fail to restore it |
| `Frame.RoundTripExactly` | crates/cfr-media/src/frame.rs:239-340 | opening undoes protecting under every lawful cipher if and only if the geometry survives |
| `ReplayModule.AcceptTracks` | crates/cfr-media/src/replay.rs:28-56 | an index is accepted exactly when it is new and inside the window, and the 64-bit word equals the accepted indices in the window |
| `ReplayModule.Replay.Offer` | crates/cfr-media/src/replay.rs:28-56 | the shifting implementation realises that specification |
| `RatchetModule.MediaRatchet.Send` | crates/cfr-media/src/ratchet.rs:38-54 | the loop advances the chain to the frame's epoch and refuses earlier ones |
| `RatchetModule.MediaRatchet.Receive` | crates/cfr-media/src/ratchet.rs:81-97 | the same with the bound on forward jumps |
| `RatchetModule.SameKeyBothSides` | crates/cfr-media/src/ratchet.rs:18-97 | whatever epoch a ratchet has reached, the key it releases is the one fixed for that frame |
| `ProtectorModule.Protector.InstallKey` | crates/cfr-media/src/frame.rs:193-226 | installing, reselecting and the retention loop |
| `ProtectorModule.Protector.ProtectFrame` | crates/cfr-media/src/frame.rs:239-277 | counter, ratchet and sealing of one frame, with every error path |
| `ProtectorModule.Protector.UnprotectFrame` | crates/cfr-media/src/frame.rs:280-340 | every check in order, state stored only after the tag verified |
| `ProtectorModule.SealFrame` | crates/cfr-media/src/frame.rs:249-276 | gather, seal, scatter in place, tag and trailer |
| `Media.TrimKeeps` | crates/cfr-media/src/frame.rs:216-225 | retention keeps the newest versions untouched and forgets exactly the others |
| `Media.SendOutcome` | crates/cfr-media/src/frame.rs:239-277 | in every reachable state sending fails only without a version or with the counter used up, and otherwise seals under the key fixed for sender and counter |
| `Media.OpenFromOk` | crates/cfr-media/src/frame.rs:298-335 | a packet is opened exactly when window, ratchet and tag allow it, only with the key fixed for its sender and counter |
| `MediaRuns.RunKeepsGood` | crates/cfr-media/src/frame.rs:160-340 | invariant of every run: send epoch max(counter-1,0)/256, receive epoch high/256, order a permutation of the versions, current retained, every ratchet on its chain |
| `MediaRuns.OpenedAtMostOnce` | crates/cfr-media/src/frame.rs:298-340 | over every run no counter of a sender is opened twice while the version is retained, and the window equals the opened counters |
| `MediaRuns.RefusedChangesNothing` | crates/cfr-media/src/frame.rs:303-331 | a refused packet changes neither ratchet nor window of anyone |
| `MediaRuns.CountersNeverRepeat` | crates/cfr-media/src/frame.rs:239-247 | while a version is retained its frames carry 0, 1, 2, … each once |
| `MediaRuns.EndToEnd` | crates/cfr-media/src/frame.rs:239-340 | the exact outcome of opening what a peer protected: replay, stale, or the original frame from the right sender |
| `MediaState.StateCanonical` | crates/cfr-media/src/state.rs:232-325 | parser and printer of the media state undo each other in both directions |
| `MediaImport.GoodImports` | crates/cfr-media/src/state.rs:121-325 | every reachable state passes every importer check |
| `MediaImport.StateSize` | crates/cfr-media/src/state.rs:269-273 | and fits the 4 MiB limit |
| `MediaImport.ReachableStatesSurvive` | crates/cfr-media/src/state.rs:232-325 | importing what any reachable state exports gives back that state |
| `MediaImport.ImportIsExact` | crates/cfr-media/src/state.rs:281-325 | accepted bytes are exactly what exporting the imported state writes |
| `Wal.RecordParses` | crates/cfr/src/persistence/store.rs:102-228 | a written record is read back whatever follows it |
| `Wal.PrefixIsTorn` | crates/cfr/src/persistence/store.rs:188-228 | every proper prefix of a record reads as torn, never as damage |
| `Wal.ParsedRecord` | crates/cfr/src/persistence/store.rs:188-228 | accepted bytes are exactly the encoding of the record |
| `Wal.SnapshotRoundTrip` | crates/cfr/src/persistence/store.rs:84-172 | a written snapshot is read back; damage and another format version are told apart |
| `Wal.ScanLog` | crates/cfr/src/persistence/store.rs:230-252 | the position loop realises the scan |
| `Wal.ScanCutsTornTail` | crates/cfr/src/persistence/store.rs:230-252 | the scan returns exactly the complete records and cuts exactly a torn last one |
| `Wal.ScanExact` | crates/cfr/src/persistence/store.rs:230-252 | whatever is accepted is a log of consecutive records followed by less than one record |
| `Store.SelectRecovered` | crates/cfr/src/persistence/state.rs:369-400 | the selection loop realises the specification |
| `Store.CoherentSelects` | crates/cfr/src/persistence/state.rs:369-400 | a snapshot and a log of one history select its last state |
| `Store.RecoverCoherent` | crates/cfr/src/persistence/state.rs:350-400 | reopening with any part of one further record on disk yields the live state, or that record when all of it arrived |
| `Crash.ReopenSound` | crates/cfr/src/persistence/store.rs:385-436 | after a crash at any file boundary reopening succeeds and finds exactly the survivor |
| `Crash.CommitAtomic` | crates/cfr/src/persistence/store.rs:445-522 | a commit with its checkpoint, failures, rollback and crashes: the state moves only when it returns |
| `Crash.StepAtomic` | crates/cfr/src/persistence/mod.rs:489-526 | what every operation guarantees, whatever fails |
| `Crash.CrashAtomicity` | crates/cfr/src/persistence/mod.rs:505-526 | over every run in which no commit returned through an orphaned handle, a crash reopens at the last state returned or the one in flight |
| `Crash.PrudentIsCareful` | crates/cfr/src/persistence/mod.rs:489-526 | a run in which every reported error is followed by reopening has no such commit |
| `Crash.PrudentCrashAtomicity` | crates/cfr/src/persistence/mod.rs:505-526 | crash atomicity for every caller who reopens after an error |
| `Crash.OpensExactly` | crates/cfr/src/persistence/store.rs:438-443 | a created store opens again if and only if its log limit leaves room for the 12-byte log header |
| `Crash.NothingLostExactly` | crates/cfr/src/persistence/store.rs:484-493 | every crash finds the last returned state if and only if the handle is not orphaned or the snapshot already holds that state |
| `Crash.OrphanedCommitIsLost` | crates/cfr/src/persistence/store.rs:484-493 | a checkpoint that errs after its log rename, then a commit that returns, then a crash: the commit is gone |
| `Outbox.LogicalState.Enqueue` | crates/cfr/src/persistence/state.rs:148-177 | the loop gives consecutive fresh identifiers or refuses without change |
| `Outbox.LogicalState.RecordInbound` | crates/cfr/src/persistence/state.rs:179-187 | the expiry loop keeps the newest entries |
| `Outbox.LogicalState.Receive` | crates/cfr/src/persistence/mod.rs:426-448 | duplicate, conflict, refusal, failed store and commit of one inbound message |
| `Outbox.RunKeeps` | crates/cfr/src/persistence/mod.rs:426-526 | over every run of committed calls identifiers are never reused, each delivery is pending or acknowledged and never both or lost, and the window is exactly the last processed identifiers |
| `Outbox.RetainedNeverReruns` | crates/cfr/src/persistence/mod.rs:426-448 | an identifier in the window never runs the protocol step again and is a duplicate exactly when its digest agrees; any other runs it |
| `Durable.DoKeeps` | crates/cfr/src/persistence/mod.rs:426-526 | one call, checkpoint or crash: the book in memory afterwards is the old one, or the call's when it returned or was found again in flight, and it is what the store would recover |
| `Durable.EveryRunIsSerial` | crates/cfr/src/persistence/mod.rs:426-526 | over every run in which no call returned through an orphaned handle, reopening always succeeds and the book is the one left by exactly the calls that returned or were found again in flight |
| `Durable.DurableExactlyOnce` | crates/cfr/src/persistence/mod.rs:256-526 | from creation on, across every error, crash and reopening, for every caller who reopens after an error: nothing sent is lost, no identifier is given to a second delivery, and the inbound window is exact |
| `Durable.RedeliveryIsIdle` | crates/cfr/src/persistence/mod.rs:426-448 | a message among the last ones processed is answered without touching state or store, however often the store was reopened in between |
| `Durable.OrphanReusesIdentifier` | crates/cfr/src/persistence/store.rs:484-493 | a caller who goes on after a failed checkpoint can lose a delivery and see its identifier given to another one |
| `LogicalCodec.SizedFields` | crates/cfr/src/persistence/state.rs:223-232 | a state within the size limit has no field beyond the length limit of the codec |
| `LogicalCodec.LogicalCanonical` | crates/cfr/src/persistence/state.rs:189-348 | parser and printer of the logical state undo each other, given the same of the conference inside |
| `LogicalCodec.BookSurvives` | crates/cfr/src/persistence/state.rs:236-348 | what a committed run stored decodes to the same books, given the same of the conference inside |
| `Tlv.FieldCanonical` | crates/cfr-core/src/codec.rs:47-190 | byte strings: decoding undoes encoding whatever follows, and accepted bytes are the encoder's |
| `Tlv.IntCanonical` | crates/cfr-core/src/codec.rs:59-209 | the same for both integer widths |
| `Tlv.ArrayCanonical` | crates/cfr-core/src/codec.rs:192-197 | the same for fixed-width fields |
| `Tlv.ListCanonical` | crates/cfr-core/src/codec.rs:84-230 | the same for lists of any canonical element |
| `Tlv.SetOfCanonical` | crates/cfr-core/src/codec.rs:105-261 | the same for sets with strictly rising images |
| `Tlv.IdSetCanonical` | crates/cfr-core/src/codec.rs:105-261 | the same for sets of identifiers as values |
| `Tlv.ArrayOrder` | crates/cfr-core/src/codec.rs:100-127 | images of identifiers rise exactly as the identifiers do |
| `TlvIo.Writer.Bytes` | crates/cfr-core/src/codec.rs:47-56 | appends the image of a byte string |
| `TlvIo.Writer.Int` | crates/cfr-core/src/codec.rs:59-69 | appends the image of an integer |
| `TlvIo.Writer.ListOf` | crates/cfr-core/src/codec.rs:84-98 | appends tag, count and the elements in order |
| `TlvIo.Writer.SetOfIds` | crates/cfr-core/src/codec.rs:105-127 | sorting and deduplication make the bytes depend only on which identifiers are listed |
| `TlvIo.Reader.Take` | crates/cfr-core/src/codec.rs:158-165 | consumes exactly the requested bytes or refuses |
| `TlvIo.Reader.Finish` | crates/cfr-core/src/codec.rs:145-151 | accepts only when every byte was consumed |
| `TlvIo.Reader.Bytes` | crates/cfr-core/src/codec.rs:186-190 | reads what the parser finds and stops where it stops |
| `TlvIo.Reader.Int` | crates/cfr-core/src/codec.rs:200-204 | the same for 64-bit integers |
| `TlvIo.Reader.Int32` | crates/cfr-core/src/codec.rs:207-209 | the same for 32-bit integers |
| `TlvIo.Reader.Exactly` | crates/cfr-core/src/codec.rs:193-197 | the same for fixed-width fields |
| `TlvIo.Reader.ListOf` | crates/cfr-core/src/codec.rs:219-230 | the same for lists |
| `TlvIo.Reader.SetItems` | crates/cfr-core/src/codec.rs:237-261 | the same for sets, comparing the images as read |
| `OpCodec.SliceCanonical` | crates/cfr-core/src/op.rs:82-113 | slices: decoding and encoding undo each other |
| `OpCodec.BodyCanonical` | crates/cfr-core/src/op.rs:182-270 | the same for every kind of body |
| `OpCodec.ImageCanonical` | crates/cfr-core/src/op.rs:306-322 | the same for the signed image |
| `OpCodec.SignedImageInjective` | crates/cfr-core/src/op.rs:306-322 | equal signed images mean equal session, author, dependencies and body |
| `OpCodec.OpWire` | crates/cfr-core/src/op.rs:367-411 | operations survive the wire and accepted bytes are exactly the encoder's |
| `OpCodec.OidIdentifies` | crates/cfr-core/src/op.rs:389-411 | two operations whose signed images the digest tells apart and that share an identifier are equal |
| `Wire.NestedCanonical` | crates/cfr-core/src/op.rs:413-415 | an operation inside a byte string, with nothing after it |
| `Wire.EnvelopeCanonical` | crates/cfr-core/src/wire.rs:163-173 | envelopes: decoding and encoding undo each other |
| `Wire.MessageWire` | crates/cfr-core/src/wire.rs:177-298 | every message but the checkpoint offer survives the wire and accepted bytes are exactly the encoder's |

## Left out

- Accusations that arrive before their contribution: the code does not park them, so the set of proven equivocators can depend on arrival order; it is a fixed or growing parameter here.
- Checkpoint messages and `checkpoint.rs`: approvals are accepted in any order and re-emitted sorted, so canonicity does not hold for them; the rest compares sets. The model's message decoder refuses their tag.
- Participant export and import: version labels are dropped by value rather than by age, so its importer's check is not an invariant; the conference is opaque inside the logical state.
- Counter uniqueness across re-installation of an evicted version: installing starts a fresh counter, so uniqueness is stated while a version is retained.
- Liveness of a channel after a buffered slice was dropped, and fresh-quorum eviction after re-admission: the code does not promise them.
- Cryptographic primitives, erasure and constant-time behaviour, hybrid key encapsulation, beacons, and the `Conference` facade.
- Real file systems, permissions, locks and creation of the store: a file is its bytes, rename is atomic, synced data is durable, a torn write is a prefix, and the rollback of a failed append succeeds.
- Exchange.SyncConverges: excludes exchanges in which a side meets the operation limit, as those lose operations.
- Convergence.AnyOrderConverges: excludes runs that overflow the pending buffer or the operation limit, as those lose operations.
- Agreement.StepKeepsGood: welcomes and repair answers are what participants of the run sent; sealing, prekey generations and the joiner's first ingest are not modelled, the joiner's graph being any part of what was signed.
- Contribution.ContributionDominates: the contribution path is modelled on values rather than as methods of the participant object.
- Crash.CrashAtomicity: the store is a machine on values with its file operations as points, not an object; a rollback that itself fails is not a step of its own, though for a caller who reopens after the error it leaves what a crash in flight leaves.
- OpCodec.OpWire: the decoder is a parser function built from the ones the reader object is proved against, rather than calls on that object.
- Wire.MessageWire: the same; key packages, which travel outside messages, are not modelled.
- MediaState.StateCanonical: the importer is a parser function; checks the source interleaves with reading are made after reading a field group, with the same verdict.
- Durable.EveryRunIsSerial: the conference is opaque; that each export it makes can be imported and that it keeps deriving the same retry keys are hypotheses on its steps.
- PoolRuns.SoundExactly: executions in which the requester uncovers an equivocation, and so signs an accusation, are excluded, as everywhere the set of proven equivocators is fixed.
- Topological.Order: children are found by filtering the parent table instead of filling a child table first.
- Outbox.LogicalState.Enqueue: identifiers are returned as a list; the byte size limits are checked by `LogicalCodec`.
