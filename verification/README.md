# stitch-rs: replication, codecs and queues, modelled and proved

This project models the parts of stitch-rs where most can go wrong and proves what they promise, for every
input, every interleaving and every run.

* **Replication engine** (`crates/stitch-p2p`). The hybrid logical clock, the per-origin log with cursors and a
  truncation base, last-writer-wins cells with a collection floor, `SyncState`, the durable log, the Hello/Delta
  session, gossip, and membership. `Runs.dfy` is a step relation over any number of peers: local writes, frames
  lost, duplicated, reordered or forged, failed and torn appends, cursor reports, reclamation, tombstone
  collection and restarts from disk. A ghost *truth* keeps each origin's log as that origin wrote it;
  `RunInvariant.dfy` proves the invariant that ties every peer to it, and `Convergence.dfy`, `Gossip.dfy`,
  `Drift.dfy`, `Refusal.dfy`, `Session*.dfy`, `Membership*.dfy` draw the consequences.
* **Codecs**. The write frame and the sync protocol (`Wire*.dfy`, `Protocol.dfy`), and the STUN/TURN format with
  padding, masked addresses, interleaved type bits and the length field that is rewritten before each digest
  (`Turn*.dfy`, `Stun.dfy`; sections 6, 15.2 and 15.4 of RFC 5389).
* **Queues**. The QUIC accept router (`Accept*.dfy`), consolidation and flush of the offline queue
  (`OfflineQueue.dfy`, `QueueShapes.dfy`, `Flush*.dfy`), and the scope-open buffering window (`ScopeWindow.dfy`).

State that the source updates in place is a class here; each of its methods is proved equal to a function on
values, and the lemmas are about those functions. Where the source iterates a hash map, the model takes the
order as a parameter or a result and proves its claims for every order.

Inputs from outside are parameters: wall clocks, instants, signatures and their verification, append and read
outcomes, JSON parsing, HMAC-SHA1, CRC-32, lossy UTF-8 conversion, and the answers of a mutation sender.

## Where the code and its documentation differ

The model follows the code.

* A refused write is documented to take no sequence number and to change no state. It changes nothing if and only
  if the length check refused it; after a failed append the clock has ticked (`RefusedExactly`,
  `FailingPersisterTicks`). If the append was torn, that is inserted but not synced, the refused frame is on disk
  (`TornExactly`), and a restart brings it back under that very number and shows it, exactly in the torn case
  (`RefusedWriteReturnsExactlyWhenTorn`).
* The wire format's length check is documented to guarantee that a frame encodes. `encode_delta` still panics on
  a frame whose encoding exceeds 32 bits (`LongFramePanics`) and on a count of frames over 32 bits; `DeltaExactly`
  says for every list whether it is encoded, reported or panics.
* `write_message` sends payloads up to 4 GiB, `read_message` refuses those above 64 MiB: `MessageRoundTrip`, and
  `LongMessageRefused` for a message that is sent and refused. `StreamsConverge` is the session theorem over byte
  streams: a round empties them exactly when every message stays within the limit.
* `authorized_members` assumes one record per target, but record ids are read with `from_str_radix`, which takes
  either case and a plus sign, so two ids can name one peer (`TwoSpellings`). The loop ends exactly when no two
  rooted grants disagree about a role: `LoopEndsExactlyWhenRootsAgree`.
* Reading a record id panics if and only if it has 64 bytes and a pair cuts a character after all earlier pairs
  were read: `ParsesExactly`, `CutIdPanics`. `ProofPanicsExactly` says which presented frames make the
  verification of a proof panic. Panicking and never returning are results here, not preconditions.
* `consolidate` turns every history that holds a delete into a delete; `DeleteExactly` says when that is right,
  `ReinsertIsLost` shows a history for which it is not, and `DeletesDecide` lifts this to whole queues. Inserts
  after the first are dropped too (`SecondInsertIsLost`); `QueueExactly` is the condition for every queue.
* A scope that fails to open loses exactly the mutations it had buffered: `FateExactly`.

## Model

| member | source | states |
|---|---|---|
| Clock.HybridClock.Tick | crates/stitch-p2p/src/hlc.rs:19-28 | the new reading, counter wrap included |
| Clock.HybridClock.Observe | crates/stitch-p2p/src/hlc.rs:30-44 | the new reading after a remote stamp, counter wrap included |
| Clock.TickAdvances | crates/stitch-p2p/src/hlc.rs:19-28 | a tick moves strictly forward exactly when the 32-bit counter has room |
| Clock.ObserveAdvances | crates/stitch-p2p/src/hlc.rs:30-44 | the reading passes both clocks exactly when the counter has room |
| Clock.TickIsLeast | crates/stitch-p2p/src/hlc.rs:19-28 | a tick gives the lowest reading above the last one and not behind the wall clock; an exhausted counter restarts at zero |
| Clock.ObserveIsLeast | crates/stitch-p2p/src/hlc.rs:30-44 | the same above both clocks |
| Clock.StampTotal | crates/stitch-p2p/src/hlc.rs:60-72 | any two stamps are ordered one way or equal |
| Clock.StampOrder | crates/stitch-p2p/src/hlc.rs:60-72 | the order written out: physical time, counter, then the bytes of the peer id |
| Clock.PeerOrder | crates/stitch-p2p/src/hlc.rs:66-72 | the numeric rank used as tie-break is the byte order of peer ids |
| Wire.DecodeEncode | crates/stitch-p2p/src/wire.rs:84-177 | a frame encodes exactly when its lengths fit, takes the announced number of bytes, and decodes back whatever follows it |
| Wire.EncodeDecode | crates/stitch-p2p/src/wire.rs:96-162 | a buffer that decodes starts with the encoding of the result |
| Wire.SigningBytesInjective | crates/stitch-p2p/src/wire.rs:60-82 | what is signed determines everything but the signature |
| WireFormat.LengthsExactly | crates/stitch-p2p/src/wire.rs:60-82 | which lengths are refused, and by which error |
| WireFormat.FrameFields | crates/stitch-p2p/src/wire.rs:60-95 | every field of an encoded frame by its offset, version and operation codes by number |
| WireFormat.PrefixIsTruncated | crates/stitch-p2p/src/wire.rs:96-162 | every proper prefix of a frame is reported too short, with a length within the frame |
| WireFormat.WrongHeader | crates/stitch-p2p/src/wire.rs:96-162 | a buffer under 60 bytes, another version or an unknown operation is refused by name |
| Lww.Applier.Merge | crates/stitch-p2p/src/lww.rs:51-67 | the cells and the outcome after one write |
| Lww.LaterWriteStands | crates/stitch-p2p/src/lww.rs:51-67 | of two writes to one record the later stamp stands in either merge order, a tie going to the larger peer id |
| Lww.SecondTimeIsStale | crates/stitch-p2p/src/lww.rs:51-67 | a write that was applied is stale when it comes again |
| Lww.Applier.CollectTombstone | crates/stitch-p2p/src/lww.rs:69-87 | a tombstone becomes a floor; nothing else is collected |
| Lww.CollectionFrees | crates/stitch-p2p/src/lww.rs:69-87 | a collected cell holds no write; the tombstone and all before it, or before the old floor, stay below the floor, and what would have won still wins |
| Lww.OnlyTombstonesAreCollected | crates/stitch-p2p/src/lww.rs:69-87 | no other cell changes |
| ReplLog.ReplicationLog.Record | crates/stitch-p2p/src/replog.rs:64-85 | in-order frames are appended; duplicates and gaps change nothing |
| ReplLog.ReplicationLog.DeltaSince | crates/stitch-p2p/src/replog.rs:113-123 | the missing suffix of every origin, in some order of origins |
| ReplLog.ReplicationLog.Truncate | crates/stitch-p2p/src/replog.rs:129-143 | the base rises, and the count returned is what the log lost |
| ReplLog.ReplicationLog.FramesForEntity | crates/stitch-p2p/src/replog.rs:100-110 | exactly the held frames of the entity, each origin's in sequence, in some order of origins |
| ReplLog.EntityFramesInHas | crates/stitch-p2p/src/replog.rs:100-110 | a frame is listed if and only if it is held and belongs to the entity |
| ReplLog.EntityFramesAscend | crates/stitch-p2p/src/replog.rs:100-110 | one origin's frames are listed in sequence, each once |
| ReplLog.CutAt | crates/stitch-p2p/src/replog.rs:129-143 | truncation keeps every cursor and cuts one origin's held frames to a suffix |
| ReplLog.TruncationKeepsClassification | crates/stitch-p2p/src/replog.rs:64-73 | truncation is invisible to classification |
| Sync.SyncState.LocalWrite | crates/stitch-p2p/src/sync_state.rs:188-226 | state and result of a local write, refusal and failed append included |
| Refusal.RefusedExactly | crates/stitch-p2p/src/sync_state.rs:20-29 | a refused write never touches log, cells, events or reports, and changes nothing if and only if the length check refused it |
| Refusal.FailingPersisterTicks | crates/stitch-p2p/src/sync_state.rs:202-224 | a write refused by a failing persister that moved the clock |
| Refusal.TornExactly | crates/stitch-p2p/src/sync_state.rs:219-222 | the refused frame is on disk if and only if the append was torn |
| Refusal.RunBehind | crates/stitch-p2p/src/sync_state.rs:188-248 | at every moment of every run nothing on disk is above the clock |
| Refusal.RefusedWriteReturnsExactlyWhenTorn | crates/stitch-p2p/src/node.rs:57-67 | in any run, a write refused by the persister and followed by a restart is back under its number and shown, if and only if the append was torn |
| Sync.SyncState.Receive | crates/stitch-p2p/src/sync_state.rs:228-248 | state and outcome for a frame that is forged, duplicate, ahead, unpersisted or taken |
| Events.ForgedChangesNothing | crates/stitch-p2p/src/sync_state.rs:228-248 | a frame that fails verification changes nothing |
| Events.ReceivedExactly | crates/stitch-p2p/src/sync_state.rs:228-248 | each outcome by sequence number and storage; the clock always moves, and what was not stored is still in order when offered again |
| Sync.SyncState.Replay | crates/stitch-p2p/src/sync_state.rs:159-165 | replaying one persisted frame |
| Sync.SyncState.ReplayLoad | crates/stitch-p2p/src/node.rs:57-67 | replaying a load in order |
| Events.ReplayIsSilent | crates/stitch-p2p/src/sync_state.rs:159-165 | replay emits no event and touches no report |
| Sync.SyncState.PersistFrame | crates/stitch-p2p/src/sync_state.rs:250-255 | what reaches the disk and whether it counts as persisted |
| Sync.SyncState.Emit | crates/stitch-p2p/src/sync_state.rs:257-270 | one event per visible change |
| Sync.SyncState.NotePeerCursors | crates/stitch-p2p/src/sync_state.rs:94-96 | the latest report per peer |
| Events.QuietActions | crates/stitch-p2p/src/sync_state.rs:94-96 | collecting, reclaiming and noting change nothing else; the report kept is the last one made |
| Sync.SyncState.Reclaim | crates/stitch-p2p/src/sync_state.rs:120-142 | every origin is cut at its low-water mark; the count is what the log lost |
| Sync.LowWaterBound | crates/stitch-p2p/src/sync_state.rs:120-142 | the mark is at or below this peer's cursor and every other member's report |
| Sync.LowWaterExactly | crates/stitch-p2p/src/sync_state.rs:120-142 | the mark covers a frame if and only if this peer has it and every other listed member has reported it |
| Sync.ReclaimedAt | crates/stitch-p2p/src/sync_state.rs:120-142 | each visited base is raised to the mark, cursors stay, held frames shrink to a suffix |
| Sync.ReclaimFreesExactly | crates/stitch-p2p/src/sync_state.rs:120-142 | of an origin's held frames a reclaim drops exactly those that all listed members have reported |
| Events.ReportedFramesAreFreed | crates/stitch-p2p/src/session.rs:287-332 | two frames that the one listed member has reported are both dropped |
| Sync.SyncState.CollectTombstone | crates/stitch-p2p/src/sync_state.rs:335-337 | only the cells change |
| Recovery.FrameKeyOrder | crates/stitch-p2p/src/persistence.rs:36-41 | byte order of storage keys is (origin, sequence) order, and keys are unique |
| Keyspace.FrameStore.Append | crates/stitch-p2p/src/persistence.rs:44-54 | what the keyspace holds after an append that fails to encode, to insert or to sync, or succeeds |
| Keyspace.FrameStore.Load | crates/stitch-p2p/src/persistence.rs:56-66 | a load fails exactly when an entry cannot be read, never for a stored value; otherwise it gives the disk in (origin, sequence) order |
| Recovery.NextInOrder | crates/stitch-p2p/src/node.rs:57-67 | replaying a load meets no gap |
| Recovery.ReplayRebuilds | crates/stitch-p2p/src/node.rs:57-67 | replay rebuilds exactly the persisted frames and cursors of every origin |
| Recovery.ReplayAdvancesClock | crates/stitch-p2p/src/sync_state.rs:159-165 | after replay the clock is past every replayed stamp |
| Events.LocalWriteWins | crates/stitch-p2p/src/sync_state.rs:188-226 | an accepted local write is visible at once under its author's name |
| Events.ActTells | crates/stitch-p2p/src/sync_state.rs:257-270 | an action emits at most one event, exactly its visible change, marked local for local writes only |
| Events.EventsReproduceState | crates/stitch-p2p/src/sync_state.rs:188-270 | folding all events of any sequence of actions into a plain map gives the visible records |
| Delivery.DeliverKeepsFaith | crates/stitch-p2p/src/lww.rs:51-67 | delivering the next frame of an origin keeps every cell at the winner of what was delivered |
| Delivery.CollectKeepsFaith | crates/stitch-p2p/src/lww.rs:69-87 | collecting a tombstone keeps every cell standing for its winner |
| Delivery.RebaseKeepsFaith | crates/stitch-p2p/src/replog.rs:129-143 | truncation keeps log and cells true to what was delivered |
| Delivery.FaithfulPeersAgree | crates/stitch-p2p/src/lww.rs:51-96 | equal cursors mean equal visible data and author, whatever order frames came in |
| RunInvariant.StartHolds | crates/stitch-p2p/src/sync_state.rs:78-92 | a fresh world satisfies the invariant |
| RunInvariant.StepHolds | crates/stitch-p2p/src/sync_state.rs:94-270 | every step of every peer keeps the invariant; true logs grow only at the end and cursors never fall |
| Convergence.RunHolds | crates/stitch-p2p/src/sync_state.rs:76-270 | the invariant holds at every moment of every run |
| Convergence.HeldIsASlice | crates/stitch-p2p/src/replog.rs:46-85 | a peer holds exactly the slice (base, cursor] of each origin's one true log and never runs ahead of the origin |
| Convergence.OneFramePerNumber | crates/stitch-p2p/src/sync_state.rs:188-255 | no origin and sequence number ever goes out with two frames, across failed appends and crashes |
| Convergence.StrongConvergence | crates/stitch-p2p/src/sync_state.rs:159-248 | peers with equal cursors show the same data and author, even at different moments of a run |
| Convergence.RestartLosesNothing | crates/stitch-p2p/src/node.rs:57-67 | after a restart cursors are at or past where they were, equal cursors mean an equal view, and the clock is past the disk |
| Convergence.ClockDominates | crates/stitch-p2p/src/sync_state.rs:188-248 | at every moment a peer's clock is at or above every stamp and floor in its cells |
| Convergence.NextWriteWins | crates/stitch-p2p/src/sync_state.rs:188-226 | at every moment, restarts included, the next accepted write takes the next free number and wins |
| Convergence.CausalityOrdersStamps | crates/stitch-p2p/src/hlc.rs:19-71 | a write issued after receiving another, directly or through others, has the greater stamp |
| Convergence.CausesCoverDelivery | crates/stitch-p2p/src/sync_state.rs:188-248 | the causes of a write include everything its author had been delivered |
| Convergence.StampsDistinctInRun | crates/stitch-p2p/src/hlc.rs:47-72 | all stamps of a run are distinct |
| Drift.NoClockRunsAhead | crates/stitch-p2p/src/hlc.rs:19-44 | if no wall clock of a run reads more than a limit, no hybrid clock and no stamp does, restarts included |
| Convergence.ReclaimServesExactly | crates/stitch-p2p/src/sync_state.rs:120-142 | a reclaim leaves a peer served if and only if it was before and no low-water mark passes its cursor |
| Convergence.ListedIsServed | crates/stitch-p2p/src/sync_state.rs:107-120 | at every moment of every run a peer still holds whatever a member it has always listed may ask for |
| Convergence.ReclaimNeverStrands | crates/stitch-p2p/src/sync_state.rs:94-142 | with full member lists no base ever passes any member's cursor |
| Convergence.UnlistedIsStranded | crates/stitch-p2p/src/sync_state.rs:120-142 | a run in which a peer that is not listed is stranded |
| Convergence.DeltaHasNoGap | crates/stitch-p2p/src/replog.rs:113-123 | what a peer serves to a member it has always listed is exactly the frames after that member's cursor |
| Pull.PullJoins | crates/stitch-p2p/src/replog.rs:113-123 | applying a delta leaves the puller at the higher cursor for every origin, in any order of origins |
| Pull.AbsorbedKeepsFaith | crates/stitch-p2p/src/session.rs:129-145 | applying true frames keeps a peer true to what was delivered |
| Pull.IngestedLog | crates/stitch-p2p/src/node.rs:171-189 | whatever fails to verify or to be stored, the log gains exactly the frames appended, each presented and verified |
| Gossip.GossipReaches | crates/stitch-p2p/tests/transitive.rs:10-15 | after k rounds a peer dominates the initial cursors of every peer within distance k |
| Gossip.CursorHasSource | crates/stitch-p2p/src/replog.rs:113-123 | gossip never invents a cursor: each one stood at some peer at the start |
| Gossip.GossipConverges | crates/stitch-p2p/tests/transitive.rs:10-15 | after diameter-many rounds all peers have equal cursors and equal views |
| Gossip.RunIsSettled | crates/stitch-p2p/src/sync_state.rs:94-142 | every world of a run with full member lists is one gossip can start from |
| Session.Endpoint.Handle | crates/stitch-p2p/src/session.rs:63-84 | state and replies for one message read, with frames that may fail verification or storage; a delta adds to the log only frames it presented and that verify |
| Session.RepliesExactly | crates/stitch-p2p/src/session.rs:63-84 | a Hello draws a delta if and only if there is news, never an empty one, and a Hello if and only if the reader is behind or does not have the smaller id |
| Session.HonestHandling | crates/stitch-p2p/src/session.rs:63-84 | when frames verify and are stored, handling is what the session theorems are about |
| Session.Endpoint.Tick | crates/stitch-p2p/src/session.rs:95-110 | only the side that should initiate sends a Hello |
| Session.InitiatesExactly | crates/stitch-p2p/src/session.rs:105-110 | either side before it knows the other, then the one with the smaller bytes |
| SessionRound.RoundHolds | crates/stitch-p2p/src/session.rs:53-116 | any interleaving of reads keeps the round's invariant and uses up its measure |
| SessionRound.SessionConverges | crates/stitch-p2p/src/session.rs:53-116 | a round takes at most ten messages (four after a tick), whichever side spoke first; when the streams are empty both peers stand at the higher cursor for every origin and show the same records |
| SessionRound.ReportsAreExchanged | crates/stitch-p2p/src/session.rs:26-34 | a round that the low side started leaves each side with a report of the other no older than the round, even if nothing was sent |
| SessionRound.NeverStuck | crates/stitch-p2p/src/session.rs:63-84 | while a message is undelivered some side can read |
| SessionRound.PeersCanMeet | crates/stitch-p2p/src/sync_state.rs:94-142 | any two peers of a run that have always listed each other meet the conditions of a round |
| SessionStream.ReadIsTurn | crates/stitch-p2p/src/protocol.rs:127-165 | reading from and answering on byte streams does what reading from and answering on message queues does |
| SessionStream.StreamsConverge | crates/stitch-p2p/src/session.rs:53-116 | over byte streams a round takes at most ten reads; one that has ended has emptied its streams if and only if everything written fits the reader's limit, and then both peers stand at the higher cursors with the same records |
| Authority.Sweep | crates/stitch-p2p/src/membership.rs:88-99 | one pass of the loop |
| Authority.AuthorizedMembers | crates/stitch-p2p/src/membership.rs:82-105 | never returns if and only if rooted grants disagree; otherwise exactly the owner and the peers reachable through owner or admin granters, at their recorded roles |
| Authority.GrantedExactly | crates/stitch-p2p/src/membership.rs:42-44 | a peer has a role in the result if and only if an owner or an admin of the result grants it that role |
| Authority.MembersDoNotGrant | crates/stitch-p2p/src/membership.rs:88-99 | what a plain member grants counts for nothing |
| Authority.AdminsGrant | crates/stitch-p2p/src/membership.rs:88-99 | what an admin grants counts |
| Authority.AuthorityUnique | crates/stitch-p2p/src/membership.rs:78-105 | the result depends only on the owner and the set of records, not on their order |
| Authority.LoopEndsExactlyWhenRootsAgree | crates/stitch-p2p/src/membership.rs:88-103 | the loop ends if and only if no two rooted grants give a peer different roles |
| Authority.ConflictNeverEnds | crates/stitch-p2p/src/membership.rs:88-103 | two records that keep it going for ever |
| RecordIds.MemberRecordId | crates/stitch-p2p/src/membership.rs:49-55 | two lower-case digits per byte |
| RecordIds.RecordIdIsLowerCase | crates/stitch-p2p/src/membership.rs:49-55 | only the digits 0 to 9 and a to f |
| RecordIds.PeerFromRecordId | crates/stitch-p2p/src/membership.rs:59-68 | the peer, no peer, or a panic, as the first failing pair decides |
| RecordIds.DigitsExactly | crates/stitch-p2p/src/membership.rs:59-68 | digits are read in either case and nothing else is |
| RecordIds.PairsExactly | crates/stitch-p2p/src/membership.rs:59-68 | a pair is two digits, or a plus sign and one digit |
| RecordIds.ParsesExactly | crates/stitch-p2p/src/membership.rs:59-68 | which bytes name a peer and which panic, both as if and only if |
| RecordIds.CutIdPanics | crates/stitch-p2p/src/membership.rs:59-68 | a family of valid ids that panic |
| RecordIds.RecordIdRoundTrip | crates/stitch-p2p/src/membership.rs:49-68 | a peer's record id reads back as that peer |
| Membership.CanonicalRootsAgree | crates/stitch-p2p/src/membership.rs:82-105 | with canonical record ids the loop always ends |
| Membership.TwoSpellings | crates/stitch-p2p/src/membership.rs:59-68 | a second id that reads as the same peer |
| Membership.RecordGrants | crates/stitch-p2p/src/membership.rs:31-38 | which role the first byte of a record names, for which peer and by which granter |
| Membership.FilteredReadsAgree | crates/stitch-p2p/src/store.rs:148-211 | peers of a run with one owner and equal cursors read the same filtered values, and their reads end the same way |
| Membership.ReadsExactly | crates/stitch-p2p/src/store.rs:148-154 | a visible record reads as its parsed bytes unless the store has an owner and its author is no member |
| Membership.WrittenIsRead | crates/stitch-p2p/src/store.rs:135-154 | what a peer writes it reads back, in a store with an owner if and only if it is a member |
| MembershipGate.Gate.Including | crates/stitch-p2p/src/sync_state.rs:320-333 | the cells as if the extra frames had been merged |
| MembershipGate.Gate.Records | crates/stitch-p2p/src/membership.rs:160-172 | panics if and only if a shown id cannot be read; otherwise the grants of the shown records, whatever order they are listed in |
| MembershipGate.Gate.AuthorizedWith | crates/stitch-p2p/src/membership.rs:160-173 | panics, never returns, or gives the authorized set over merged state, each under its exact condition |
| MembershipGate.Gate.IsMemberNow | crates/stitch-p2p/src/membership.rs:176-178 | how the question ends, and membership by a chain of grants from the owner |
| MembershipGate.Gate.Newest | crates/stitch-p2p/src/membership.rs:188-196 | the highest-stamped frame per record id |
| MembershipGate.Gate.Proof | crates/stitch-p2p/src/membership.rs:186-212 | the chain from the node's own record up to the owner, and that the climb ends |
| MembershipProof.WalkExactly | crates/stitch-p2p/src/membership.rs:186-212 | each frame is the newest record of the author of the one before, only the last can be the owner's, and the climb stops only at the owner, a missing record or one already passed |
| MembershipGate.Gate.VerifyProof | crates/stitch-p2p/src/membership.rs:226-236 | how verification ends for any presented frames; admits exactly the members of the merged view, and changes the node only then |
| MembershipGate.VerifiedExactly | crates/stitch-p2p/src/membership.rs:226-231 | exactly the presented membership records with a valid signature count |
| MembershipGate.Gate.Ingest | crates/stitch-p2p/src/node.rs:171-189 | frames go through the received-frame path in order; those appended are counted and go to every live session, closed sessions are dropped |
| MembershipGate.FannedOutExactly | crates/stitch-p2p/src/node.rs:181-187 | every open session gets all new frames, in order; the others are dropped |
| MembershipGate.FilteredStore.Read | crates/stitch-p2p/src/store.rs:148-154 | how a read ends: a value is shown when its record is visible, its author is a member and its bytes parse |
| MembershipGate.FilteredStore.Entries | crates/stitch-p2p/src/store.rs:199-211 | how listing ends: exactly the records that a read would show, each once |
| MembershipProof.ProofAdmits | crates/stitch-p2p/src/membership.rs:186-236 | a member's proof admits it wherever nothing newer is held for its records |
| MembershipProof.ProofAdmitsInRun | crates/stitch-p2p/src/membership.rs:180-236 | in a run, everyone who has no membership frame the prover lacks admits it |
| MembershipProof.StaleProofIsNeutral | crates/stitch-p2p/src/membership.rs:214-236 | frames at or below stamps or floors already held change no decision, nor whether there is one |
| MembershipProof.DeliveredIsStale | crates/stitch-p2p/src/sync_state.rs:313-333 | everything already delivered is stale, so a replayed invitation cannot undo a revocation |
| MembershipVerdict.MergedIsTop | crates/stitch-p2p/src/sync_state.rs:320-333 | merging a list of frames comes to merging the newest of each key |
| MembershipVerdict.ProofPanicsExactly | crates/stitch-p2p/src/membership.rs:226-236 | verification panics if and only if a verified frame brings an unreadable id to show, or one is shown already and no frame replaces it |
| MembershipVerdict.CutIdStopsVerification | crates/stitch-p2p/src/membership.rs:226-236 | one such frame |
| MembershipVerdict.ProofIsAdmittedInRun | crates/stitch-p2p/src/membership.rs:180-236 | in a run, verification of a member's proof returns true at every receiver with canonical records and no membership frame the prover lacks |
| Protocol.EncodeHello | crates/stitch-p2p/src/protocol.rs:38-48 | the payload for some order of the map |
| Protocol.ReadHello | crates/stitch-p2p/src/protocol.rs:50-81 | the map, or the error of a short payload |
| Protocol.EncodeDelta | crates/stitch-p2p/src/protocol.rs:83-94 | length-prefixed frames; the first that does not encode decides |
| Protocol.ReadDelta | crates/stitch-p2p/src/protocol.rs:96-125 | the frames, or the first error met |
| Protocol.HelloRoundTrip | crates/stitch-p2p/src/protocol.rs:38-81 | a Hello reads back as the same map for every order of enumeration |
| Protocol.DeltaRoundTrip | crates/stitch-p2p/src/protocol.rs:83-125 | a delta reads back as the same frames |
| Protocol.DeltaExactly | crates/stitch-p2p/src/protocol.rs:83-94 | for every list of frames: encoded if and only if the count and every frame fit; else the count or the first frame that does not fit decides between a panic and the reported error |
| Protocol.LongFramePanics | crates/stitch-p2p/src/protocol.rs:87-90 | a delta of one frame that passes the length check and makes the encoder panic |
| Protocol.MessageRoundTrip | crates/stitch-p2p/src/protocol.rs:127-165 | a written message reads back and leaves the rest of the stream, unless its payload exceeds 64 MiB |
| Protocol.LongMessageRefused | crates/stitch-p2p/src/protocol.rs:127-153 | a message that is written and refused by the reader |
| Protocol.StreamRoundTrip | crates/stitch-p2p/src/protocol.rs:127-165 | a run of messages within the limit reads back as the same list |
| WireFormat.MessageFields | crates/stitch-p2p/src/protocol.rs:127-142 | type, length and payload of a message by offset |
| WireFormat.HelloFields | crates/stitch-p2p/src/protocol.rs:38-48 | the fields of a Hello by offset |
| WireFormat.DeltaFields | crates/stitch-p2p/src/protocol.rs:83-94 | the fields of a delta by offset |
| WireFormat.PrefixIsEof | crates/stitch-p2p/src/protocol.rs:144-165 | a message that was cut off reads as the end of the stream |
| WireFormat.WrongType | crates/stitch-p2p/src/protocol.rs:144-165 | another type is refused by name, after the length checks |
| Text.TextExactly | crates/stitch-p2p/src/wire.rs:96-162 | names are accepted if and only if they are the UTF-8 of Unicode scalar values |
| Tlv.ScanBody | crates/mqp2p/src/turn.rs:209-219 | walking a body that was built from attributes yields them, paddings skipped |
| Addresses.PlainRoundTrip | crates/mqp2p/src/turn.rs:423-465 | plain addresses round trip |
| Addresses.XorRoundTrip | crates/mqp2p/src/turn.rs:467-522 | masked addresses round trip for every transaction id |
| TurnFormat.PlainFields | crates/mqp2p/src/turn.rs:423-465 | family, port and address of a plain value by offset |
| TurnFormat.MaskedOctetwise | crates/mqp2p/src/turn.rs:467-522 | a masked address is the plain one, octet by octet against the cookie and the transaction id |
| TurnFormat.XorBit | crates/mqp2p/src/turn.rs:467-522 | every bit of an exclusive or is one exactly where the operands differ |
| Attributes.AttributeRoundTrip | crates/mqp2p/src/turn.rs:307-416 | an attribute survives encoding and decoding if and only if its error code is at most 25599 and no unknown attribute uses a known type |
| Attributes.ErrorCodeSurvives | crates/mqp2p/src/turn.rs:333-388 | a 16-bit error code survives if and only if it is at most 25599 |
| TurnFormat.AttributeNumbers | crates/mqp2p/src/turn.rs:21-36 | the registered number of every attribute |
| TurnFormat.AttributeValues | crates/mqp2p/src/turn.rs:307-350 | the value bytes of every attribute that is not an address |
| TurnMessage.TypeRoundTrip | crates/mqp2p/src/turn.rs:278-291 | method and class survive the interleaving for twelve-bit methods; the two top bits stay clear |
| TurnFormat.MessageTypes | crates/mqp2p/src/turn.rs:278-291 | the type of a binding message in each class |
| TurnFormat.MethodBits | crates/mqp2p/src/turn.rs:278-291 | where the bits of the method go |
| TurnMessage.Encode | crates/mqp2p/src/turn.rs:152-180 | the buffer with every length rewrite done in place equals header plus final attributes |
| TurnMessage.LengthRewritten | crates/mqp2p/src/turn.rs:293-297 | rewriting the length changes nothing else |
| TurnFormat.MacCovers | crates/mqp2p/src/turn.rs:158-170 | the authenticator is over everything before it, with the length of the message as it ends with it |
| TurnFormat.CrcCovers | crates/mqp2p/src/turn.rs:171-178 | the fingerprint is over everything before it, the authenticator included |
| TurnMessage.Decode | crates/mqp2p/src/turn.rs:182-233 | the message, or the first error met |
| TurnFormat.HeaderErrors | crates/mqp2p/src/turn.rs:182-205 | which buffers are refused before their attributes are read, by their bytes |
| TurnFormat.ValueLengths | crates/mqp2p/src/turn.rs:354-416 | which attribute values are refused for their length, for every type |
| TurnFormat.ValueTexts | crates/mqp2p/src/turn.rs:354-420 | which are refused because they are not text |
| TurnFormat.AddressErrors | crates/mqp2p/src/turn.rs:444-516 | which address values are refused |
| TurnMessage.DecodeEncode | crates/mqp2p/src/turn.rs:152-233 | decoding an encoding gives the attributes followed by the appended integrity and fingerprint ones, if and only if the attributes are well formed |
| Integrity.SameMac | crates/mqp2p/src/turn.rs:557-561 | the accumulated difference is zero exactly when the digests are equal |
| Integrity.VerifyIntegrity | crates/mqp2p/src/turn.rs:532-566 | the first integrity attribute must be the digest of what precedes it under the adjusted length |
| Integrity.KeyedVerifies | crates/mqp2p/src/turn.rs:152-180 | a keyed encoding without an own integrity attribute verifies under a key exactly when the digests coincide, so always under its own |
| Stun.ParseXorMapped | crates/mqp2p/src/stun.rs:65-101 | unmasking in place agrees with the attribute decoder |
| Stun.ParseBindingResponse | crates/mqp2p/src/stun.rs:120-174 | the last masked address, else the last plain one, or the error |
| Stun.ResponseToEncoded | crates/mqp2p/src/stun.rs:120-174 | what the second reader makes of any encoded binding success |
| Stun.ReadersAgree | crates/mqp2p/src/stun.rs:120-174 | with exactly one masked address both readers find it |
| Stun.MaskedIsReported | crates/mqp2p/src/stun.rs:120-174 | the last masked address is reported |
| Stun.PlainIsReported | crates/mqp2p/src/stun.rs:120-174 | without one, the last plain address if it is IPv4, else none |
| Stun.ResponseErrors | crates/mqp2p/src/stun.rs:120-140 | what is not a binding success for the transaction is refused |
| AcceptEndpoint.Router.RemoveWaiter | crates/mqp2p/src/quic.rs:306-313 | one waiter leaves, empty queues go |
| AcceptEndpoint.Router.EvictOverflow | crates/mqp2p/src/quic.rs:343-361 | the oldest fronts are closed until there is room, and that ends |
| AcceptEndpoint.Router.ExpireBuffered | crates/mqp2p/src/quic.rs:363-375 | overdue fronts are closed, empty queues go |
| AcceptEndpoint.Router.Deliver | crates/mqp2p/src/quic.rs:390-419 | the first waiter still there gets the connection, else it is buffered after making room |
| AcceptOutcomes.DeliveredToWaiter | crates/mqp2p/src/quic.rs:396-409 | the first waiter still there gets the connection; it and those before it leave the queue |
| AcceptOutcomes.DeliveredToBuffer | crates/mqp2p/src/quic.rs:411-419 | without a waiter the connection is buffered, last in its queue; no other queue changes except that the front of one makes room if and only if 256 are buffered |
| AcceptOutcomes.BufferedIsClaimed | crates/mqp2p/src/quic.rs:411-419 | and the next caller for its fingerprint gets it if nothing open is ahead |
| AcceptEndpoint.Router.Accept | crates/mqp2p/src/quic.rs:570-608 | a buffered connection that is still open, or a place in the queue |
| AcceptOutcomes.ClaimedExactly | crates/mqp2p/src/quic.rs:576-598 | the first open connection is handed over, the closed ones before it are discarded, the rest stay |
| AcceptOutcomes.QueuedExactly | crates/mqp2p/src/quic.rs:599-608 | with nothing open the caller is queued behind all who wait |
| AcceptOutcomes.RefusedExactly | crates/mqp2p/src/quic.rs:570-575 | an accept is refused if and only if the router is closed, and then nothing changes |
| AcceptEndpoint.Router.Close | crates/mqp2p/src/quic.rs:444-451 | everything buffered is closed and both tables emptied |
| AcceptRouter.PickIsGloballyOldest | crates/mqp2p/src/quic.rs:345-353 | the evicted connection is the oldest of the whole buffer |
| AcceptRouter.EvictionKeeps | crates/mqp2p/src/quic.rs:343-361 | eviction drops at most one connection and leaves room |
| AcceptRouter.SweepIsExact | crates/mqp2p/src/quic.rs:363-375 | a sweep leaves exactly what is not past its time |
| AcceptRouter.CallersGetTheirOwn | crates/mqp2p/src/quic.rs:576-598 | a caller gets an open connection of the fingerprint it asked for |
| AcceptRouter.CancelRemovesOnly | crates/mqp2p/src/quic.rs:306-313 | cancelling removes that waiter and no other |
| AcceptOutcomes.CancelledExactly | crates/mqp2p/src/quic.rs:306-313 | the waiter leaves its queue and nothing else changes |
| AcceptWaiters.FirstComeFirstServed | crates/mqp2p/src/quic.rs:396-409 | the waiter served is the first in its queue whose receiver is still there |
| AcceptWaiters.ServedOnce | crates/mqp2p/src/quic.rs:390-452 | in every run no waiter is served twice and nobody still queued has been served |
| AcceptCallers.ReceivedOnce | crates/mqp2p/src/quic.rs:610-622 | no connection reaches two callers, and each is received under its own fingerprint |
| AcceptCallers.SentExactly | crates/mqp2p/src/quic.rs:396-409 | a connection sent to a waiting caller is received, pending or dropped; dropped if and only if the caller went away after it was sent |
| AcceptRouter.StepKeeps | crates/mqp2p/src/quic.rs:294-452 | every operation keeps the invariant and every fate |
| AcceptRouter.RunHolds | crates/mqp2p/src/quic.rs:294-452 | in every run: no fingerprint has waiters and buffered connections, no empty queue, at most 256 buffered, every connection buffered or at its one fate, handed only to its own fingerprint |
| AcceptRouter.FatesAreFinal | crates/mqp2p/src/quic.rs:390-452 | a connection's fate never changes; closed means empty for ever |
| AcceptOutcomes.ShutExactly | crates/mqp2p/src/quic.rs:343-452 | a step shuts a connection if and only if the router is closed or closing, a sweep finds it thirty seconds old, or it is the oldest of 256 and makes room |
| AcceptOutcomes.ShutInRun | crates/mqp2p/src/quic.rs:343-452 | every connection shut in a run was shut by such a step |
| Sorting.SortFilter | crates/stitch/src/offline_queue.rs:82 | stable sorting commutes with selecting one row's entries |
| Consolidation.Grouped | crates/stitch/src/offline_queue.rs:74-78 | each target's rows in queue order |
| Consolidation.Merge | crates/stitch/src/offline_queue.rs:81-159 | one mutation per history |
| Consolidation.Consolidate | crates/stitch/src/offline_queue.rs:73-168 | one mutation per target, merged from its time-ordered history, in rank order |
| Consolidation.EarliestRow | crates/stitch/src/offline_queue.rs:82-88 | a mutation carries the time and scope of its target's earliest row, the first queued among equals |
| Consolidation.SentInOrder | crates/stitch/src/offline_queue.rs:162-166 | earlier mutations first; at one time inserts before updates before deletes |
| Consolidation.ConsolidationPreservesMeaning | crates/stitch/src/offline_queue.rs:73-168 | for Insert? Update* Delete? histories the consolidated mutations leave any server map as sending every row would |
| Consolidation.DeleteExactly | crates/stitch/src/offline_queue.rs:92-135 | a history with a delete keeps its meaning if and only if nothing is inserted after the last delete |
| Consolidation.ReinsertIsLost | crates/stitch/src/offline_queue.rs:92-101 | a delete followed by an insert is consolidated to a delete |
| QueueShapes.QueueKeepsExactly | crates/stitch/src/offline_queue.rs:73-168 | a queue of any shape keeps its meaning if and only if every row's history does |
| QueueShapes.DeletesDecide | crates/stitch/src/offline_queue.rs:73-168 | when histories without a delete are well shaped, a queue keeps its meaning if and only if every history with a delete ends deleted |
| QueueShapes.InsertsExactly | crates/stitch/src/offline_queue.rs:102-125 | any number of inserts, with or without data, among any updates: the exact condition on the fields, for servers that replace, combine or refuse |
| QueueShapes.QueueExactly | crates/stitch/src/offline_queue.rs:73-168 | whatever was queued, consolidation keeps the meaning if and only if every row's entries meet that condition or end deleted |
| QueueShapes.SecondInsertIsLost | crates/stitch/src/offline_queue.rs:102-125 | two different inserts of one row that a replacing server sees merged into the first |
| Consolidation.EachRecordOnce | crates/stitch/src/offline_queue.rs:84 | each queued record is in exactly one mutation, that of its target |
| Flush.FlushConsolidated | crates/stitch/src/offline_queue.rs:224-371 | retained count, rejected inserts, removed ids and every call made to the sender, for arbitrary answers |
| Flush.KeptExactlyWhenRetryable | crates/stitch/src/offline_queue.rs:170-348 | a mutation is kept if and only if the last answer was transient or an insert's scope was not found |
| Flush.KeptByName | crates/stitch/src/offline_queue.rs:254-348 | which answers keep a mutation queued, by the names of the errors |
| Flush.RejectedExactly | crates/stitch/src/offline_queue.rs:170-348 | an insert is reported rejected if and only if it was refused by ownership, by the broker, or by a conflict with a row that is not found |
| Flush.CallsAreHeard | crates/stitch/src/offline_queue.rs:233-348 | every call but a local deletion is awaited, in the order the outcome is decided from |
| FlushCalls.CallsMeanMutations | crates/stitch/src/offline_queue.rs:233-258 | when no send fails, the calls do to any server what the mutations say |
| FlushCalls.FlushMeansReplay | crates/stitch/src/offline_queue.rs:73-258 | from queued rows to calls: the server ends as if every row had been sent, if and only if each row's entries keep their meaning |
| FlushCalls.ConflictLands | crates/stitch/src/offline_queue.rs:170-193 | an insert that conflicts with a row that is there is sent again as an update and lands over it |
| FlushCalls.MissingLands | crates/stitch/src/offline_queue.rs:286-302 | an update of a row the server lacks is sent again as a create of the row read |
| FlushCalls.CallsAreOwn | crates/stitch/src/offline_queue.rs:233-258 | every call names the mutation's own row and scope; none is made without data |
| FlushCalls.EmptyUpdatesAreSilent | crates/stitch/src/offline_queue.rs:136-158 | updates that set no field are not sent |
| Flush.ForgottenExactly | crates/stitch/src/offline_queue.rs:277-285 | a row is deleted locally if and only if an update of that root row was not found |
| Flush.RetainedCounts | crates/stitch/src/offline_queue.rs:362-364 | `retained` is the number of targets kept |
| Flush.FlushConserves | crates/stitch/src/offline_queue.rs:637-662 | a snapshot row stays if and only if its target's mutation is kept |
| Flush.NewRowsStay | crates/stitch/src/offline_queue.rs:637-662 | a row queued during the flush is never removed |
| Flush.InMemoryQueue.Begin | crates/stitch/src/offline_queue.rs:789-798 | one flush at a time, working on a snapshot |
| Flush.InMemoryQueue.Run | crates/stitch/src/offline_queue.rs:637-662 | a whole flush, with rows queued while it sends: retained counts the targets kept, removed rows are those of the others |
| ScopeEngine.Engine.TakeBuffer | crates/stitch/src/sync_engine.rs:238-243 | the opener takes its scope's buffer and nothing else |
| ScopeEngine.Engine.TryBuffer | crates/stitch/src/sync_engine.rs:646-651 | a mutation is buffered if the scope was awaiting and the buffer is there |
| ScopeWindow.RunHolds | crates/stitch/src/sync_engine.rs:177-252 | the tables follow the opener, successful or failing, and nothing is at rest twice, in every interleaving |
| ScopeWindow.NothingLost | crates/stitch/src/sync_engine.rs:626-658 | each foreign mutation ends exactly once in the returned buffer or on the bus; own ones never reach the bus |
| ScopeWindow.WindowIsBuffered | crates/stitch/src/sync_engine.rs:177-252 | a mutation asked about and stored while the buffer is up, own or foreign, is returned to the opener |
| ScopeWindow.FateExactly | crates/stitch/src/sync_engine.rs:177-252 | where every message ends when the opener succeeds or fails: a failed open loses exactly the messages asked about while the scope was awaited and stored while the buffer was up |

## Left out

- Sequence numbers are unbounded; the wrap of a 64-bit sequence number is not modelled.
- The logical clock counter wraps as in the code; runs are those in which no step wraps it (`HasRoom`, `ReplayFits`).
- SessionRound.SessionConverges: frames verify and are stored, as between honest peers (`Session.HonestHandling`).
- The JSON grammar, the store facade's read-modify-write, subscriptions and their lag.
- Ed25519, HMAC, CRC and SHA-256 internals; signatures are a predicate that holds of frames really sent.
- Flow label and scope id of IPv6 socket addresses, which the attribute format does not carry.
- ChannelData framing and the convenience getters of TURN messages other than the mapped address.
- A close, a disconnect or a second open concurrent with `open_scope`.
- The persistent offline queue, whose rows live in a database that is not part of this model.
- QUIC, TLS, MQTT, UDP and timers; the router's steps are those of its lock sections.
- Pairing, file transfer, leases and presence.
