# Castrelyx: verified models

Dafny models of the parts of the repository where state, branching and arithmetic interact, with proofs of the
properties that those parts are there for. `dafny verify dfyconfig.toml` checks all of it.

## What is modelled

**The agent's pipeline** (`agent/internal/agent`, `envelope`, `spool`). Inventories become deltas, deltas become
batches, batches become chunks in a durable queue, and a sender loop delivers them at least once.

- `Envelope`: payloads, redaction, batches and their encoded size. JSON is a byte-size function, `Codec`; a payload may
  have no encoding. SHA-256 is a digest function; it is assumed free of collisions only where a lemma says so.
- `Chunking`: the packing loop and its byte accounting.
- `StateFilter`: the three loops of the state filter; map iteration order is any enumeration of the keys.
- `Receiver`, `Replication`: an ideal receiver keyed by (collector, kind, type, key), and what deltas do to it.
- `Spool`, `Cycle`, `Agent`: the queue, one collection cycle as a relation, and the classes that carry both out. Every
  external call may fail; a failed `Save` may already have renamed its file, a failed `Send` may have delivered.
- `Recovery`, `Delivery`: what an interrupted cycle leaves behind, and what repeated and late deliveries come to.
- `Protocol`, `Divergence`: collection and sender loop interleaved, with crashes, records of failed pushes that a start
  finds, and records that are lost because they expire or are rejected. A cycle begins with a real run over its
  collectors, chunked by `ChunkBatch`'s relation. The sender reads, sends and acknowledges in separate steps and keeps
  what it has read when a rollback takes it out of the queue. A crash is assumed to find on disk the cache that was in
  memory, which `Runtime.CollectOnce` keeps unless a save fails after its rename.
- `Repair`, `Retry`: what a run goes on with after interruptions that were not harmless, and what puts it right.

**The update loops** (`UpdateLoops`), as interleaved steps over their two one-slot channels.

**The audit assembler** (`AuditAssembler`), a bounded buffer proved against an unbounded reference.

**The laboratory's data path**: running flow summaries (`Flows`), reservoir sampling (`Reservoirs`), endpoint labels
(`Relabel`), the row loop (`CausalContext`), block splits (`Splits`), the correlator and its decision gate
(`Correlator.dfy` with module `Correlation`, `DecisionGate`), the range reader (`RangeFile.dfy` with module
`RangeReader`) and the threshold search (`Calibration`). Numbers are exact; the display rounding is a parameter.

Source code that works step by step is a class or a method here, tied by its contract to a function or relation on
values; the properties are lemmas about those.

## What the proofs found

- Byte accounting is exact: an empty item list is encoded as `null`, whose four bytes less two leave the brackets.
- After the first item, the packing loop does not re-test an item against an empty chunk, so an item that is too long
  can pass because the real index and count are narrower (`OversizedItemPassesUnlessFirst`); when exactly, is
  `ChunkingSucceedsIff`. The byte limit still holds.
- `agent/README.md:348` says that a full cycle with an empty inventory sends a tombstone as watermark. With nothing
  cached either, nothing is sent (`FullSnapshotHeals`).
- A delta replicates exactly if no shipped payload has its own `deleted: true`, which reads as a tombstone
  (`SelfDeletedItemIsLost`), and no composite key changes hands, which takes a NUL in a type
  (`NulInTypeBreaksReplication`). Both can be read off the two inventories (`DeltaReplicatesIff`).
- A rollback takes chunks out of the queue, but not back from the receiver or from a sender that has read them. It is
  harmless exactly if each key that these chunks touch ends as the cache has it (`InterruptionIsCleanIff`); otherwise the
  receiver diverges (`LateDeliveryDiverges`) until a cycle touches what is wrong (`LeaksAreRepaired`), as any cycle
  over the same inventories does (`SameReportsRepair`), or a full snapshot is adopted.
- A push that fails after its rename leaves a record that the next start delivers (`Queue.Reopen`), harmlessly exactly
  if the records behind it put right what it does wrong (`RevivalIsCleanIff`).
- A record that expires or is rejected is lost to the receiver although the cache counts it as sent; what does not change
  is not sent again before the next full snapshot. When that does no harm is `DiscardIsCleanIff`.
- A save that fails after its rename leaves the file ahead of the memory (`Runtime.CollectOnce`).
- An event whose execution arguments are missing is incomplete, but shows no reason (`MissingArgumentHasNoReason`).
- A complete audit event is whole since its group was opened; if an earlier group of the id was evicted, the records of
  that group have been emitted separately (`CompleteMeansWhole`, `CallsConserve`).
- The correlator expires by availability but shows by event time. Events with a time after their availability, which the
  normalised host input admits, can be lost (`LateEventCanBeLost`).
- A failed `read` of the range reader drops the blocks that it had already read and keeps the position behind them.
- With a negative target the threshold search returns its starting value, threshold 0 (`FoundIff`).

## Model

| member | source | states |
|---|---|---|
| Envelope.RedactSanitizes | agent/internal/envelope/envelope.go:81-116 | after redaction no object, however deep in objects and lists, holds a readable value at a sensitive key |
| Envelope.RedactFixesExactlySanitized | agent/internal/envelope/envelope.go:81-102 | redaction leaves a payload alone if and only if there was nothing to redact, so it is idempotent |
| Envelope.MetadataKeysAreNotSensitive | agent/internal/agent/agent.go:360-376 | the four metadata keys that the agent adds to a payload survive redaction |
| Envelope.DecimalWidthMonotone | agent/internal/agent/agent.go:675-677 | the printed width of a chunk index or count never shrinks as the number grows |
| Envelope.ListBytesMonotone | agent/internal/agent/agent.go:702-716 | a contiguous part of an item list never costs more bytes, commas included, than the whole |
| Chunking.Weigh | agent/internal/agent/agent.go:694-701 | an item is weighed or stops the loop, with the error that the code gives |
| Chunking.Pack | agent/internal/agent/agent.go:690-720 | the packing loop stops at exactly the item that cannot be taken, or cuts the batch greedily |
| Chunking.ChunkBatch | agent/internal/agent/agent.go:674-735 | every result of chunkBatch, case by case: which error and when, or the greedy chunks |
| Chunking.OutcomeIsUnique | agent/internal/agent/agent.go:674-735 | those cases exclude each other and fix the result: the contract of ChunkBatch admits one answer per input |
| Chunking.AccountingIsExact | agent/internal/agent/agent.go:677-689 | because an empty list is encoded as null, base plus list bytes is exactly the size of the worst-case chunk |
| Chunking.RealChunksAreNoLarger | agent/internal/agent/agent.go:675-677 | an encoded chunk, with its real index and count, is never longer than was accounted for |
| Chunking.FittingBatchesAlwaysChunk | agent/internal/agent/agent.go:722-734 | if every item fits alone, chunking succeeds and the final size test never fires |
| Chunking.ChunkingSucceedsIff | agent/internal/agent/agent.go:674-735 | chunking succeeds exactly if the envelope fits, every item is within the item limit, the first fits an empty chunk, and every later one that does not fit alone fits with the real number and count of its chunk |
| Chunking.RecheckBlamesOneItem | agent/internal/agent/agent.go:722-734 | if the final test fires, it is on a one-item chunk whose item does not fit an empty chunk |
| Chunking.OversizedItemPassesUnlessFirst | agent/internal/agent/agent.go:706-714 | concrete batches show that the same oversized item passes behind another item and is refused in front |
| Chunking.ChunksAreTheBatch | agent/internal/agent/agent.go:718-734 | the chunks concatenate to the batch, are numbered 0 to n - 1 of n, non-empty, within item and byte limits |
| Chunking.GreedyStaysAhead | agent/internal/agent/agent.go:706-716 | after k chunks no other admissible order-preserving split has covered more items |
| Chunking.GreedyChunkingIsOptimal | agent/internal/agent/agent.go:690-720 | no order-preserving split into admissible chunks uses fewer chunks |
| Chunking.GreedySplitIsUnique | agent/internal/agent/agent.go:690-720 | there is one greedy split |
| StateFilter.ReadInventory | agent/internal/agent/agent.go:303-319 | the first loop fails exactly on an inventory payload without a digest, else it separates and indexes the last item per composite key |
| StateFilter.ShipChanges | agent/internal/agent/agent.go:324-332 | in whatever order the map yields its keys, every new or changed key (every key when full) is upserted once |
| StateFilter.ShipDeletions | agent/internal/agent/agent.go:333-349 | ... and every vanished key gets one tombstone |
| StateFilter.CompositeKeyInjective | agent/internal/agent/agent.go:312 | without NUL in kind and type, a composite key determines kind, type and key |
| StateFilter.NulInTypeCollides | agent/internal/agent/agent.go:312 | with a NUL in the type two identities can share a composite key |
| Receiver.LookupIsFate | agent/internal/agent/agent.go:298-358 | what a key holds after a delivery is decided by the last item that touches it |
| Receiver.RedeliveryIsHarmless | agent/internal/agent/agent.go:406-442 | applying a chunk twice in a row is the same as once, whatever it holds |
| Replication.StrippedUpsert | agent/internal/agent/agent.go:360-376 | adding the metadata, redacting and stripping the metadata gives the redacted payload |
| Replication.UpsertEffect | agent/internal/agent/agent.go:329-331 | a shipped item puts its visible payload at (collector, kind, type, key) |
| Replication.TombstoneEffect | agent/internal/agent/agent.go:333-349 | a shipped tombstone removes exactly its key |
| Replication.DeltaFate | agent/internal/agent/agent.go:298-358 | the fate of every receiver key under a delta: the new payload, removal, or no change |
| Replication.DeltaAgrees | agent/internal/agent/agent.go:298-358 | key by key, old agreement becomes new agreement exactly unless the shipped payload calls itself deleted or the composite key changes hands |
| Replication.DeltaReplicatesIff | agent/internal/agent/agent.go:298-358 | for any types and keys and every map order, a delta carries a receiver of the old cache to the new cache if and only if no shipped payload has its own deleted: true and no composite key changes hands between two identities |
| Replication.NulFreeKeepsIdentities | agent/internal/agent/agent.go:312 | with types free of NUL no composite key can change hands |
| Replication.DeltaCarries | agent/internal/agent/agent.go:298-358 | under these conditions a delta carries any receiver of the old cache |
| Replication.NulFreeDeltaCarries | agent/internal/agent/agent.go:298-358 | ... in particular with types free of NUL, which the new cache then is too |
| Replication.SelfDeletedItemIsLost | agent/internal/agent/agent.go:329-331 | a concrete item with its own deleted: true is cached but reaches the receiver as a tombstone |
| Replication.ReceiverHoldsInventory | agent/internal/agent/agent.go:303-319 | representing the cache means holding exactly the redacted payloads last reported |
| Replication.NulInTypeBreaksReplication | agent/internal/agent/agent.go:312 | a concrete delta in which a composite key changes hands leaves a stale key at the receiver |
| Replication.LiveKeyCount | agent/README.md:350 | a prefix of a full snapshot shows the declared number of live keys exactly from its last upsert on |
| Replication.FullSnapshotHeals | agent/README.md:348-350 | a receiver that adopts a complete full snapshot mirrors the inventory whatever it held, except that an empty inventory with an empty cache sends nothing |
| Replication.MergingKeepsStrays | agent/internal/agent/agent.go:324-349 | without adoption, a key known to neither old nor new inventory is never touched |
| Recovery.HarmlessIff | agent/internal/agent/agent.go:247-255 | escaped items keep the agreement of any receiver exactly if each key that they touch ends as the cache has it |
| Recovery.RetryRestoresIff | agent/internal/agent/agent.go:247-255 | after a leak the next committed delta restores agreement exactly if it touches every leaked key that is wrong for its cache |
| Recovery.DeltaTouches | agent/internal/agent/agent.go:320-349 | a delta touches exactly the changed and the vanished identities |
| Recovery.SameInventoryRepairs | agent/internal/agent/agent.go:298-358 | reporting the same inventory again repairs any escaped part of its delta |
| Recovery.InsertedIff | agent/internal/spool/spool.go:334-389 | items that come in before the rest keep the agreement exactly if the rest touches every key that they put wrong |
| Recovery.MissingIff | agent/internal/spool/spool.go:263-297 | items that are left out before the rest keep it exactly if each key of theirs is touched by the rest or was right without them |
| Spool.Queue.Expire | agent/internal/spool/spool.go:263-297 | moves exactly the records that are too old to the dead letters, in order; a failure stops after some of them, perhaps between copy and removal |
| Spool.Queue.Push | agent/internal/spool/spool.go:134-154 | after expiry: appends one record under a new, larger id; a failure leaves the queue as it is, but may leave the file on disk |
| Spool.Queue.Reopen | agent/internal/spool/spool.go:334-389 | opening the queue brings such files back, in the order of their ids |
| Spool.Queue.Peek | agent/internal/spool/spool.go:165-191 | after expiry: returns the oldest records in order |
| Spool.Queue.Ack | agent/internal/spool/spool.go:193-210 | removes the named records one by one; a failure stops after some of them |
| Spool.Queue.Reject | agent/internal/spool/spool.go:212-238 | moves a record to the dead letters; a failure can come between copy and removal |
| Spool.DropTail | agent/internal/agent/agent.go:247-255 | acknowledging the first n ids of a tail leaves everything before it and the rest of the tail |
| Spool.DropHead | agent/internal/agent/agent.go:436-438 | acknowledging the oldest record leaves the rest |
| Cycle.AddAllItems | agent/internal/envelope/envelope.go:55-62 | added items keep their order, are numbered and redacted |
| Cycle.CleanFlagMeansUnchanged | agent/internal/agent/agent.go:350-356 | a clean dirty flag after any number of collectors means that cache and full times are unchanged |
| Cycle.CleanReportsGiveCleanRun | agent/internal/agent/agent.go:200-231 | reports without NUL and without items that call themselves deleted meet, turn by turn, the condition under which deltas replicate |
| Cycle.StepCarries | agent/internal/agent/agent.go:200-231 | the turn of one collector: error event, raw items or delta, each carries the receiver along, under the exact condition on the items that the turn ships |
| Cycle.RunCarries | agent/internal/agent/agent.go:200-231 | so does any run of collectors |
| Cycle.CycleCarries | agent/internal/agent/agent.go:200-240 | the batch of a cycle, heartbeat included, takes any receiver of the old cache to the new one |
| Agent.StateFile.Save | agent/internal/agent/agent.go:552-618 | the file has the new state unless the save failed before its rename |
| Agent.Runtime.constructor | agent/internal/agent/agent.go:128-161 | a start loads what the file holds, so that disk and memory agree |
| Agent.Runtime.FilterStateChanges | agent/internal/agent/agent.go:298-358 | refines the delta relation, or fails without touching the memory |
| Agent.Runtime.CollectFrom | agent/internal/agent/agent.go:201-230 | refines the turn of one collector |
| Agent.Runtime.Gather | agent/internal/agent/agent.go:200-240 | the collectors in turn give the batch of a cycle |
| Agent.Runtime.PushChunks | agent/internal/agent/agent.go:256-269 | queues a prefix of the chunks in order and remembers its ids |
| Agent.Runtime.Rollback | agent/internal/agent/agent.go:247-255 | a successful rollback restores the queue, a failed one leaves a tail of the own records |
| Agent.Runtime.MakeDurable | agent/internal/agent/agent.go:242-295 | all chunks queued and state saved, or rolled back; a cursor failure comes after the commit |
| Agent.Runtime.CollectOnce | agent/internal/agent/agent.go:176-296 | all or nothing: queue, cache, times, flags and file after every verdict; disk and memory agree unless the save failed after its rename, and then exactly when nothing had changed |
| Agent.Runtime.DeliverHead | agent/internal/agent/agent.go:411-439 | one turn: the record stays or goes, and what the receiver will finally hold is unchanged |
| Agent.Runtime.FlushPending | agent/internal/agent/agent.go:406-442 | sends are a stuttering prefix of the queue, acknowledged records leave in order, and what the receiver will finally hold is unchanged unless a record is rejected |
| Agent.PendingAfterDelivery | agent/internal/agent/agent.go:411-439 | delivering the oldest record, acknowledged or not, does not change what the receiver will finally hold |
| Agent.CommittedCycleKeepsAgreement | agent/internal/agent/agent.go:176-296 | if a receiver was going to represent the old cache, after a committed cycle it is going to represent the new one |
| Delivery.FirstNow | agent/internal/agent/agent.go:411-439 | delivering the first chunk now changes nothing, whether or not it is delivered again |
| Delivery.RestOf | agent/internal/agent/agent.go:411-439 | delivering the rest after the first k or k + 1 chunks ends with all of them |
| Delivery.SendFront | agent/internal/agent/agent.go:406-439 | sending from what was read earlier adds no outcome to those there were |
| Protocol.AttemptCarries | agent/internal/agent/agent.go:176-296 | a real cycle, run over its collectors and chunked, carries any receiver of the old cache to the new one |
| Protocol.SettledWhilePushing | agent/internal/agent/agent.go:256-269 | while chunks are pushed and concurrently delivered, the receiver will end with everything pushed so far |
| Protocol.SendKeeps | agent/internal/agent/agent.go:411-435 | sending, accepted or not, keeps the agreement |
| Protocol.AckKeeps | agent/internal/agent/agent.go:436-438 | so does acknowledging, also what has left the queue in the meantime |
| Protocol.CommitKeeps | agent/internal/agent/agent.go:270-284 | and the commit of a cycle whose chunks are all pushed |
| Protocol.InterruptionIsCleanIff | agent/internal/agent/agent.go:247-255 | a rollback or crash keeps the agreement, whatever the sender does next, if and only if what escapes is harmless: a condition on chunks and cache alone |
| Protocol.NothingEscapedIsClean | agent/internal/agent/agent.go:247-255 | it holds if no chunk of the cycle was delivered or read |
| Protocol.RevivalIsCleanIff | agent/internal/spool/spool.go:334-389 | the record of a failed push that a restart brings back, at the place of its id, keeps the agreement if and only if the records behind it put right what it does wrong |
| Protocol.DiscardIsCleanIff | agent/internal/spool/spool.go:263-297 | a record that expires, or the oldest when it is rejected, leaves the agreement if and only if each key of its items is touched by the records behind it or is right without it |
| Protocol.StepKeepsInv | agent/internal/agent/agent.go:176-442 | every step of the interleaved collection and sender loops keeps the agreement, interruptions, revivals and losses under their exact conditions |
| Protocol.RunKeepsInv | agent/internal/agent/agent.go:176-442 | so does every run |
| Protocol.DrainedReceiverRepresentsCache | agent/internal/agent/agent.go:163-174 | end to end: after any interleaving of real cycles, harmless failures, revivals and losses, restarts and repeated or late deliveries a drained queue means that the receiver represents the cache |
| Protocol.FreshAgreement | agent/internal/agent/agent.go:128-161 | a new agent and an empty receiver are in agreement |
| Protocol.UninterruptedCycle | agent/internal/agent/agent.go:256-284 | the steps of an undisturbed cycle append its chunks and commit its memory |
| Repair.InterruptionMars | agent/internal/agent/agent.go:247-255 | an interruption, however bad, adds at worst what escapes of its cycle to what had leaked before, whatever the sender does next |
| Repair.MarredRun | agent/internal/agent/agent.go:176-442 | over any run without a commit, the receiver ends at worst with the leaks of its interruptions on top of a receiver of the cache |
| Repair.RepairingCommit | agent/internal/agent/agent.go:270-284 | the commit of a cycle that touches every leaked key that is wrong for its cache restores the agreement |
| Repair.LeaksAreRepaired | agent/internal/agent/agent.go:176-442 | over whole runs: after any number of bad interruptions such a commit ends in agreement, whatever happens in between |
| Retry.LaterIsAsEager | agent/internal/agent/agent.go:620-630 | what was due, also as a full snapshot, is due again later, after a rollback and after a restart |
| Retry.BeforeItsTurn | agent/internal/agent/agent.go:200-231 | a collector finds in memory what was there before the cycle, whatever the collectors before it did |
| Retry.AttemptTouchesAgain | agent/internal/agent/agent.go:176-296 | a later cycle over the same inventories touches every key that any part of the first touches, whatever the map order and the chunks |
| Retry.SameReportsRepair | agent/internal/agent/agent.go:176-442 | self-healing: however often and badly cycles are interrupted, the next commit of the same inventories, no earlier, restores the agreement |
| Divergence.TheAttemptIsReal | agent/internal/agent/agent.go:176-296 | the cycle of the run below is a real one |
| Divergence.LateDeliveryDiverges | agent/internal/agent/agent.go:406-442 | a concrete run: a chunk that the sender has read is rolled back and sent afterwards; the receiver keeps a key that was never committed |
| UpdateLoops.StepKeepsInv | agent/cmd/castrelyx-agent/main.go:208-236 | the joint invariant of collection loop, updater loop and their two channels |
| UpdateLoops.RunKeepsInv | agent/cmd/castrelyx-agent/main.go:202-236 | it holds in every interleaving |
| UpdateLoops.SelfRollbackIsImpossible | agent/cmd/castrelyx-agent/main.go:138-141 | Rollback starts only for an update found at startup, before any CheckAndApply, MarkApplied or success of this process |
| UpdateLoops.RollbackBlamesTheCollection | agent/cmd/castrelyx-agent/main.go:208-258 | a failed cycle starts a rollback only over filtering or chunking, never over the local storage |
| UpdateLoops.RollbackRunsAlone | agent/cmd/castrelyx-agent/main.go:208-220 | neither CheckAndApply nor MarkApplied starts while a rollback runs |
| UpdateLoops.MarkAppliedFollowsSuccess | agent/cmd/castrelyx-agent/main.go:328-338 | MarkApplied starts only after a successful collection |
| UpdateLoops.CheckFollowsConfirmation | agent/cmd/castrelyx-agent/main.go:316-341 | an update found at startup is confirmed before the first update check |
| UpdateLoops.NoSuccessIsLost | agent/cmd/castrelyx-agent/main.go:231-235 | a success that meets a full channel is not lost: a token stays until MarkApplied takes one |
| UpdateLoops.RestartIsNeverDropped | agent/cmd/castrelyx-agent/main.go:330-351 | the restart channel is empty whenever the updater asks, so its default branch is never taken |
| AuditEvents.ScanNext | agent/internal/collectors/linux_audit.go:112-151 | one record more: the last system call, the merged executions, title and disabling |
| AuditEvents.JoinArguments | agent/internal/collectors/linux_audit.go:178-194 | the command line can be rebuilt exactly if the count parses, is at most 256 and every argument is there |
| AuditEvents.Decide | agent/internal/collectors/linux_audit.go:106-195 | the two completeness decisions of auditItem, and the reason that is shown |
| AuditAssembler.CursorState.Oldest | agent/internal/collectors/linux_audit.go:67-74 | finds a group that has waited longest, whatever the map order |
| AuditAssembler.CursorState.MakeRoom | agent/internal/collectors/linux_audit.go:66-77 | evicts such a group as incomplete when a 33rd is needed |
| AuditAssembler.CursorState.AddRecord | agent/internal/collectors/linux_audit.go:78-86 | the bounded group is that of the reference, extended |
| AuditAssembler.CursorState.FlushExpired | agent/internal/collectors/linux_audit.go:97-102 | emits and removes exactly the groups that are 30 seconds old |
| AuditAssembler.CursorState.Assemble | agent/internal/collectors/linux_audit.go:47-104 | one call of the bounded buffer refines one call of the unbounded reference |
| AuditAssembler.GroupIsBounded | agent/internal/collectors/linux_audit.go:80-85 | a group holds at most 64 records and 32 KiB, counts its bytes, and is truncated exactly when what arrived does not fit |
| AuditAssembler.GroupKeepsOrder | agent/internal/collectors/linux_audit.go:80-85 | what a group holds arrived in that order |
| AuditAssembler.CompleteMeansWhole | agent/internal/collectors/linux_audit.go:87-94 | a group is emitted as complete if and only if it ended, fits, has the system call of its execution and, if that succeeded, a title or all arguments; it then holds everything that arrived since it was opened; the reason that is shown is stated in every case |
| AuditAssembler.MissingArgumentHasNoReason | agent/internal/collectors/linux_audit.go:178-194 | a concrete event with a missing argument is incomplete without a reason |
| AuditAssembler.CallBounds | agent/internal/collectors/linux_audit.go:63-103 | at most 32 groups after a call, none 30 seconds old |
| AuditAssembler.CallConserves | agent/internal/collectors/linux_audit.go:47-104 | per event id, waiting plus arriving records are, in order, those of closed groups plus those still waiting |
| AuditAssembler.CallsConserve | agent/internal/collectors/linux_audit.go:47-104 | ... over any number of calls |
| AuditAssembler.OtherItemsKeepTheirOrder | agent/internal/collectors/linux_audit.go:53-62 | items that are no audit records pass in their order |
| AuditAssembler.SplitInvariance | agent/internal/collectors/linux_audit.go:47-104 | if nothing expires in between, feeding a batch in two calls equals feeding it in one, for the same evictions |
| AuditAssembler.FeedingExpiresNothing | agent/internal/collectors/linux_audit.go:97-102 | records that arrive at `now` cannot make a group expire at `now` |
| Flows.FlowWindow.Append | laya-security-lab/v4/prepare.py:20-26 | append keeps counters, totals and zero-reply count equal to those of the rows |
| Flows.FlowWindow.PopLeft | laya-security-lab/v4/prepare.py:27-28 | so does popleft |
| Flows.FlowWindow.Summarize | laya-security-lab/v4/prepare.py:29 | the running summary is the direct recount that plain lists get |
| Flows.SumsFromFront | laya-security-lab/v4/prepare.py:24-25 | taking the oldest row away subtracts exactly its share |
| Flows.CountsAfterAppend | laya-security-lab/v4/prepare.py:21-23 | the peer counter after a row, also one whose source is its destination |
| Flows.CountsAfterPop | laya-security-lab/v4/prepare.py:21-23 | ... and after taking one away: addresses leave the counter with their last row |
| Flows.OccurringAddressesArePeers | laya-security-lab/v4/prepare.py:52 | the counter has an entry exactly for the addresses of the window |
| Reservoirs.Reservoir.Add | laya-security-lab/v4/prepare.py:59-64 | fills up, then replaces the drawn place if it is in the reservoir |
| Reservoirs.RunsAreProper | laya-security-lab/v4/prepare.py:57-64 | in every run the reservoir holds min(cap, seen) distinct stream positions |
| Reservoirs.AllBranchCount | laya-security-lab/v4/prepare.py:59-64 | how many of all next draws keep a given set of rows |
| Reservoirs.ReservoirIsUniform | laya-security-lab/v4/prepare.py:57-64 | over all draw sequences, any a rows are retained together in exactly cap(cap-1).../n(n-1)... of the runs |
| Reservoirs.EveryRowIsEquallyLikely | laya-security-lab/v4/prepare.py:57-64 | every row is retained in cap/n of the runs |
| Relabel.Intern | laya-security-lab/v4/prepare.py:47-48 | the dictionary numbers an address at first sight |
| Relabel.StateForWindow | laya-security-lab/v4/prepare.py:42-55 | the state over a running window ... |
| Relabel.StateForList | laya-security-lab/v4/prepare.py:42-55 | ... is the state over a plain list of the same rows |
| Relabel.LabelsSeparate | laya-security-lab/v4/prepare.py:44-50 | labels are equal exactly where addresses are, and smaller for addresses seen earlier |
| Relabel.EveryLabelIsUsed | laya-security-lab/v4/prepare.py:48 | labels have no gap |
| Relabel.LabelBound | laya-security-lab/v4/prepare.py:48 | and stay below the number of addresses |
| Relabel.LabelsAreTheEqualityPattern | laya-security-lab/v4/prepare.py:44-50 | two lists get the same labels if and only if they repeat addresses in the same places |
| Relabel.StateForgetsNames | laya-security-lab/v4/prepare.py:42-55 | any injective renaming of addresses leaves the state unchanged |
| Relabel.EqualStatesShareTheirPattern | laya-security-lab/v4/prepare.py:42-55 | equal states come from equal endpoint patterns |
| CausalContext.Builder.Take | laya-security-lab/v4/prepare.py:116-142 | one row: block reset, deduplication, shedding, case and append |
| CausalContext.Expire | laya-security-lab/v4/prepare.py:131 | shedding removes the stale front |
| CausalContext.Build | laya-security-lab/v4/prepare.py:113-142 | over ordered rows the loop returns the cases of the definition |
| CausalContext.BuildCases | laya-security-lab/v4/prepare.py:113-142 | the same with the state that the models read |
| CausalContext.ContextStaysInBlock | laya-security-lab/v4/prepare.py:118-122 | past the purged prefix of its block, a row has its whole context in the block |
| CausalContext.ShedIsRecent | laya-security-lab/v4/prepare.py:131 | what stays is exactly the recent rows |
| CausalContext.ShedKeeps | laya-security-lab/v4/prepare.py:131 | and nothing is lost for later rows |
| CausalContext.InvStep | laya-security-lab/v4/prepare.py:117-142 | every window holds exactly what can still be asked for |
| CausalContext.PastIsContext | laya-security-lab/v4/prepare.py:131-135 | the window of an emitted row is its context by definition |
| CausalContext.CasesAreAsDefined | laya-security-lab/v4/prepare.py:113-142 | a case for every fresh row past the prefix, with all earlier fresh rows of its capture and key at most context_seconds old, and no others |
| CausalContext.SplitsShareNoRows | laya-security-lab/v4/prepare.py:118-142 | cases of different splits share no row |
| Splits.BoundsAreLeast | laya-security-lab/v4/prepare.py:35-39 | the bounds fall where the running share first reaches 60, 75 and 85 percent, pushed apart to leave every split a block |
| Splits.SplitBlocksInOrder | laya-security-lab/v4/prepare.py:33-40 | whole blocks in time order |
| Splits.NoSplitIsEmpty | laya-security-lab/v4/prepare.py:37-40 | each of the four splits has a block |
| Splits.AssignmentFailsIff | laya-security-lab/v4/prepare.py:34 | the assignment fails exactly with one to seven known blocks in the main source |
| Splits.AssignmentIsTotal | laya-security-lab/v4/prepare.py:105-109 | every block gets its one split, held-out blocks the unseen test |
| Splits.AssignmentIsChronological | laya-security-lab/v4/prepare.py:105-109 | later blocks never get an earlier split |
| Splits.PreparedCovers | laya-security-lab/v4/prepare.py:105-109 | the assignment covers every row whose block was listed |
| Splits.PreparedIsChronological | laya-security-lab/v4/prepare.py:105-109 | the assignment that prepare computes is chronological in every capture |
| Splits.EarlierSplitsEndFirst | laya-security-lab/v4/prepare.py:105-142 | all rows that a case of an earlier split shows end before any row of a later split of the capture |
| Correlation.Correlator.Add | laya-security-lab/correlation.py:108-118 | refuses exactly what is out of order and changes nothing then; else the buffer after the event |
| Correlation.Correlator.Snapshot | laya-security-lab/correlation.py:120-157 | shows the buffered events of the entity in the window, with the drop count |
| Correlation.CurrentIsRecent | laya-security-lab/correlation.py:111-113 | when an event arrives the buffer holds exactly the part of the history inside the window |
| Correlation.AcceptsIffNew | laya-security-lab/correlation.py:114-118 | the buffer recognises exactly the repetitions that the whole history would |
| Correlation.NothingIsForgotten | laya-security-lab/correlation.py:108-118 | without a drop the bounded run accepts what an unbounded one accepts |
| Correlation.AgreeForeverIff | laya-security-lab/correlation.py:120-122 | snapshots from now on agree with the whole history if and only if each forgotten event happened before the window |
| Correlation.SnapshotIsComplete | laya-security-lab/correlation.py:120-157 | without a drop, with event times not after availability, a snapshot is that of the whole history |
| Correlation.LateEventCanBeLost | laya-security-lab/correlation.py:76-82 | every event with a time after its availability can be lost although a full history would show it |
| Correlation.Replay | laya-security-lab/correlation.py:159-165 | the loop gives the reports of its definition |
| Correlation.ReportsAreSpaced | laya-security-lab/correlation.py:163-165 | reports of an entity are at least a step apart |
| Correlation.NoAcceptedEventIsSilent | laya-security-lab/correlation.py:162-165 | every accepted event is reported or follows a report of its entity by less than a step |
| Correlation.ReportsAreComplete | laya-security-lab/correlation.py:159-165 | without a drop every report shows the whole history |
| DecisionGate.RestrictiveIff | laya-security-lab/contract.py:24-44 | a plan restricts anything exactly if the choice does, nothing was dropped, a threat is seen, and capability, confidence, identity and path allow it |
| DecisionGate.PlansAreExplained | laya-security-lab/contract.py:24-44 | a plan follows the choice or defers with a reason; only restrictions have a lifetime; nothing is executed |
| DecisionGate.RestrictionsSeeTheWholeHistory | laya-security-lab/contract.py:35-44 | a restriction was decided on a snapshot that an unbounded correlator would also have shown |
| RangeReader.RangeFile.Seek | laya-security-lab/v4/range_source.py:13-16 | the new position, or an error and the old one |
| RangeReader.RangeFile.Block | laya-security-lab/v4/range_source.py:17-33 | the bytes of a block from cache or network, at most three tries, within budget, each downloaded byte counted once |
| RangeReader.RangeFile.Read | laya-security-lab/v4/range_source.py:34-41 | returns exactly the slice, advances by its length, costs nothing when cached; after a failure the position is the old one or the start of the missing block |
| RangeReader.RangeFile.ReadInto | laya-security-lab/v4/range_source.py:42-43 | fills the front of the buffer and nothing else |
| RangeReader.RangeFile.NoByteTwice | laya-security-lab/v4/range_source.py:17-33 | downloads never exceed the size of the file |
| RangeReader.TotalFits | laya-security-lab/v4/range_source.py:17-21 | different blocks do not overlap |
| Calibration.Calibrate | laya-security-lab/v4/benchmark_v4.py:12-22 | the loop keeps the best admissible candidate, in any candidate order; both classes are needed |
| Calibration.ActsLikeCandidate | laya-security-lab/v4/benchmark_v4.py:17 | every real threshold classifies like some candidate |
| Calibration.FoundIff | laya-security-lab/v4/benchmark_v4.py:16-22 | a threshold is found, and meets the target, exactly if the target is not negative |
| Calibration.NoThresholdIsBetter | laya-security-lab/v4/benchmark_v4.py:16-22 | no admissible real threshold has a higher F1, or the same with fewer false positives, or is larger and as good |
| Calibration.NegativesSplit | laya-security-lab/v4/benchmark_v4.py:18 | every negative row is counted on one side of the threshold |

## Left out

- Manager, Vault, CastrelSign and log parser backends, and all user interfaces: the receiver is an ideal map.
- Real JSON, SHA-256, file system, TLS, HTTP, DuckDB and SQLite: abstract functions, or steps that may fail. Items that cannot survive encoding (invalid UTF-8) are not distinguished.
- Runtime: batches are values; the clone maps of the source's deferred restore are the old memory here, so aliasing is
  not captured.
- Queue: ids grow; quarantine, size limits, the guard that skips expiry while the oldest record is young, pruning of dead
  letters, legacy migration and clock changes of the spool are not modelled.
- CleanTurn: collectors that bypass the filter are assumed not to forge snapshot metadata, and batch ids hold no colon.
- Push: expiry is the separate `Queue.Expire`; it and making room are not part of Push here, nor of the Runtime's cycles.
- Peek: expiry is the separate `Queue.Expire`; the quarantine of corrupt records is not modelled.
- Protocol: a rollback whose Ack fails; records that expire while the sender has read them, or that are lost in the cycle
  that pushed them.
- SameReportsRepair: collector names are distinct.
- Collector status, health reports, delivery times and the text of state errors.
- The monotonic part of times: an interval is a difference of integers.
- The updater's downloads, verification and file replacement, startup probation beyond its place in the loop, remote
  tasks and file manager.
- The identity maintenance loop and all back-off delays: timers fire at any moment.
- CursorState: regular expressions, decoding of record values, the other fields of events and the classification of
  audit, Windows and Suricata events; of auditItem the completeness decisions and the reason.
  Event ids are assumed not to be empty, as the line parser gives them.
- Builder: windows are shown by their rows, not by FlowWindow objects, so sharing of window objects is not captured; that
  the running summary of a window equals the recount of its rows is proved in Flows. The counters of dropped rows, the
  pools that cases go to and the output files are left out.
- Rounding: `compact`, float sums and float comparisons are exact real arithmetic; `stable` hashes stand for their input.
- Reservoir: the generator is a draw from all indices; its seed is not modelled.
- SplitBlocks: takes blocks sorted and distinct, as the query returns them.
- Snapshot: what is computed from the shown events (counts, joins, sequence) is one function of them; the sorting of
  events before a replay is assumed.
- RangeFile: the server is assumed to send the file's bytes whenever range and length are exact; the manifest is left out.
- Calibrate: the temperature search and the sigmoid; scores are given, at most 1. The candidates come in any order.
- Model training, inference, bootstrap intervals, timing and report scripts.
