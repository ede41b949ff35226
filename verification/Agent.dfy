/**
 The agent runtime: CollectOnce as a hand-written transaction, FlushPending as an at-least-once
 sender, and the state cache file.
 */
module Agent {
  import opened Wrappers
  import opened Envelope
  import opened Chunking
  import opened StateFilter
  import opened Receiver
  import opened Replication
  import opened Spool
  import opened Cycle

  // ---------------------------------------------------------------- the state file

  datatype FileContent = Absent | Corrupt | Saved(cache: Cache, lastFull: Times)

  /** The cache and full times that New starts from: those in the file, or none. */
  function Reload(content: FileContent): (Cache, Times) {
    match content
    case Saved(cache, lastFull) => (cache, lastFull)
    case _ => (map[], map[])
  }

  datatype SaveOutcome = SaveOk | FailedBeforeRename | FailedAfterRename

  class StateFile {
    var content: FileContent

    constructor ()
      ensures content == Absent
    {
      content := Absent;
    }

    /** Writes a temporary file and renames it; the directory sync after the rename may still fail. */
    method Save(cache: Cache, lastFull: Times) returns (outcome: SaveOutcome)
      modifies this
      ensures content == if outcome == FailedBeforeRename then old(content) else Saved(cache, lastFull)
    {
      if * {
        return FailedBeforeRename;
      }
      content := Saved(cache, lastFull);
      if * {
        return FailedAfterRename;
      }
      return SaveOk;
    }
  }

  // ---------------------------------------------------------------- delivery

  datatype SendOutcome = Accepted | Transient | Permanent

  /** The receiving end: its view, and every batch the sender tried to send, in order. */
  class Sink {
    var view: View
    var attempts: seq<Batch>

    constructor ()
      ensures view == map[] && attempts == []
    {
      view, attempts := map[], [];
    }

    /** A transient error may hide a delivery whose answer was lost. */
    method Send(batch: Batch) returns (outcome: SendOutcome)
      modifies this
      ensures attempts == old(attempts) + [batch]
      ensures outcome == Accepted ==> view == ApplyAll(old(view), batch.items)
      ensures outcome == Transient ==> view == old(view) || view == ApplyAll(old(view), batch.items)
      ensures outcome == Permanent ==> view == old(view)
    {
      attempts := attempts + [batch];
      if * {
        return Permanent;
      }
      if * {
        return Transient;
      }
      view := ApplyAll(view, batch.items);
      if * {
        return Transient;
      }
      return Accepted;
    }
  }

  function Attempted(record: Record): seq<Batch> {
    if record.payload.Some? then [record.payload.value] else []
  }

  function BatchesOf(records: seq<Record>): seq<Batch> {
    if records == [] then [] else BatchesOf(records[..|records| - 1]) + Attempted(records[|records| - 1])
  }

  lemma BatchesOfNext(before: seq<Batch>, records: seq<Record>, i: nat)
    requires i < |records|
    ensures before + BatchesOf(records[..i + 1]) == before + BatchesOf(records[..i]) + Attempted(records[i])
  {
    assert records[..i + 1][..i] == records[..i];
  }

  // ---------------------------------------------------------------- verdicts

  datatype Verdict =
    | Done
    | CursorFailed
    | FilterFailed(collector: nat)
    | ChunkingFailed(cause: ChunkError)
    | PushFailed(chunk: nat, rolledBack: bool)
    | SaveFailed(afterRename: bool, rolledBack: bool)
  {
    /** The inventory state was committed. */
    predicate Committed() { Done? || CursorFailed? }

    /** The error is marked as a fault of the local storage. */
    predicate LocalPersistence() { CursorFailed? || PushFailed? || SaveFailed? }
  }

  function RecordsFrom(firstId: nat, chunks: seq<Batch>): seq<Record> {
    seq(|chunks|, i requires 0 <= i < |chunks| => Record(firstId + i, Some(chunks[i])))
  }

  /** All items waiting in the queue, in order. */
  function QueuedItems(records: seq<Record>): seq<Item> {
    if records == [] then []
    else
      var last := records[|records| - 1].payload;
      QueuedItems(records[..|records| - 1]) + if last.Some? then last.value.items else []
  }

  /** What a receiver will hold once the queue is drained. */
  function Pending(view: View, records: seq<Record>): View {
    ApplyAll(view, QueuedItems(records))
  }

  /** Delivering the oldest record changes nothing about that, whether or not it then leaves. */
  lemma PendingAfterDelivery(view: View, record: Record, rest: seq<Record>)
    requires record.payload.Some?
    ensures Pending(ApplyAll(view, record.payload.value.items), rest) == Pending(view, [record] + rest)
    ensures Pending(ApplyAll(view, record.payload.value.items), [record] + rest) == Pending(view, [record] + rest)
  {
    var items := record.payload.value.items;
    HeadItems(record, rest);
    ApplyAllConcat(view, items, QueuedItems(rest));
    RedeliveryIsHarmless(view, items);
    ApplyAllConcat(ApplyAll(view, items), items, QueuedItems(rest));
  }

  lemma {:induction false} HeadItems(record: Record, rest: seq<Record>)
    ensures QueuedItems([record] + rest)
            == (if record.payload.Some? then record.payload.value.items else []) + QueuedItems(rest)
  {
    var all := [record] + rest;
    if rest == [] {
      assert all[..0] == [];
    } else {
      assert all[..|all| - 1] == [record] + rest[..|rest| - 1];
      HeadItems(record, rest[..|rest| - 1]);
    }
  }

  /** The history of one cycle: what each collector shipped, and the memory before and after it. */
  datatype Trace = Trace(
    parts: seq<seq<Item>>, memories: seq<Memory>, chunks: seq<Batch>, cuts: seq<nat>, firstId: nat)
  {
    function Final(): Memory
      requires |memories| > 0
    {
      memories[|memories| - 1]
    }
  }

  /** A cycle that did not commit: its own records are gone, or some stretch of them is left. */
  ghost predicate RolledBackTo(records: seq<Record>, before: seq<Record>, own: seq<Record>, clean: bool) {
    if clean then records == before
    else exists lo: nat, hi: nat | lo <= hi <= |own| :: records == before + own[lo..hi]
  }

  ghost predicate DurableEffects(
    config: Config, before: seq<Record>, after: seq<Record>, content: FileContent, content': FileContent,
    verdict: Verdict, trace: Trace)
  {
    // no chunk is left behind by a cycle that did not commit, unless taking it back failed
    && (verdict.FilterFailed? || verdict.ChunkingFailed? ==> after == before)
    && (verdict.PushFailed? || verdict.SaveFailed? ==>
          RolledBackTo(after, before, RecordsFrom(trace.firstId, trace.chunks), verdict.rolledBack))
    // a cycle that commits has every chunk queued, also when a log cursor could not be committed
    && (verdict.Committed() ==> after == before + RecordsFrom(trace.firstId, trace.chunks))
    // the file changes only by a save of the new state that got as far as its rename
    && (content' == content ||
        (config.hasStatePath && (verdict.Committed() || (verdict.SaveFailed? && verdict.afterRename)) &&
         |trace.memories| > 0 && content' == Saved(trace.Final().stateCache, trace.Final().lastFull)))
  }

  /** What a restart would load is the memory, and the dirty flag knows it. */
  ghost predicate OnDisk(config: Config, content: FileContent, m: Memory) {
    config.hasStatePath ==> Reload(content) == (m.stateCache, m.lastFull) && !m.stateDirty
  }

  /** The memory of a cycle that committed. */
  function AfterCommit(config: Config, trace: Trace): Memory
    requires |trace.memories| > 0
  {
    trace.Final().(stateDirty := trace.Final().stateDirty && !config.hasStatePath)
  }

  /** The file has the new state if it was saved as far as its rename, and it is saved if it has to be. */
  ghost predicate FileEffects(
    config: Config, content: FileContent, content': FileContent, verdict: Verdict, trace: Trace)
  {
    (verdict.SaveFailed? ==> config.hasStatePath) &&
    (content' == content || (|trace.memories| > 0 && (verdict.Committed() || verdict.SaveFailed?) &&
                             content' == Saved(trace.Final().stateCache, trace.Final().lastFull))) &&
    (verdict.SaveFailed? && !verdict.afterRename ==> content' == content) &&
    ((verdict.Committed() && config.hasStatePath && |trace.memories| > 0 && trace.Final().stateDirty) ||
     (verdict.SaveFailed? && verdict.afterRename) ==>
       |trace.memories| > 0 && content' == Saved(trace.Final().stateCache, trace.Final().lastFull))
  }

  lemma DiskAfterCycle(
    config: Config, codec: Codec, cycle: Input, before: Memory, verdict: Verdict, trace: Trace,
    content: FileContent, content': FileContent)
    requires CollectRun(config, codec, cycle, before, trace.parts, trace.memories)
    requires FileEffects(config, content, content', verdict, trace)
    ensures var after := if verdict.Committed() then AfterCommit(config, trace) else before;
            if verdict.SaveFailed? && verdict.afterRename then
              OnDisk(config, content', after) <==>
                (trace.Final().stateCache, trace.Final().lastFull) == (after.stateCache, after.lastFull) &&
                !after.stateDirty
            else OnDisk(config, content, before) ==> OnDisk(config, content', after)
  {
    if !trace.Final().stateDirty {
      CleanFlagMeansUnchanged(config, codec, cycle, before, trace.parts, trace.memories);
    }
  }

  lemma {:induction false} QueuedConcat(a: seq<Record>, b: seq<Record>)
    ensures QueuedItems(a + b) == QueuedItems(a) + QueuedItems(b)
  {
    if b == [] {
      assert a + b == a;
    } else {
      assert (a + b)[..|a + b| - 1] == a + b[..|b| - 1];
      QueuedConcat(a, b[..|b| - 1]);
    }
  }

  lemma {:induction false} QueuedChunks(firstId: nat, chunks: seq<Batch>)
    ensures QueuedItems(RecordsFrom(firstId, chunks)) == Flatten(chunks)
  {
    if chunks != [] {
      QueuedChunks(firstId, chunks[..|chunks| - 1]);
      assert RecordsFrom(firstId, chunks)[..|chunks| - 1] == RecordsFrom(firstId, chunks[..|chunks| - 1]);
    }
  }

  /**
   What a committed cycle queues keeps queue, receiver and cache in agreement: if the receiver was
   going to represent the old cache, it is now going to represent the new one.
   */
  lemma CommittedCycleKeepsAgreement(
    config: Config, codec: Codec, cycle: Input, before: Memory, trace: Trace, records: seq<Record>, view: View)
    requires CollectRun(config, codec, cycle, before, trace.parts, trace.memories)
    requires Outcome(codec, CycleBatch(config, cycle, trace.parts), config.limits, Success(trace.chunks), trace.cuts)
    requires CleanRun(config, codec, cycle, trace.memories) && WfCache(before.stateCache)
    requires Represents(codec, Pending(view, records), before.stateCache)
    ensures WfCache(trace.Final().stateCache) && trace.chunks != []
    ensures Represents(codec, Pending(view, records + RecordsFrom(trace.firstId, trace.chunks)),
                       trace.Final().stateCache)
  {
    var batch := CycleBatch(config, cycle, trace.parts);
    CycleCarries(config, codec, cycle, before, trace.parts, trace.memories);
    ChunksAreTheBatch(codec, batch, config.limits, trace.chunks, trace.cuts);
    QueuedConcat(records, RecordsFrom(trace.firstId, trace.chunks));
    QueuedChunks(trace.firstId, trace.chunks);
    ApplyAllConcat(view, QueuedItems(records), Flatten(trace.chunks));
  }

  lemma AddPart(start: Batch, parts: seq<seq<Item>>, part: seq<Item>)
    ensures AddAll(AddAll(start, Concat(parts)), part) == AddAll(start, Concat(parts + [part]))
  {
    AddAllConcat(start, Concat(parts), part);
    assert (parts + [part])[..|parts|] == parts;
  }

  class Runtime {
    const config: Config
    const codec: Codec
    const queue: Queue
    const file: StateFile
    var lastCollected: Times
    var collectorFailed: map<string, bool>
    var lastFull: Times
    var stateCache: Cache
    var stateDirty: bool

    ghost predicate Valid()
      reads this, queue
    {
      queue.Valid()
    }

    function Remembered(): Memory
      reads this
    {
      Memory(lastCollected, collectorFailed, lastFull, stateCache, stateDirty)
    }

    /** What a restart would load is what is in memory, and the dirty flag knows it. */
    ghost predicate DiskAgrees()
      reads this, file
    {
      OnDisk(config, file.content, Remembered())
    }

    constructor (config: Config, codec: Codec, queue: Queue, file: StateFile)
      requires queue.Valid()
      ensures Valid() && DiskAgrees()
      ensures this.config == WithDefaults(config) && this.codec == codec && this.queue == queue && this.file == file
      ensures lastCollected == map[] && collectorFailed == map[] && !stateDirty
      ensures (stateCache, lastFull) == if config.hasStatePath then Reload(file.content) else (map[], map[])
    {
      this.config, this.codec, this.queue, this.file := WithDefaults(config), codec, queue, file;
      lastCollected, collectorFailed, lastFull, stateCache, stateDirty := map[], map[], map[], map[], false;
      if config.hasStatePath {
        var (cache, times) := Reload(file.content);
        stateCache, lastFull := cache, times;
      }
    }

    /** filterStateChanges: the delta of one collector, recorded in cache, full times and dirty flag. */
    method FilterStateChanges(name: string, cycle: Input, items: seq<Item>)
      returns (r: Option<seq<Item>>, ghost up: seq<string>, ghost del: seq<string>)
      modifies this`stateCache, this`lastFull, this`stateDirty
      ensures IntervalAt(config.fullIntervals, name) <= 0 ==> r == Some(items) && Remembered() == old(Remembered())
      ensures r.None? ==> !AllDigest(codec, items) && Remembered() == old(Remembered())
      ensures r.Some? && IntervalAt(config.fullIntervals, name) > 0 ==>
                Filtered(config, codec, cycle, name, items, old(Remembered()), r.value, Remembered(), up, del)
    {
      up, del := [], [];
      var fullInterval := IntervalAt(config.fullIntervals, name);
      if fullInterval <= 0 {
        return Some(items), up, del;
      }
      var previous := Previous(stateCache, name);
      var ok, passthrough, latest, current := ReadInventory(codec, items);
      if !ok {
        return None, up, del;
      }
      var full := FullDue(previous, TimeAt(lastFull, name), fullInterval, cycle.now);
      var snap := Snapshot(SnapshotId(cycle.batchId, name), |current|, full, cycle.nowText);
      var changes, deletions;
      changes, up := ShipChanges(previous, current, latest, snap);
      deletions, del := ShipDeletions(previous, current, snap);
      if full || previous != current {
        stateDirty := true;
      }
      stateCache := stateCache[name := current];
      if full {
        lastFull := lastFull[name := cycle.now];
      }
      return Some(passthrough + changes + deletions), up, del;
    }

    /** The turn of collector `i`: its error event, its items, or the delta of its inventory. */
    method CollectFrom(i: nat, cycle: Input) returns (part: Option<seq<Item>>)
      requires i < |config.collectors| == |cycle.reports|
      modifies this`stateCache, this`lastFull, this`stateDirty, this`lastCollected, this`collectorFailed
      ensures part.Some? ==> CollectStep(config, codec, cycle, i, old(Remembered()), part.value, Remembered())
      ensures part.None? ==> Undigestable(config, codec, cycle, i)
    {
      var name := config.collectors[i];
      if !CollectorDue(TimeAt(lastCollected, name), name in collectorFailed && collectorFailed[name],
                       IntervalAt(config.intervals, name), cycle.now) {
        return Some([]);
      }
      lastCollected := lastCollected[name := cycle.now];
      if cycle.reports[i].Broken? {
        collectorFailed := collectorFailed[name := true];
        return Some([ErrorEvent(name, cycle.reports[i].message, cycle.reports[i].durationMs)]);
      }
      collectorFailed := WithoutName(collectorFailed, name);
      ghost var up, del;
      part, up, del := FilterStateChanges(name, cycle, cycle.reports[i].items);
    }

    method AddEach(batch: Batch, items: seq<Item>) returns (batch': Batch)
      ensures batch' == AddAll(batch, items)
    {
      batch' := batch;
      for i := 0 to |items|
        invariant batch' == AddAll(batch, items[..i])
      {
        assert items[..i + 1][..i] == items[..i];
        batch' := Add(batch', items[i]);
      }
      assert items[..|items|] == items;
    }

    /** An idle cycle sends a heartbeat. */
    method AddHeartbeat(batch: Batch, ghost start: Batch, ghost items: seq<Item>) returns (batch': Batch)
      requires start.items == [] && batch == AddAll(start, items)
      ensures batch' == AddAll(start, if items == [] then [HEARTBEAT] else items)
    {
      AddAllItems(start, items);
      batch' := batch;
      if |batch.items| == 0 {
        assert [HEARTBEAT][..0] == [];
        batch' := Add(batch, HEARTBEAT);
      }
    }

    /** The collectors in turn; stops at the first report that cannot be digested. */
    method Gather(cycle: Input)
      returns (failed: Option<nat>, batch: Batch, ghost parts: seq<seq<Item>>, ghost memories: seq<Memory>)
      requires |cycle.reports| == |config.collectors|
      modifies this`stateCache, this`lastFull, this`stateDirty, this`lastCollected, this`collectorFailed
      ensures CollectRun(config, codec, cycle, old(Remembered()), parts, memories)
      ensures failed.None? ==> |parts| == |config.collectors| && Remembered() == memories[|parts|]
      ensures failed.None? ==> batch == CycleBatch(config, cycle, parts)
      ensures failed.Some? ==> |parts| == failed.value && failed.value < |config.collectors| &&
                               Undigestable(config, codec, cycle, failed.value)
    {
      ghost var start := NewBatch(cycle.batchId, "agent", config.agentId, config.tenantId, cycle.now);
      batch := NewBatch(cycle.batchId, "agent", config.agentId, config.tenantId, cycle.now);
      parts, memories := [], [Remembered()];
      for i := 0 to |config.collectors|
        invariant |parts| == i && CollectRun(config, codec, cycle, old(Remembered()), parts, memories)
        invariant Remembered() == memories[i]
        invariant batch == AddAll(start, Concat(parts))
      {
        var part := CollectFrom(i, cycle);
        if part.None? {
          return Some(i), batch, parts, memories;
        }
        batch := AddEach(batch, part.value);
        AddPart(start, parts, part.value);
        parts, memories := parts + [part.value], memories + [Remembered()];
      }
      batch := AddHeartbeat(batch, start, Concat(parts));
      return None, batch, parts, memories;
    }

    /** Pushes the chunks one by one until one fails. */
    method PushChunks(chunks: seq<Batch>) returns (pushed: seq<nat>, ghost firstId: nat)
      requires Valid()
      modifies queue
      ensures Valid() && queue.dead == old(queue.dead)
      ensures |pushed| <= |chunks| && firstId == old(queue.nextId)
      ensures queue.records == old(queue.records) + RecordsFrom(firstId, chunks[..|pushed|])
      ensures pushed == IdsOf(RecordsFrom(firstId, chunks[..|pushed|]))
    {
      pushed, firstId := [], queue.nextId;
      for i := 0 to |chunks|
        invariant Valid() && queue.dead == old(queue.dead)
        invariant |pushed| == i && queue.nextId == firstId + i
        invariant queue.records == old(queue.records) + RecordsFrom(firstId, chunks[..i])
        invariant pushed == IdsOf(RecordsFrom(firstId, chunks[..i]))
      {
        var id := queue.Push(chunks[i]);
        if id.None? {
          return;
        }
        assert RecordsFrom(firstId, chunks[..i + 1]) == RecordsFrom(firstId, chunks[..i])
                                                        + [Record(firstId + i, Some(chunks[i]))];
        pushed := pushed + [id.value];
      }
    }

    /** Takes back what this cycle pushed. */
    method Rollback(pushed: seq<nat>, ghost before: seq<Record>, ghost own: seq<Record>) returns (ok: bool)
      requires Valid() && queue.records == before + own && pushed == IdsOf(own)
      modifies queue`records
      ensures Valid()
      ensures ok ==> queue.records == before
      ensures !ok ==> exists n | 0 <= n <= |own| :: queue.records == before + own[n..]
    {
      if |pushed| == 0 {
        return true;
      }
      forall n | 0 <= n <= |own| ensures DropAll(before + own, pushed[..n]) == before + own[n..] {
        DropTail(before, own, n, queue.nextId);
      }
      assert pushed[..|own|] == pushed && own[|own|..] == [];
      ok := queue.Ack(pushed);
    }

    /** Makes the chunks and the state cache durable, then commits the log cursors. */
    method MakeDurable(chunks: seq<Batch>) returns (verdict: Verdict, ghost firstId: nat)
      requires Valid()
      modifies queue, file, this`stateDirty
      ensures Valid() && queue.dead == old(queue.dead)
      ensures verdict.PushFailed? || verdict.SaveFailed? || verdict.Committed()
      ensures verdict.PushFailed? || verdict.SaveFailed? ==>
                RolledBackTo(queue.records, old(queue.records), RecordsFrom(firstId, chunks), verdict.rolledBack)
      ensures verdict.Committed() ==> queue.records == old(queue.records) + RecordsFrom(firstId, chunks)
      ensures file.content ==
              if config.hasStatePath && old(stateDirty) &&
                 (verdict.Committed() || (verdict.SaveFailed? && verdict.afterRename))
              then Saved(stateCache, lastFull) else old(file.content)
      ensures verdict.SaveFailed? ==> config.hasStatePath && old(stateDirty)
      ensures verdict.Committed() ==> stateDirty == (old(stateDirty) && !config.hasStatePath)
    {
      var pushed;
      pushed, firstId := PushChunks(chunks);
      ghost var own := RecordsFrom(firstId, chunks[..|pushed|]);
      assert own == RecordsFrom(firstId, chunks)[..|pushed|];
      if |pushed| < |chunks| {
        var rolledBack := Rollback(pushed, old(queue.records), own);
        assert forall n | 0 <= n <= |own| :: own[n..] == RecordsFrom(firstId, chunks)[n..|pushed|];
        return PushFailed(|pushed|, rolledBack), firstId;
      }
      assert chunks[..|pushed|] == chunks;
      if stateDirty && config.hasStatePath {
        var outcome := file.Save(stateCache, lastFull);
        if outcome != SaveOk {
          var rolledBack := Rollback(pushed, old(queue.records), own);
          assert forall n | 0 <= n <= |own| :: own[n..] == RecordsFrom(firstId, chunks)[n..|pushed|];
          return SaveFailed(outcome == FailedAfterRename, rolledBack), firstId;
        }
        stateDirty := false;
      }
      for i := 0 to |config.collectors| {
        if * {
          return CursorFailed, firstId;
        }
      }
      return Done, firstId;
    }

    /** What a cycle did to the queue and the file. */
    twostate predicate CycleEffects(verdict: Verdict, trace: Trace)
      reads queue, file
    {
      DurableEffects(config, old(queue.records), queue.records, old(file.content), file.content, verdict, trace)
    }

    /** Why a cycle ended as it did. */
    ghost predicate Explains(cycle: Input, before: Memory, verdict: Verdict, trace: Trace) {
      CollectRun(config, codec, cycle, before, trace.parts, trace.memories) &&
      match verdict
      case FilterFailed(i) => i == |trace.parts| && i < |config.collectors| && Undigestable(config, codec, cycle, i)
      case ChunkingFailed(e) =>
        |trace.parts| == |config.collectors| &&
        Outcome(codec, CycleBatch(config, cycle, trace.parts), config.limits, Failure(e), trace.cuts)
      case _ =>
        |trace.parts| == |config.collectors| &&
        Outcome(codec, CycleBatch(config, cycle, trace.parts), config.limits, Success(trace.chunks), trace.cuts)
    }

    /** Chunks what has been gathered and makes it durable. */
    method Store(batch: Batch, ghost parts: seq<seq<Item>>, ghost memories: seq<Memory>)
      returns (verdict: Verdict, ghost trace: Trace)
      requires Valid() && |memories| > 0 && Remembered() == memories[|memories| - 1]
      modifies queue, file, this`stateDirty
      ensures Valid() && queue.dead == old(queue.dead) && trace.parts == parts && trace.memories == memories
      ensures !verdict.FilterFailed?
      ensures Outcome(codec, batch, config.limits,
                      if verdict.ChunkingFailed? then Failure(verdict.cause) else Success(trace.chunks), trace.cuts)
      ensures CycleEffects(verdict, trace) && FileEffects(config, old(file.content), file.content, verdict, trace)
      ensures verdict.Committed() ==> Remembered() == AfterCommit(config, trace)
    {
      var chunked; ghost var cuts;
      chunked, cuts := ChunkBatch(codec, batch, config.limits);
      trace := Trace(parts, memories, [], cuts, 0);
      if chunked.Failure? {
        return ChunkingFailed(chunked.error), trace;
      }
      ghost var firstId;
      verdict, firstId := MakeDurable(chunked.value);
      trace := Trace(parts, memories, chunked.value, cuts, firstId);
    }

    /** The cycle up to its verdict, before the deferred restore of the in-memory state. */
    method Attempt(cycle: Input) returns (verdict: Verdict, ghost trace: Trace)
      requires Valid() && |cycle.reports| == |config.collectors|
      modifies queue, file, this`stateCache, this`lastFull, this`stateDirty, this`lastCollected, this`collectorFailed
      ensures Valid() && queue.dead == old(queue.dead)
      ensures Explains(cycle, old(Remembered()), verdict, trace) && CycleEffects(verdict, trace)
      ensures verdict.Committed() ==> Remembered() == AfterCommit(config, trace)
      ensures FileEffects(config, old(file.content), file.content, verdict, trace)
    {
      ghost var parts, memories;
      var failed, batch;
      failed, batch, parts, memories := Gather(cycle);
      if failed.Some? {
        return FilterFailed(failed.value), Trace(parts, memories, [], [], 0);
      }
      verdict, trace := Store(batch, parts, memories);
    }

    method Restore(before: Memory)
      modifies this`stateCache, this`lastFull, this`stateDirty, this`lastCollected, this`collectorFailed
      ensures Remembered() == before
    {
      stateCache, lastFull := before.stateCache, before.lastFull;
      lastCollected, collectorFailed, stateDirty := before.lastCollected, before.collectorFailed, before.stateDirty;
    }

    /** The cycle with its deferred restore. */
    method AttemptOrRestore(cycle: Input) returns (verdict: Verdict, ghost trace: Trace)
      requires Valid() && |cycle.reports| == |config.collectors|
      modifies queue, file, this`stateCache, this`lastFull, this`stateDirty, this`lastCollected, this`collectorFailed
      ensures Valid() && queue.dead == old(queue.dead)
      ensures Explains(cycle, old(Remembered()), verdict, trace) && CycleEffects(verdict, trace)
      ensures Remembered() == if verdict.Committed() then AfterCommit(config, trace) else old(Remembered())
      ensures FileEffects(config, old(file.content), file.content, verdict, trace)
    {
      var before := Remembered();
      verdict, trace := Attempt(cycle);
      if !verdict.Committed() {
        Restore(before);
      }
    }

    /** One collection cycle: everything, or nothing but a possibly failed rollback. */
    method CollectOnce(cycle: Input) returns (verdict: Verdict, ghost trace: Trace)
      requires Valid() && |cycle.reports| == |config.collectors|
      modifies queue, file, this`stateCache, this`lastFull, this`stateDirty, this`lastCollected, this`collectorFailed
      ensures Valid() && queue.dead == old(queue.dead)
      ensures Explains(cycle, old(Remembered()), verdict, trace) && CycleEffects(verdict, trace)
      // the in-memory state is that of the run, or, when the cycle does not commit, what it was
      ensures Remembered() == if verdict.Committed()
                              then AfterCommit(config, trace) else old(Remembered())
      // disk and memory agree again, except when the save failed after its rename
      ensures old(DiskAgrees()) && !(verdict.SaveFailed? && verdict.afterRename) ==> DiskAgrees()
      ensures verdict.SaveFailed? && verdict.afterRename ==>
                (DiskAgrees() <==>
                   (trace.Final().stateCache, trace.Final().lastFull) == (stateCache, lastFull) && !stateDirty)
    {
      verdict, trace := AttemptOrRestore(cycle);
      DiskAfterCycle(config, codec, cycle, old(Remembered()), verdict, trace, old(file.content), file.content);
    }

    /** Sends the oldest record and acknowledges it. */
    method SendHead(record: Record, sink: Sink, ghost rest: seq<Record>) returns (ok: bool, permanent: bool)
      requires Valid() && queue.records == [record] + rest && record.payload.Some?
      modifies queue`records, sink
      ensures Valid()
      ensures queue.records == rest || (!ok && queue.records == [record] + rest)
      ensures sink.attempts == old(sink.attempts) + [record.payload.value]
      ensures permanent ==> !ok && queue.records == [record] + rest
      ensures Pending(sink.view, queue.records) == Pending(old(sink.view), [record] + rest)
    {
      var batch := record.payload.value;
      PendingAfterDelivery(sink.view, record, rest);
      var outcome := sink.Send(batch);
      if outcome != Accepted {
        return false, outcome == Permanent;
      }
      DropHead(record, rest, queue.nextId);
      ok := queue.Ack([record.id]);
      permanent := false;
    }

    /** One turn of the delivery loop, on the oldest record. */
    method DeliverHead(record: Record, sink: Sink, ghost rest: seq<Record>) returns (ok: bool)
      requires Valid() && queue.records == [record] + rest
      modifies queue`records, queue`dead, sink
      ensures Valid()
      ensures queue.records == rest || (!ok && queue.records == [record] + rest)
      ensures sink.attempts == old(sink.attempts) + Attempted(record)
      ensures old(queue.dead) <= queue.dead
      ensures queue.dead == old(queue.dead) ==>
                Pending(sink.view, queue.records) == Pending(old(sink.view), [record] + rest)
    {
      DropHead(record, rest, queue.nextId);
      if record.payload.None? {
        ok := queue.Reject(record);
        return;
      }
      var permanent;
      ok, permanent := SendHead(record, sink, rest);
      if permanent {
        ok := queue.Reject(record);
      }
    }

    /** The same turn, seen from the queue the loop started with. */
    method DeliverNext(sink: Sink, ghost start: seq<Record>, i: nat, record: Record)
      returns (ok: bool, ghost acked: nat)
      requires Valid() && i < |start| && queue.records == start[i..] && record == start[i]
      modifies queue`records, queue`dead, sink
      ensures Valid()
      ensures i <= acked <= i + 1 && (ok ==> acked == i + 1) && queue.records == start[acked..]
      ensures sink.attempts == old(sink.attempts) + Attempted(start[i])
      ensures old(queue.dead) <= queue.dead
      ensures queue.dead == old(queue.dead) ==>
                Pending(sink.view, queue.records) == Pending(old(sink.view), old(queue.records))
    {
      assert start[i..] == [record] + start[i + 1..];
      ok := DeliverHead(record, sink, start[i + 1..]);
      acked := if queue.records == start[i + 1..] then i + 1 else i;
    }

    /**
     FlushPending: sends the oldest records one after the other. The first `acked` records leave the
     queue; a failure stops the loop, and the record it hit may already have reached the receiver.
     */
    method FlushPending(limit: nat, sink: Sink) returns (ok: bool, ghost acked: nat, ghost tried: nat)
      requires Valid()
      modifies queue`records, queue`dead, sink
      ensures Valid()
      ensures acked <= tried <= |old(queue.records)| && tried <= limit
      ensures queue.records == old(queue.records)[acked..]
      ensures ok ==> acked == if limit < |old(queue.records)| then limit else |old(queue.records)|
      // records are tried in queue order: those that leave, and at most the next one in vain
      ensures tried <= acked + 1
      ensures sink.attempts == old(sink.attempts) + BatchesOf(old(queue.records)[..tried])
      // without a dead letter, what the receiver will hold once the queue is drained is unchanged
      ensures old(queue.dead) <= queue.dead
      ensures queue.dead == old(queue.dead) ==>
                Pending(sink.view, queue.records) == Pending(old(sink.view), old(queue.records))
    {
      acked, tried := 0, 0;
      var peeked := queue.Peek(limit);
      if peeked.None? {
        return false, acked, tried;
      }
      ok, acked, tried := FlushRead(peeked.value, sink, queue.records);
    }

    /** The loop over what has been read. */
    method FlushRead(records: seq<Record>, sink: Sink, ghost start: seq<Record>)
      returns (ok: bool, ghost acked: nat, ghost tried: nat)
      requires Valid() && queue.records == start && |records| <= |start| && records == start[..|records|]
      modifies queue`records, queue`dead, sink
      ensures Valid()
      ensures acked <= tried <= |records| && tried <= acked + 1 && queue.records == start[acked..]
      ensures ok ==> acked == |records|
      ensures sink.attempts == old(sink.attempts) + BatchesOf(start[..tried])
      ensures old(queue.dead) <= queue.dead
      ensures queue.dead == old(queue.dead) ==> Pending(sink.view, queue.records) == Pending(old(sink.view), start)
    {
      acked, tried := 0, 0;
      for i := 0 to |records|
        invariant Valid()
        invariant acked == tried == i && queue.records == start[i..]
        invariant sink.attempts == old(sink.attempts) + BatchesOf(start[..i])
        invariant old(queue.dead) <= queue.dead
        invariant queue.dead == old(queue.dead) ==> Pending(sink.view, queue.records) == Pending(old(sink.view), start)
      {
        ok, acked := DeliverNext(sink, start, i, records[i]);
        BatchesOfNext(old(sink.attempts), start, i);
        tried := i + 1;
        assert sink.attempts == old(sink.attempts) + BatchesOf(start[..tried]);
        if !ok {
          return;
        }
      }
      ok := true;
    }
  }
}
