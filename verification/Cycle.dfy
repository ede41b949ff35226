/**
 What one collection cycle does to the agent's memory, and what it ships.
 */
module Cycle {
  import opened Wrappers
  import opened Envelope
  import opened Chunking
  import opened StateFilter
  import opened Receiver
  import opened Replication

  type Times = map<string, int>

  /** Go's zero time, which a missing map entry also reads as. */
  const ZERO_TIME := 0

  const FAILURE_RETRY_INTERVAL := 60_000_000_000

  function TimeAt(times: Times, name: string): int {
    if name in times then times[name] else ZERO_TIME
  }

  function IntervalAt(intervals: map<string, int>, name: string): int {
    if name in intervals then intervals[name] else 0
  }

  datatype Config = Config(
    agentId: string, tenantId: string, collectors: seq<string>,
    intervals: map<string, int>, fullIntervals: map<string, int>,
    limits: Limits, hasStatePath: bool)

  /** The defaults that New fills in. */
  function WithDefaults(config: Config): Config {
    config.(
      tenantId := if config.tenantId == "" then "default" else config.tenantId,
      limits := Limits(
        if config.limits.maxItems == 0 then 1_000 else config.limits.maxItems,
        if config.limits.maxBytes == 0 then 4 * 1024 * 1024 else config.limits.maxBytes,
        if config.limits.maxItemBytes == 0 then 512 * 1024 else config.limits.maxItemBytes))
  }

  // ---------------------------------------------------------------- inputs

  datatype Report = Collected(items: seq<Item>) | Broken(message: string, durationMs: int)

  /** What the world contributes to one cycle: the clock, a batch id, and what collectors report. */
  datatype Input = Input(now: int, nowText: string, batchId: string, reports: seq<Report>)

  function ErrorEvent(name: string, message: string, durationMs: int): Item {
    Item("", 0, "event", "collector_error", name,
         Obj(map["collector" := Str(name), "error" := Str(message), "duration_ms" := Num(durationMs)]))
  }

  const HEARTBEAT := Item("", 0, "event", "health", "heartbeat",
                          Obj(map["status" := Str("ok"), "scheduler_idle" := Bool(true)]))

  // ---------------------------------------------------------------- one collector

  /** The fields of the agent that a cycle may change, and that a failed cycle restores. */
  datatype Memory = Memory(
    lastCollected: Times, collectorFailed: map<string, bool>, lastFull: Times, stateCache: Cache, stateDirty: bool)

  predicate CollectorDue(last: int, failed: bool, interval: int, now: int) {
    last == ZERO_TIME ||
    var effective := if failed && (interval <= 0 || interval > FAILURE_RETRY_INTERVAL)
                     then FAILURE_RETRY_INTERVAL else interval;
    effective <= 0 || now - last >= effective
  }

  /** A full snapshot is due: nothing cached, never sent, or sent too long ago. */
  predicate FullDue(previous: States, lastFull: int, interval: int, now: int) {
    previous == map[] || lastFull == ZERO_TIME || now - lastFull >= interval
  }

  function WithoutName(failed: map<string, bool>, name: string): map<string, bool> {
    map n | n in failed && n != name :: failed[n]
  }

  predicate IsDue(config: Config, m: Memory, name: string, now: int) {
    CollectorDue(TimeAt(m.lastCollected, name), name in m.collectorFailed && m.collectorFailed[name],
                 IntervalAt(config.intervals, name), now)
  }

  /** filterStateChanges on a collector that has a full interval: the delta, and the new memory. */
  ghost predicate Filtered(
    config: Config, codec: Codec, cycle: Input, name: string, items: seq<Item>,
    m: Memory, filtered: seq<Item>, m': Memory, up: seq<string>, del: seq<string>)
  {
    AllDigest(codec, items) &&
    var previous, current := Previous(m.stateCache, name), CurrentStates(codec, items);
    var full := FullDue(previous, TimeAt(m.lastFull, name), IntervalAt(config.fullIntervals, name), cycle.now);
    IsDelta(codec, previous, items,
            Snapshot(SnapshotId(cycle.batchId, name), |current|, full, cycle.nowText), filtered, up, del) &&
    m' == m.(stateCache := m.stateCache[name := current],
             lastFull := if full then m.lastFull[name := cycle.now] else m.lastFull,
             stateDirty := m.stateDirty || full || previous != current)
  }

  /** The turn of collector `i`: nothing, an error event, all items, or a delta. */
  ghost predicate CollectStep(
    config: Config, codec: Codec, cycle: Input, i: nat, m: Memory, part: seq<Item>, m': Memory)
    requires i < |config.collectors| == |cycle.reports|
  {
    var name := config.collectors[i];
    if !IsDue(config, m, name, cycle.now) then part == [] && m' == m
    else
      var attended := m.(lastCollected := m.lastCollected[name := cycle.now]);
      match cycle.reports[i]
      case Broken(message, duration) =>
        part == [ErrorEvent(name, message, duration)] &&
        m' == attended.(collectorFailed := m.collectorFailed[name := true])
      case Collected(items) =>
        var recovered := attended.(collectorFailed := WithoutName(m.collectorFailed, name));
        if IntervalAt(config.fullIntervals, name) <= 0 then part == items && m' == recovered
        else exists up, del :: Filtered(config, codec, cycle, name, items, recovered, part, m', up, del)
  }

  /** The turns of the first |parts| collectors. */
  ghost predicate CollectRun(
    config: Config, codec: Codec, cycle: Input, m: Memory, parts: seq<seq<Item>>, memories: seq<Memory>)
  {
    |parts| <= |config.collectors| == |cycle.reports| && |memories| == |parts| + 1 && memories[0] == m &&
    forall i | 0 <= i < |parts| :: CollectStep(config, codec, cycle, i, memories[i], parts[i], memories[i + 1])
  }

  /** Collector `i` reports an inventory with a payload that has no digest. */
  predicate Undigestable(config: Config, codec: Codec, cycle: Input, i: nat)
    requires i < |config.collectors| == |cycle.reports|
  {
    cycle.reports[i].Collected? && IntervalAt(config.fullIntervals, config.collectors[i]) > 0 &&
    !AllDigest(codec, cycle.reports[i].items)
  }

  function Concat(parts: seq<seq<Item>>): seq<Item> {
    if parts == [] then [] else Concat(parts[..|parts| - 1]) + parts[|parts| - 1]
  }

  function AddAll(batch: Batch, items: seq<Item>): Batch {
    if items == [] then batch else Add(AddAll(batch, items[..|items| - 1]), items[|items| - 1])
  }

  lemma {:induction false} AddAllConcat(batch: Batch, a: seq<Item>, b: seq<Item>)
    ensures AddAll(batch, a + b) == AddAll(AddAll(batch, a), b)
  {
    if b == [] {
      assert a + b == a;
    } else {
      assert (a + b)[..|a + b| - 1] == a + b[..|b| - 1];
      AddAllConcat(batch, a, b[..|b| - 1]);
    }
  }

  /** How `Batch.Add` passes an item on at position `at`. */
  predicate AddedAt(batchId: string, item: Item, at: nat, added: Item) {
    added == Sent(item).(sequence := at, itemId := added.itemId) &&
    added.itemId == (if item.itemId == "" then batchId + ":" + Decimal(at) else item.itemId) &&
    EffectOf(added) == EffectOf(Sent(item))
  }

  /** Added items keep their order, are numbered and redacted, and act on the receiver as sent. */
  lemma {:induction false} AddAllItems(batch: Batch, items: seq<Item>)
    ensures AddAll(batch, items).header == batch.header
    ensures |AddAll(batch, items).items| == |batch.items| + |items|
    ensures AddAll(batch, items).items[..|batch.items|] == batch.items
    ensures forall j | 0 <= j < |items| ::
              AddedAt(batch.header.batchId, items[j], |batch.items| + j, AddAll(batch, items).items[|batch.items| + j])
  {
    if items != [] {
      var init := AddAll(batch, items[..|items| - 1]);
      AddAllItems(batch, items[..|items| - 1]);
      assert AddAll(batch, items).items[..|init.items|] == init.items;
      forall j | 0 <= j < |items| - 1
        ensures AddedAt(batch.header.batchId, items[j], |batch.items| + j,
                        AddAll(batch, items).items[|batch.items| + j])
      {
        assert items[..|items| - 1][j] == items[j];
      }
    }
  }

  /** The batch of a cycle; an idle cycle sends a heartbeat. */
  function CycleBatch(config: Config, cycle: Input, parts: seq<seq<Item>>): Batch {
    AddAll(NewBatch(cycle.batchId, "agent", config.agentId, config.tenantId, cycle.now),
           if Concat(parts) == [] then [HEARTBEAT] else Concat(parts))
  }

  // ---------------------------------------------------------------- the dirty flag

  /** A clean dirty flag after a run means that cache and full times are what they were. */
  lemma {:induction false} CleanFlagMeansUnchanged(
    config: Config, codec: Codec, cycle: Input, m: Memory, parts: seq<seq<Item>>, memories: seq<Memory>)
    requires CollectRun(config, codec, cycle, m, parts, memories)
    requires !memories[|parts|].stateDirty
    ensures !m.stateDirty && memories[|parts|].stateCache == m.stateCache && memories[|parts|].lastFull == m.lastFull
  {
    if parts != [] {
      var n := |parts| - 1;
      assert CollectStep(config, codec, cycle, n, memories[n], parts[n], memories[n + 1]);
      CleanFlagMeansUnchanged(config, codec, cycle, m, parts[..n], memories[..n + 1]);
    }
  }

  // ---------------------------------------------------------------- replication

  /**
   What replication needs of collector `i`, and no more: of the items that its delta ships none calls itself deleted,
   and no composite key changes hands; of a collector that bypasses the filter, that it does not pose as inventory.
   */
  ghost predicate CleanTurn(config: Config, codec: Codec, cycle: Input, i: nat, m: Memory)
    requires i < |config.collectors| == |cycle.reports|
  {
    var name, report := config.collectors[i], cycle.reports[i];
    var previous, interval := Previous(m.stateCache, name), IntervalAt(config.fullIntervals, name);
    IsDue(config, m, name, cycle.now) && report.Collected? ==>
      if interval <= 0 then NoEffects(SentAll(report.items))
      else AllDigest(codec, report.items) ==>
             ShipsLiveItems(codec, previous, report.items,
                            FullDue(previous, TimeAt(m.lastFull, name), interval, cycle.now)) &&
             KeepsIdentities(previous, CurrentStates(codec, report.items))
  }

  ghost predicate CleanRun(config: Config, codec: Codec, cycle: Input, memories: seq<Memory>) {
    ':' !in cycle.batchId && 0 < |memories| <= |config.collectors| + 1 && |cycle.reports| == |config.collectors| &&
    forall i | 0 <= i < |memories| - 1 :: CleanTurn(config, codec, cycle, i, memories[i])
  }

  /** One collector's contribution carries the receiver along. */
  lemma StepCarries(
    config: Config, codec: Codec, cycle: Input, i: nat, m: Memory, part: seq<Item>, m': Memory)
    requires ':' !in cycle.batchId && i < |config.collectors| == |cycle.reports|
    requires CleanTurn(config, codec, cycle, i, m) && WfCache(m.stateCache)
    requires CollectStep(config, codec, cycle, i, m, part, m')
    ensures WfCache(m'.stateCache) && Carries(codec, m.stateCache, SentAll(part), m'.stateCache)
  {
    if ShipsDelta(config, cycle, i, m) {
      var snap, up, del := TheDelta(config, codec, cycle, i, m, part, m');
      var items, name := cycle.reports[i].items, config.collectors[i];
      CurrentIsWf(codec, items);
      DeltaCarries(codec, m.stateCache, items, snap, part, up, del, cycle.batchId, name);
    } else {
      CarriesNothing(codec, m.stateCache, SentAll(part));
    }
  }

  /** Collector `i` is due and reports an inventory. */
  predicate ShipsDelta(config: Config, cycle: Input, i: nat, m: Memory)
    requires i < |config.collectors| == |cycle.reports|
  {
    IsDue(config, m, config.collectors[i], cycle.now) && cycle.reports[i].Collected? &&
    IntervalAt(config.fullIntervals, config.collectors[i]) > 0
  }

  /** The delta that such a turn ships. */
  lemma TheDelta(config: Config, codec: Codec, cycle: Input, i: nat, m: Memory, part: seq<Item>, m': Memory)
    returns (snap: Snapshot, up: seq<string>, del: seq<string>)
    requires ':' !in cycle.batchId && i < |config.collectors| == |cycle.reports| && ShipsDelta(config, cycle, i, m)
    requires WfCache(m.stateCache) && CollectStep(config, codec, cycle, i, m, part, m')
    ensures var name, items := config.collectors[i], cycle.reports[i].items;
            DeltaOf(codec, Previous(m.stateCache, name), items, snap, part, up, del, cycle.batchId, name) &&
            snap.full == FullDue(Previous(m.stateCache, name), TimeAt(m.lastFull, name),
                                 IntervalAt(config.fullIntervals, name), cycle.now) &&
            m'.stateCache == m.stateCache[name := CurrentStates(codec, items)]
  {
    var name, items := config.collectors[i], cycle.reports[i].items;
    var recovered := m.(lastCollected := m.lastCollected[name := cycle.now],
                        collectorFailed := WithoutName(m.collectorFailed, name));
    up, del :| Filtered(config, codec, cycle, name, items, recovered, part, m', up, del);
    var full := FullDue(Previous(m.stateCache, name), TimeAt(m.lastFull, name),
                        IntervalAt(config.fullIntervals, name), cycle.now);
    snap := Snapshot(SnapshotId(cycle.batchId, name), |CurrentStates(codec, items)|, full, cycle.nowText);
  }

  // A condition on the reports alone, which can be checked before the cycle.

  predicate CleanReport(fullInterval: int, report: Report) {
    report.Collected? ==>
      if fullInterval > 0 then
        NulFree(report.items) &&
        forall i | 0 <= i < |report.items| && IsInventoryKind(report.items[i].kind) :: !SelfDeleted(report.items[i])
      else
        NoEffects(SentAll(report.items))
  }

  predicate CleanCycle(config: Config, cycle: Input) {
    ':' !in cycle.batchId && |cycle.reports| == |config.collectors| &&
    forall i | 0 <= i < |config.collectors| ::
      CleanReport(IntervalAt(config.fullIntervals, config.collectors[i]), cycle.reports[i])
  }

  lemma LiveReportShipsLiveItems(codec: Codec, previous: States, items: seq<Item>, full: bool)
    requires AllDigest(codec, items)
    requires forall i | 0 <= i < |items| && IsInventoryKind(items[i].kind) :: !SelfDeleted(items[i])
    ensures ShipsLiveItems(codec, previous, items, full)
  {
    forall k | k in ChangedKeys(previous, CurrentStates(codec, items), full)
      ensures !SelfDeleted(LatestByKey(items)[k])
    {
      LatestComesFromItems(items, k);
    }
  }

  lemma CleanReportGivesCleanTurn(config: Config, codec: Codec, cycle: Input, i: nat, m: Memory)
    requires i < |config.collectors| == |cycle.reports|
    requires CleanReport(IntervalAt(config.fullIntervals, config.collectors[i]), cycle.reports[i])
    requires WfCache(m.stateCache) && NulFreeCache(m.stateCache)
    ensures CleanTurn(config, codec, cycle, i, m)
  {
    if ShipsDelta(config, cycle, i, m) && AllDigest(codec, cycle.reports[i].items) {
      var items, name := cycle.reports[i].items, config.collectors[i];
      var previous, interval := Previous(m.stateCache, name), IntervalAt(config.fullIntervals, name);
      CurrentIsWf(codec, items);
      CurrentIsNulFree(codec, items);
      NulFreeKeepsIdentities(previous, CurrentStates(codec, items));
      LiveReportShipsLiveItems(codec, previous, items,
                               FullDue(previous, TimeAt(m.lastFull, name), interval, cycle.now));
    }
  }

  lemma CleanReportKeepsTheCacheClean(
    config: Config, codec: Codec, cycle: Input, i: nat, m: Memory, part: seq<Item>, m': Memory)
    requires i < |config.collectors| == |cycle.reports| && CollectStep(config, codec, cycle, i, m, part, m')
    requires CleanReport(IntervalAt(config.fullIntervals, config.collectors[i]), cycle.reports[i])
    requires WfCache(m.stateCache) && NulFreeCache(m.stateCache) && ':' !in cycle.batchId
    ensures WfCache(m'.stateCache) && NulFreeCache(m'.stateCache)
  {
    if ShipsDelta(config, cycle, i, m) {
      var snap, up, del := TheDelta(config, codec, cycle, i, m, part, m');
      CleanEntry(codec, m.stateCache, config.collectors[i], cycle.reports[i].items);
    }
  }

  lemma CleanEntry(codec: Codec, cache: Cache, name: string, items: seq<Item>)
    requires WfCache(cache) && NulFreeCache(cache) && AllDigest(codec, items) && NulFree(items)
    ensures WfCache(cache[name := CurrentStates(codec, items)])
    ensures NulFreeCache(cache[name := CurrentStates(codec, items)])
  {
    CurrentIsWf(codec, items);
    CurrentIsNulFree(codec, items);
  }

  /** Reports free of NUL and of items that call themselves deleted make a clean run from a cache free of NUL. */
  lemma {:induction false} CleanReportsGiveCleanRun(
    config: Config, codec: Codec, cycle: Input, m: Memory, parts: seq<seq<Item>>, memories: seq<Memory>)
    requires CleanCycle(config, cycle) && CollectRun(config, codec, cycle, m, parts, memories)
    requires WfCache(m.stateCache) && NulFreeCache(m.stateCache)
    ensures CleanRun(config, codec, cycle, memories)
    ensures WfCache(memories[|parts|].stateCache) && NulFreeCache(memories[|parts|].stateCache)
  {
    if parts != [] {
      var n := |parts| - 1;
      RunPrefix(config, codec, cycle, m, parts, memories);
      CleanReportsGiveCleanRun(config, codec, cycle, m, parts[..n], memories[..n + 1]);
      CleanReportGivesCleanTurn(config, codec, cycle, n, memories[n]);
      CleanReportKeepsTheCacheClean(config, codec, cycle, n, memories[n], parts[n], memories[n + 1]);
      CleanRunSnoc(config, codec, cycle, memories);
    }
  }

  lemma CleanRunSnoc(config: Config, codec: Codec, cycle: Input, memories: seq<Memory>)
    requires 1 < |memories| <= |config.collectors| + 1 && |cycle.reports| == |config.collectors|
    ensures CleanRun(config, codec, cycle, memories) <==>
            CleanRun(config, codec, cycle, memories[..|memories| - 1]) &&
            CleanTurn(config, codec, cycle, |memories| - 2, memories[|memories| - 2])
  {
    var init := memories[..|memories| - 1];
    forall i | 0 <= i < |init| ensures init[i] == memories[i] {
    }
  }

  lemma {:induction false} RunCarries(
    config: Config, codec: Codec, cycle: Input, m: Memory, parts: seq<seq<Item>>, memories: seq<Memory>)
    requires CollectRun(config, codec, cycle, m, parts, memories)
    requires CleanRun(config, codec, cycle, memories) && WfCache(m.stateCache)
    ensures WfCache(memories[|parts|].stateCache)
    ensures Carries(codec, m.stateCache, SentAll(Concat(parts)), memories[|parts|].stateCache)
  {
    if parts == [] {
      CarriesNothing(codec, m.stateCache, SentAll(Concat(parts)));
    } else {
      var n := |parts| - 1;
      RunPrefix(config, codec, cycle, m, parts, memories);
      CleanRunSnoc(config, codec, cycle, memories);
      RunCarries(config, codec, cycle, m, parts[..n], memories[..n + 1]);
      StepCarries(config, codec, cycle, n, memories[n], parts[n], memories[n + 1]);
      SentConcat(parts);
      CarriesCompose(codec, m.stateCache, SentAll(Concat(parts[..n])), memories[n].stateCache,
                     SentAll(parts[n]), memories[n + 1].stateCache);
    }
  }

  lemma RunPrefix(
    config: Config, codec: Codec, cycle: Input, m: Memory, parts: seq<seq<Item>>, memories: seq<Memory>)
    requires parts != [] && CollectRun(config, codec, cycle, m, parts, memories)
    ensures var n := |parts| - 1;
            CollectRun(config, codec, cycle, m, parts[..n], memories[..n + 1]) && memories[..n + 1][n] == memories[n] &&
            CollectStep(config, codec, cycle, n, memories[n], parts[n], memories[n + 1])
  {
  }

  lemma SentConcat(parts: seq<seq<Item>>)
    requires parts != []
    ensures SentAll(Concat(parts)) == SentAll(Concat(parts[..|parts| - 1])) + SentAll(parts[|parts| - 1])
  {
    SentAppend(Concat(parts[..|parts| - 1]), parts[|parts| - 1]);
  }

  lemma SentAppend(a: seq<Item>, b: seq<Item>)
    ensures SentAll(a + b) == SentAll(a) + SentAll(b)
  {
  }

  /** The items of a cycle; an idle cycle sends a heartbeat. */
  function CycleItems(parts: seq<seq<Item>>): (items: seq<Item>)
    ensures items != []
  {
    if Concat(parts) == [] then [HEARTBEAT] else Concat(parts)
  }

  lemma ItemsCarry(codec: Codec, before: Cache, parts: seq<seq<Item>>, after: Cache)
    requires Carries(codec, before, SentAll(Concat(parts)), after)
    ensures Carries(codec, before, SentAll(CycleItems(parts)), after)
  {
    if Concat(parts) == [] {
      assert SentAll([HEARTBEAT]) == [] + [Sent(HEARTBEAT)];
      CarriesNothing(codec, after, [Sent(HEARTBEAT)]);
      CarriesCompose(codec, before, SentAll(Concat(parts)), after, [Sent(HEARTBEAT)], after);
    }
  }

  lemma BatchCarries(codec: Codec, before: Cache, start: Batch, items: seq<Item>, after: Cache)
    requires start.items == [] && Carries(codec, before, SentAll(items), after)
    ensures Carries(codec, before, AddAll(start, items).items, after)
  {
    AddAllItems(start, items);
    forall j | 0 <= j < |items| ensures EffectOf(SentAll(items)[j]) == EffectOf(AddAll(start, items).items[j]) {
      assert AddedAt(start.header.batchId, items[j], |start.items| + j, AddAll(start, items).items[|start.items| + j]);
    }
    CarriesSameEffects(codec, before, SentAll(items), AddAll(start, items).items, after);
  }

  /** The batch of a clean cycle takes any receiver of the old cache to the new one. */
  lemma CycleCarries(
    config: Config, codec: Codec, cycle: Input, m: Memory, parts: seq<seq<Item>>, memories: seq<Memory>)
    requires CollectRun(config, codec, cycle, m, parts, memories)
    requires CleanRun(config, codec, cycle, memories) && WfCache(m.stateCache)
    ensures WfCache(memories[|parts|].stateCache)
    ensures Carries(codec, m.stateCache, CycleBatch(config, cycle, parts).items, memories[|parts|].stateCache)
    ensures CycleBatch(config, cycle, parts).items != []
  {
    var start, after :=
      NewBatch(cycle.batchId, "agent", config.agentId, config.tenantId, cycle.now), memories[|parts|].stateCache;
    RunCarries(config, codec, cycle, m, parts, memories);
    ItemsCarry(codec, m.stateCache, parts, after);
    BatchCarries(codec, m.stateCache, start, CycleItems(parts), after);
    AddAllItems(start, CycleItems(parts));
  }
}
