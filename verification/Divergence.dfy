/**
 A run that ends in disagreement: a chunk that the sender has read is taken back by a rollback and sent afterwards.
 */
module Divergence {
  import opened Wrappers
  import opened Envelope
  import opened Chunking
  import opened StateFilter
  import opened Receiver
  import opened Replication
  import opened Cycle
  import opened Delivery
  import opened Protocol

  const CODEC := Codec((_: Item) => Some(1), (_: Header) => 0, (_: Value) => Some("h"))
  const CONFIG := Config("a", "t", ["c"], map[], map["c" := 1], Limits(10, 100, 100), true)
  const SITE := Site(CONFIG, CODEC)
  const ITEM := Item("", 0, "state", "t", "k", Null)
  const INPUT := Input(1, "now", "b", [Collected([ITEM])])
  const SNAPSHOT := Snapshot(SnapshotId("b", "c"), 1, true, "now")
  const SHIPPED := Upsert(ITEM, SNAPSHOT)
  const STATES: States := map[KeyOf(ITEM) := CachedState("state", "t", "k", "h")]
  const BEFORE := Memory(map[], map[], map[], map[], false)
  const AFTER := Memory(map["c" := 1], map[], map["c" := 1], map["c" := STATES], true)
  const START := World([], map[], BEFORE, Idle, 0, [], false)

  function TheBatch(): Batch { CycleBatch(CONFIG, INPUT, [[SHIPPED]]) }

  function TheAttempt(): Attempt { Attempt(INPUT, [[SHIPPED]], [BEFORE, AFTER], ChunksOf(TheBatch(), [0, 1]), [0, 1]) }

  lemma Inventory()
    ensures LatestByKey([ITEM]) == map[KeyOf(ITEM) := ITEM] && Passthrough([ITEM]) == []
  {
    assert [ITEM][..0] == [];
  }

  lemma Current()
    ensures AllDigest(CODEC, [ITEM]) && CurrentStates(CODEC, [ITEM]) == STATES
  {
    Inventory();
    assert CurrentStates(CODEC, [ITEM]).Keys == {KeyOf(ITEM)};
    CurrentAt(CODEC, [ITEM], KeyOf(ITEM));
  }

  lemma TheDelta()
    ensures IsDelta(CODEC, map[], [ITEM], SNAPSHOT, [SHIPPED], [KeyOf(ITEM)], [])
  {
    Inventory();
    Current();
    assert ChangedKeys(map[], STATES, true) == {KeyOf(ITEM)} && DeletedKeys(map[], STATES) == {};
    assert Upserts(map[KeyOf(ITEM) := ITEM], [KeyOf(ITEM)], SNAPSHOT) == [SHIPPED];
    assert Tombstones(map[], [], SNAPSHOT) == [];
  }

  lemma TheRun()
    ensures CollectRun(CONFIG, CODEC, INPUT, BEFORE, [[SHIPPED]], [BEFORE, AFTER])
  {
    Current();
    TheDelta();
    var recovered := Memory(map["c" := 1], map[], map[], map[], false);
    var empty: map<string, bool> := map[];
    assert WithoutName(empty, "c") == empty;
    assert Filtered(CONFIG, CODEC, INPUT, "c", [ITEM], recovered, [SHIPPED], AFTER, [KeyOf(ITEM)], []);
    assert CollectStep(CONFIG, CODEC, INPUT, 0, BEFORE, [SHIPPED], AFTER);
  }

  lemma TheCycleIsClean()
    ensures CleanCycle(CONFIG, INPUT)
  {
    assert IntervalAt(CONFIG.fullIntervals, "c") == 1;
    assert CleanReport(1, INPUT.reports[0]);
  }

  lemma OneItemBatchOf(start: Batch, item: Item)
    requires start.items == []
    ensures var batch := AddAll(start, [item]);
            batch.header == start.header && |batch.items| == 1 && EffectOf(batch.items[0]) == EffectOf(Sent(item))
  {
    AddAllItems(start, [item]);
    assert AddedAt(start.header.batchId, item, 0, AddAll(start, [item]).items[0]);
  }

  lemma SmallBatchFits(codec: Codec, batch: Batch, limits: Limits)
    requires |batch.items| == 1 && codec.headerBytes(batch.header) == 0
    requires codec.itemBytes(batch.items[0]) == Some(1) && limits == Limits(10, 100, 100)
    ensures Marshals(codec, [batch.items[0]]) && Fits(codec, batch, limits, [batch.items[0]])
  {
    SingleItem(codec, batch.items, 0);
    assert BaseBytes(codec, batch) == 4;
  }

  lemma TheItems()
    ensures TheBatch() == AddAll(NewBatch("b", "agent", "a", "t", 1), [SHIPPED])
  {
    assert [[SHIPPED]][..0] == [] && Concat([[SHIPPED]]) == [] + [SHIPPED] == [SHIPPED];
  }

  lemma TheChunk()
    ensures |TheBatch().items| == 1 && EffectOf(TheBatch().items[0]) == EffectOf(Sent(SHIPPED))
    ensures Outcome(CODEC, TheBatch(), CONFIG.limits, Success(TheAttempt().chunks), [0, 1])
    ensures |TheAttempt().chunks| == 1 && TheAttempt().chunks[0].items == TheBatch().items
  {
    var batch := TheBatch();
    TheItems();
    OneItemBatchOf(NewBatch("b", "agent", "a", "t", 1), SHIPPED);
    SmallBatchFits(CODEC, batch, CONFIG.limits);
    OneItemBatch(CODEC, batch, CONFIG.limits);
  }

  lemma TheAttemptIsReal()
    ensures IsAttempt(SITE, BEFORE, TheAttempt())
  {
    TheRun();
    TheCycleIsClean();
    CleanReportsGiveCleanRun(CONFIG, CODEC, INPUT, BEFORE, [[SHIPPED]], [BEFORE, AFTER]);
    TheChunk();
  }

  /** The worlds of the run, one step after the other. */
  lemma TheWorlds(a: Attempt, chunk: Batch) returns (steps: seq<Step>)
    requires IsAttempt(SITE, BEFORE, a) && a.chunks == [chunk]
    ensures Run(SITE, START, steps) == Some(World([], ApplyAll(map[], chunk.items), BEFORE, Idle, 0, [chunk], true))
  {
    var w2 := World([chunk], map[], BEFORE, Pushing(a, 1, 0, 0, map[]), 0, [], false);
    RunOfPushes(SITE, START, a, 1);
    assert a.chunks[..1] == [chunk] && [] + [chunk] == [chunk];
    var pushed := [Begin(a)] + PushSteps(1);
    RunNext(SITE, START, pushed, Peek(25));
    var w3 := w2.(held := 1);
    assert Run(SITE, START, pushed + [Peek(25)]) == Some(w3);
    RunNext(SITE, START, pushed + [Peek(25)], RollBack);
    var w4 := World([], map[], BEFORE, Idle, 0, [chunk], false);
    TakenBack(w3, chunk);
    assert Run(SITE, START, pushed + [Peek(25)] + [RollBack]) == Some(w4);
    steps := pushed + [Peek(25)] + [RollBack] + [Send(true, true)];
    RunNext(SITE, START, pushed + [Peek(25)] + [RollBack], Send(true, true));
  }

  lemma SliceOne(chunk: Batch)
    ensures var one := [chunk]; one[..0] == [] && one[0..] == one && one[..1] == one
  {
  }

  lemma TakenBack(w: World, chunk: Batch)
    requires w.phase.Pushing? && w.phase.pushed == 1 && w.phase.acked == 0
    requires w.queue == [chunk] && w.held == 1 && w.stale == []
    ensures RolledBack(w) == w.(queue := [], phase := Idle, held := 0, stale := [chunk])
  {
    SliceOne(chunk);
    assert w.Own() == 1;
    assert w.Older() == [] && w.Owned() == [chunk];
    assert w.OwnHeld() == 1;
    assert [] + [chunk] == [chunk];
  }

  /**
   The cycle fails before the sender has sent anything, and its rollback succeeds; yet the sender goes on with what it
   has read, and the receiver gets a key that the agent has never committed.
   */
  lemma LateDeliveryDiverges() returns (steps: seq<Step>)
    ensures Inv(SITE, START) && Run(SITE, START, steps).Some?
    ensures var end := Run(SITE, START, steps).value;
            end.phase.Idle? && end.queue == [] && !Represents(CODEC, end.view, end.memory.stateCache)
  {
    FreshAgreement(SITE);
    TheAttemptIsReal();
    TheChunk();
    var chunk := TheAttempt().chunks[0];
    assert TheAttempt().chunks == [chunk];
    steps := TheWorlds(TheAttempt(), chunk);
    UncommittedKey(chunk.items);
  }

  lemma UncommittedKey(items: seq<Item>)
    requires |items| == 1 && EffectOf(items[0]) == EffectOf(Sent(SHIPPED))
    ensures !Represents(CODEC, ApplyAll(map[], items), BEFORE.stateCache)
  {
    UpsertPuts(ITEM, SNAPSHOT, "b", "c");
    StrayKey(CODEC, items, EffectOf(items[0]).value.at);
  }

  lemma StrayKey(codec: Codec, items: seq<Item>, at: StateKey)
    requires |items| == 1 && PutsAt(items[0], at)
    ensures !Represents(codec, ApplyAll(map[], items), map[])
  {
    FateOfTouched(items, at, None, 0);
    LookupIsFate(map[], items, at);
    var empty: Cache := map[];
    assert !Agrees(codec, Lookup(ApplyAll(map[], items), at), CacheAt(empty, at));
  }
}
