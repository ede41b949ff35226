/**
 The same reports once more: a cycle that starts from the same cache, no earlier, acts on every key that an
 interrupted one acted on, whatever the order of its items and however it is cut into chunks.
 */
module Retry {
  import opened Wrappers
  import opened Envelope
  import opened Chunking
  import opened StateFilter
  import opened Receiver
  import opened Replication
  import opened Recovery
  import opened Delivery
  import opened Cycle
  import opened Protocol
  import opened Repair

  // ---------------------------------------------------------------- which keys a list touches

  lemma TouchedByConcat(a: seq<Item>, b: seq<Item>, at: StateKey)
    ensures TouchedBy(a + b, at) <==> TouchedBy(a, at) || TouchedBy(b, at)
  {
    if TouchedBy(a, at) {
      var i :| 0 <= i < |a| && Touches(a[i], at);
      assert (a + b)[i] == a[i];
    }
    if TouchedBy(b, at) {
      var i :| 0 <= i < |b| && Touches(b[i], at);
      assert (a + b)[|a| + i] == b[i];
    }
  }

  /** A list of the same effects touches the same keys. */
  lemma TouchedBySameEffects(a: seq<Item>, b: seq<Item>, at: StateKey)
    requires |a| == |b| && forall j | 0 <= j < |a| :: EffectOf(a[j]) == EffectOf(b[j])
    ensures TouchedBy(a, at) <==> TouchedBy(b, at)
  {
    if TouchedBy(a, at) {
      var i :| 0 <= i < |a| && Touches(a[i], at);
      assert Touches(b[i], at);
    }
    if TouchedBy(b, at) {
      var i :| 0 <= i < |b| && Touches(b[i], at);
      assert Touches(a[i], at);
    }
  }

  lemma NothingTouched(items: seq<Item>, at: StateKey)
    requires NoEffects(items)
    ensures !TouchedBy(items, at)
  {
  }

  ghost predicate SomePartTouches(parts: seq<seq<Item>>, at: StateKey) {
    exists i :: 0 <= i < |parts| && TouchedBy(SentAll(parts[i]), at)
  }

  lemma {:induction false} TouchedByParts(parts: seq<seq<Item>>, at: StateKey)
    ensures TouchedBy(SentAll(Concat(parts)), at) <==> SomePartTouches(parts, at)
  {
    if parts != [] {
      var init, last := parts[..|parts| - 1], parts[|parts| - 1];
      TouchedByParts(init, at);
      SentConcat(parts);
      TouchedByJoin(SentAll(Concat(parts)), SentAll(Concat(init)), SentAll(last), at);
      SomePartLast(parts, at);
    }
  }

  lemma TouchedByJoin(all: seq<Item>, a: seq<Item>, b: seq<Item>, at: StateKey)
    requires all == a + b
    ensures TouchedBy(all, at) <==> TouchedBy(a, at) || TouchedBy(b, at)
  {
    TouchedByConcat(a, b, at);
  }

  lemma SomePartLast(parts: seq<seq<Item>>, at: StateKey)
    requires parts != []
    ensures SomePartTouches(parts, at) <==>
            SomePartTouches(parts[..|parts| - 1], at) || TouchedBy(SentAll(parts[|parts| - 1]), at)
  {
    var init := parts[..|parts| - 1];
    if SomePartTouches(init, at) {
      var i :| 0 <= i < |init| && TouchedBy(SentAll(init[i]), at);
      assert parts[i] == init[i];
    }
    forall i | 0 <= i < |init| ensures parts[i] == init[i] {
    }
  }

  /** The batch touches what its parts touch; the heartbeat of an idle cycle touches nothing. */
  lemma TouchedByBatch(config: Config, cycle: Input, parts: seq<seq<Item>>, at: StateKey)
    ensures TouchedBy(CycleBatch(config, cycle, parts).items, at) <==> SomePartTouches(parts, at)
  {
    var start := NewBatch(cycle.batchId, "agent", config.agentId, config.tenantId, cycle.now);
    TouchedWhenAdded(start, CycleItems(parts), at);
    TouchedByParts(parts, at);
    TouchedByHeartbeat(at);
    assert !TouchedBy(SentAll([]), at);
  }

  lemma TouchedByHeartbeat(at: StateKey)
    ensures !TouchedBy(SentAll([HEARTBEAT]), at)
  {
  }

  lemma TouchedWhenAdded(start: Batch, items: seq<Item>, at: StateKey)
    requires start.items == []
    ensures TouchedBy(AddAll(start, items).items, at) <==> TouchedBy(SentAll(items), at)
  {
    AddAllItems(start, items);
    forall j | 0 <= j < |items| ensures EffectOf(SentAll(items)[j]) == EffectOf(AddAll(start, items).items[j]) {
      assert AddedAt(start.header.batchId, items[j], |start.items| + j, AddAll(start, items).items[|start.items| + j]);
    }
    TouchedBySameEffects(SentAll(items), AddAll(start, items).items, at);
  }

  lemma ChunksOfAttempt(site: Site, before: Memory, a: Attempt)
    requires IsAttempt(site, before, a)
    ensures Flatten(a.chunks) == CycleBatch(site.config, a.input, a.parts).items
  {
    var batch := CycleBatch(site.config, a.input, a.parts);
    AddAllItems(NewBatch(a.input.batchId, "agent", site.config.agentId, site.config.tenantId, a.input.now),
                CycleItems(a.parts));
    ChunksAreTheBatch(site.codec, batch, site.config.limits, a.chunks, a.cuts);
  }

  lemma SomeChunksTouchLess(chunks: seq<Batch>, n: nat, at: StateKey)
    requires n <= |chunks| && TouchedBy(Flatten(chunks[..n]), at)
    ensures TouchedBy(Flatten(chunks), at)
  {
    assert chunks == chunks[..n] + chunks[n..];
    FlattenConcat(chunks[..n], chunks[n..]);
    TouchedByConcat(Flatten(chunks[..n]), Flatten(chunks[n..]), at);
  }

  /** The chunks touch what the parts touch. */
  lemma TouchedByChunks(site: Site, before: Memory, a: Attempt, at: StateKey)
    requires IsAttempt(site, before, a)
    ensures TouchedBy(Flatten(a.chunks), at) <==> SomePartTouches(a.parts, at)
  {
    ChunksOfAttempt(site, before, a);
    TouchedByBatch(site.config, a.input, a.parts, at);
  }

  // ---------------------------------------------------------------- one collector's turn, again

  /** Everything that decides about one collector: what it is compared with, and what is due. */
  ghost predicate AsEager(config: Config, name: string, m: Memory, now: int, m': Memory, now': int) {
    var previous, interval := Previous(m.stateCache, name), IntervalAt(config.fullIntervals, name);
    Previous(m'.stateCache, name) == previous &&
    (IsDue(config, m, name, now) ==> IsDue(config, m', name, now')) &&
    (FullDue(previous, TimeAt(m.lastFull, name), interval, now) ==>
       FullDue(previous, TimeAt(m'.lastFull, name), interval, now'))
  }

  /** What is due stays due, after a rollback and after a restart, which forgets when collectors ran. */
  lemma LaterIsAsEager(config: Config, name: string, m: Memory, now: int, m': Memory, now': int)
    requires m'.stateCache == m.stateCache && m'.lastFull == m.lastFull && now <= now'
    requires m'.lastCollected == map[] ||
             (m'.lastCollected == m.lastCollected && m'.collectorFailed == m.collectorFailed)
    ensures AsEager(config, name, m, now, m', now')
  {
  }

  /** The memory entries that another collector's turn leaves alone. */
  predicate SameEntries(name: string, m: Memory, m': Memory) {
    Previous(m'.stateCache, name) == Previous(m.stateCache, name) &&
    TimeAt(m'.lastFull, name) == TimeAt(m.lastFull, name) &&
    TimeAt(m'.lastCollected, name) == TimeAt(m.lastCollected, name) &&
    (name in m'.collectorFailed && m'.collectorFailed[name]) == (name in m.collectorFailed && m.collectorFailed[name])
  }

  lemma OthersTurn(
    config: Config, codec: Codec, cycle: Input, i: nat, m: Memory, part: seq<Item>, m': Memory, name: string)
    requires i < |config.collectors| == |cycle.reports| && name != config.collectors[i]
    requires CollectStep(config, codec, cycle, i, m, part, m')
    ensures SameEntries(name, m, m')
  {
    var own := config.collectors[i];
    var recovered := m.(lastCollected := m.lastCollected[own := cycle.now],
                        collectorFailed := WithoutName(m.collectorFailed, own));
    assert SameEntries(name, m, recovered);
    if ShipsDelta(config, cycle, i, m) {
      var up, del :| Filtered(config, codec, cycle, own, cycle.reports[i].items, recovered, part, m', up, del);
      FilterOfOthers(config, codec, cycle, own, cycle.reports[i].items, recovered, part, m', up, del, name);
    }
  }

  lemma FilterOfOthers(
    config: Config, codec: Codec, cycle: Input, own: string, items: seq<Item>, m: Memory, part: seq<Item>, m': Memory,
    up: seq<string>, del: seq<string>, name: string)
    requires Filtered(config, codec, cycle, own, items, m, part, m', up, del) && name != own
    ensures SameEntries(name, m, m')
  {
  }

  predicate Distinct(names: seq<string>) {
    forall i, j | 0 <= i < j < |names| :: names[i] != names[j]
  }

  /** A collector finds in memory what was there before the cycle. */
  lemma {:induction false} BeforeItsTurn(
    config: Config, codec: Codec, cycle: Input, m: Memory, parts: seq<seq<Item>>, memories: seq<Memory>, i: nat, n: nat)
    requires CollectRun(config, codec, cycle, m, parts, memories) && Distinct(config.collectors)
    requires n <= i < |config.collectors| && n <= |parts|
    ensures SameEntries(config.collectors[i], m, memories[n])
  {
    if n > 0 {
      BeforeItsTurn(config, codec, cycle, m, parts, memories, i, n - 1);
      assert CollectStep(config, codec, cycle, n - 1, memories[n - 1], parts[n - 1], memories[n - 1 + 1]);
      OthersTurn(config, codec, cycle, n - 1, memories[n - 1], parts[n - 1], memories[n], config.collectors[i]);
    }
  }

  lemma EagerThere(config: Config, name: string, m: Memory, now: int, m': Memory, now': int, n: Memory, n': Memory)
    requires AsEager(config, name, m, now, m', now') && SameEntries(name, m, n) && SameEntries(name, m', n')
    ensures AsEager(config, name, n, now, n', now')
  {
  }

  /** A turn that ships no delta touches nothing. */
  lemma OnlyDeltasTouch(
    config: Config, codec: Codec, cycle: Input, i: nat, m: Memory, part: seq<Item>, m': Memory, at: StateKey)
    requires i < |config.collectors| == |cycle.reports| && CleanTurn(config, codec, cycle, i, m)
    requires CollectStep(config, codec, cycle, i, m, part, m') && !ShipsDelta(config, cycle, i, m)
    ensures !TouchedBy(SentAll(part), at)
  {
    assert NoEffects(SentAll(part));
    NothingTouched(SentAll(part), at);
  }

  /** The inventory that collector `i` reports in the one cycle, it reports in the other. */
  predicate SameInventory(config: Config, cycle: Input, cycle': Input, i: nat)
    requires i < |config.collectors| == |cycle.reports| == |cycle'.reports|
  {
    cycle.reports[i].Collected? && IntervalAt(config.fullIntervals, config.collectors[i]) > 0 ==>
      cycle'.reports[i] == cycle.reports[i]
  }

  lemma TurnTouchesAgain(
    config: Config, codec: Codec, i: nat, at: StateKey,
    cycle: Input, m: Memory, part: seq<Item>, next: Memory, cycle': Input, m': Memory, part': seq<Item>, next': Memory)
    requires i < |config.collectors| == |cycle.reports| == |cycle'.reports| && SameInventory(config, cycle, cycle', i)
    requires ':' !in cycle.batchId && ':' !in cycle'.batchId && WfCache(m.stateCache) && WfCache(m'.stateCache)
    requires CleanTurn(config, codec, cycle, i, m) && CollectStep(config, codec, cycle, i, m, part, next)
    requires CollectStep(config, codec, cycle', i, m', part', next')
    requires AsEager(config, config.collectors[i], m, cycle.now, m', cycle'.now)
    requires TouchedBy(SentAll(part), at)
    ensures TouchedBy(SentAll(part'), at)
  {
    var name, items := config.collectors[i], cycle.reports[i].items;
    var previous := Previous(m.stateCache, name);
    if !ShipsDelta(config, cycle, i, m) {
      OnlyDeltasTouch(config, codec, cycle, i, m, part, next, at);
      assert false;
    } else {
      var snap, up, del := TheDelta(config, codec, cycle, i, m, part, next);
      var snap', up', del' := TheDelta(config, codec, cycle', i, m', part', next');
      DeltaTouches(codec, previous, items, snap, part, up, del, cycle.batchId, name, at);
      DeltaTouches(codec, previous, items, snap', part', up', del', cycle'.batchId, name, at);
    }
  }

  // ---------------------------------------------------------------- a whole cycle, again

  lemma WfOnTheWay(site: Site, m: Memory, a: Attempt, i: nat)
    requires IsAttempt(site, m, a) && WfCache(m.stateCache) && i <= |a.parts|
    ensures i < |a.memories| && WfCache(a.memories[i].stateCache)
  {
    var config, parts, memories := site.config, a.parts[..i], a.memories[..i + 1];
    forall j | 0 <= j < i ensures parts[j] == a.parts[j] && memories[j] == a.memories[j] {
    }
    assert memories[i] == a.memories[i];
    forall j | 0 <= j < i ensures CollectStep(config, site.codec, a.input, j, memories[j], parts[j], memories[j + 1]) {
      assert CollectStep(config, site.codec, a.input, j, a.memories[j], a.parts[j], a.memories[j + 1]);
    }
    RunCarries(config, site.codec, a.input, m, parts, memories);
  }

  ghost predicate SameReports(site: Site, m: Memory, a: Attempt, m': Memory, b: Attempt) {
    |a.input.reports| == |b.input.reports| == |site.config.collectors| &&
    forall i | 0 <= i < |site.config.collectors| ::
      SameInventory(site.config, a.input, b.input, i) &&
      AsEager(site.config, site.config.collectors[i], m, a.input.now, m', b.input.now)
  }

  lemma PartTouchedAgain(site: Site, m: Memory, a: Attempt, m': Memory, b: Attempt, i: nat, at: StateKey)
    requires IsAttempt(site, m, a) && IsAttempt(site, m', b) && WfCache(m.stateCache) && WfCache(m'.stateCache)
    requires Distinct(site.config.collectors) && SameReports(site, m, a, m', b)
    requires i < |a.parts| && TouchedBy(SentAll(a.parts[i]), at)
    ensures i < |b.parts| && TouchedBy(SentAll(b.parts[i]), at)
  {
    var config, codec, name := site.config, site.codec, site.config.collectors[i];
    WfOnTheWay(site, m, a, i);
    WfOnTheWay(site, m', b, i);
    BeforeItsTurn(config, codec, a.input, m, a.parts, a.memories, i, i);
    BeforeItsTurn(config, codec, b.input, m', b.parts, b.memories, i, i);
    EagerThere(config, name, m, a.input.now, m', b.input.now, a.memories[i], b.memories[i]);
    assert CollectStep(config, codec, a.input, i, a.memories[i], a.parts[i], a.memories[i + 1]);
    assert CollectStep(config, codec, b.input, i, b.memories[i], b.parts[i], b.memories[i + 1]);
    TurnTouchesAgain(config, codec, i, at, a.input, a.memories[i], a.parts[i], a.memories[i + 1],
                     b.input, b.memories[i], b.parts[i], b.memories[i + 1]);
  }

  /** The second cycle touches every key that any part of the first one touches. */
  lemma AttemptTouchesAgain(site: Site, m: Memory, a: Attempt, m': Memory, b: Attempt, n: nat, at: StateKey)
    requires IsAttempt(site, m, a) && IsAttempt(site, m', b) && WfCache(m.stateCache) && WfCache(m'.stateCache)
    requires Distinct(site.config.collectors) && SameReports(site, m, a, m', b)
    requires n <= |a.chunks| && TouchedBy(Flatten(a.chunks[..n]), at)
    ensures TouchedBy(Flatten(b.chunks), at)
  {
    SomeChunksTouchLess(a.chunks, n, at);
    TouchedByChunks(site, m, a, at);
    var i :| 0 <= i < |a.parts| && TouchedBy(SentAll(a.parts[i]), at);
    PartTouchedAgain(site, m, a, m', b, i, at);
    TouchedByChunks(site, m', b, at);
  }

  lemma LeakIsPrefix(w: World, step: Step, leak: seq<Item>) returns (n: nat)
    requires w.phase.Pushing? && leak in Leaks(w, step)
    ensures n <= |w.phase.attempt.chunks| && leak == Flatten(w.phase.attempt.chunks[..n])
  {
    var k :| 0 <= k <= Reach(w, step) && leak == Flatten(Escaped(w, step, k));
    var chunks := w.phase.attempt.chunks;
    n := |Escaped(w, step, k)|;
    assert chunks == chunks[..|chunks|];
  }

  // ---------------------------------------------------------------- whole runs

  /** Every leak touches only what the cycle touches. */
  ghost predicate Covers(b: Attempt, leaks: set<seq<Item>>) {
    forall leak, at | leak in leaks && TouchedBy(leak, at) :: TouchedBy(Flatten(b.chunks), at)
  }

  lemma CoversFurther(b: Attempt, leaks: set<seq<Item>>, more: set<seq<Item>>)
    requires Covers(b, leaks) && Covers(b, more)
    ensures Covers(b, Further(leaks, more))
  {
    forall both, at | both in Further(leaks, more) && TouchedBy(both, at) ensures TouchedBy(Flatten(b.chunks), at) {
      var leak, next :| leak in leaks && next in more && both == leak + next;
      TouchedByConcat(leak, next, at);
    }
  }

  lemma CoversInterrupted(site: Site, w: World, step: Step, m': Memory, b: Attempt)
    requires w.phase.Pushing? && IsAttempt(site, w.memory, w.phase.attempt) && IsAttempt(site, m', b)
    requires WfCache(w.memory.stateCache) && WfCache(m'.stateCache) && Distinct(site.config.collectors)
    requires SameReports(site, w.memory, w.phase.attempt, m', b)
    ensures Covers(b, Leaks(w, step))
  {
    forall leak, at | leak in Leaks(w, step) && TouchedBy(leak, at) ensures TouchedBy(Flatten(b.chunks), at) {
      var n := LeakIsPrefix(w, step, leak);
      AttemptTouchesAgain(site, w.memory, w.phase.attempt, m', b, n, at);
    }
  }

  /** Every cycle that was interrupted on the way reported the inventories that the last one reports. */
  ghost predicate SameAllAlong(site: Site, w: World, steps: seq<Step>, m': Memory, b: Attempt) {
    forall i | 0 <= i < |steps| ::
      var before := Run(site, w, steps[..i]);
      before.Some? && Interrupts(before.value, steps[i]) ==>
        SameReports(site, before.value.memory, before.value.phase.attempt, m', b)
  }

  lemma SamePrefix(site: Site, w: World, steps: seq<Step>, m': Memory, b: Attempt)
    requires steps != [] && SameAllAlong(site, w, steps, m', b)
    ensures SameAllAlong(site, w, steps[..|steps| - 1], m', b)
    ensures var before, last := Run(site, w, steps[..|steps| - 1]), steps[|steps| - 1];
            before.Some? && Interrupts(before.value, last) ==>
              SameReports(site, before.value.memory, before.value.phase.attempt, m', b)
  {
    var init := steps[..|steps| - 1];
    forall i | 0 <= i < |init| ensures init[..i] == steps[..i] && init[i] == steps[i] {
    }
  }

  lemma {:induction false} CoversLeaked(site: Site, w: World, steps: seq<Step>, m': Memory, b: Attempt)
    requires Inv(site, w) && Uncommitted(site, w, steps) && SameAllAlong(site, w, steps, m', b)
    requires IsAttempt(site, m', b) && WfCache(m'.stateCache) && Distinct(site.config.collectors)
    ensures Covers(b, Leaked(site, w, steps))
  {
    if steps != [] {
      var init, last := steps[..|steps| - 1], steps[|steps| - 1];
      UncommittedPrefix(site, w, steps);
      SamePrefix(site, w, steps, m', b);
      CoversLeaked(site, w, init, m', b);
      MarredRun(site, w, init);
      var before := Run(site, w, init).value;
      if Interrupts(before, last) {
        CoversInterrupted(site, before, last, m', b);
        CoversFurther(b, Leaked(site, w, init), Leaks(before, last));
      }
    }
  }

  /**
   Self-healing: however often and badly cycles are interrupted, the next one that commits, no earlier and with the same
   inventories, brings the agreement back, after any sending, failing and restarting in between.
   */
  lemma SameReportsRepair(site: Site, w: World, steps: seq<Step>)
    requires Inv(site, w) && Uncommitted(site, w, steps) && Distinct(site.config.collectors)
    requires var late := Run(site, w, steps).value;
             Enabled(site, late, Commit) && SameAllAlong(site, w, steps, late.memory, late.phase.attempt)
    ensures Inv(site, Next(site, Run(site, w, steps).value, Commit))
  {
    var late := Run(site, w, steps).value;
    MarredRun(site, w, steps);
    CoversLeaked(site, w, steps, late.memory, late.phase.attempt);
    LeaksAreRepaired(site, w, steps);
  }
}
