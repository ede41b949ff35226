/**
 Deltas carry a receiver from one cached inventory to the next.
 */
module Replication {
  import opened Wrappers
  import opened Envelope
  import opened StateFilter
  import opened Receiver

  /** What a payload looks like at the receiver: redacted, and without the agent's metadata. */
  function Visible(payload: Value): Value {
    Obj(Redact(Obj(BaseFields(payload))).fields - METADATA)
  }

  /** `value` is what some payload with digest `hash` looks like at the receiver. */
  ghost predicate Shows(codec: Codec, value: Value, hash: string) {
    exists payload :: codec.digest(payload) == Some(hash) && value == Visible(payload)
  }

  /** The receiver key of a cached entry of `collector`. */
  function KeyAt(collector: string, entry: CachedState): StateKey {
    StateKey(collector, entry.kind, entry.typ, entry.key)
  }

  function ItemAt(collector: string, item: Item): StateKey {
    StateKey(collector, item.kind, item.typ, item.key)
  }

  function CompositeAt(at: StateKey): string { CompositeKey(at.kind, at.typ, at.key) }

  function Previous(cache: Cache, collector: string): States {
    if collector in cache then cache[collector] else map[]
  }

  /** The hash that `collector`'s inventory holds for one receiver key. */
  function HashIn(states: States, collector: string, at: StateKey): Option<string> {
    if CompositeAt(at) in states && KeyAt(collector, states[CompositeAt(at)]) == at
    then Some(states[CompositeAt(at)].hash) else None
  }

  function CacheAt(cache: Cache, at: StateKey): Option<string> {
    HashIn(Previous(cache, at.collector), at.collector, at)
  }

  ghost predicate Agrees(codec: Codec, value: Option<Value>, hash: Option<string>) {
    (value.Some? <==> hash.Some?) && (value.Some? ==> Shows(codec, value.value, hash.value))
  }

  /** The receiver holds exactly the cached identities, each with a payload of the cached digest. */
  ghost predicate Represents(codec: Codec, view: View, cache: Cache) {
    forall at: StateKey :: Agrees(codec, Lookup(view, at), CacheAt(cache, at))
  }

  /** Applying `items` to any receiver that represents `cache` makes it represent `cache'`. */
  ghost predicate Carries(codec: Codec, cache: Cache, items: seq<Item>, cache': Cache) {
    forall view: View :: Represents(codec, view, cache) ==> Represents(codec, ApplyAll(view, items), cache')
  }

  lemma CarriesCompose(codec: Codec, a: Cache, xs: seq<Item>, b: Cache, ys: seq<Item>, c: Cache)
    requires Carries(codec, a, xs, b) && Carries(codec, b, ys, c)
    ensures Carries(codec, a, xs + ys, c)
  {
    forall view: View | Represents(codec, view, a)
      ensures Represents(codec, ApplyAll(view, xs + ys), c)
    {
      ApplyAllConcat(view, xs, ys);
      assert Represents(codec, ApplyAll(view, xs), b);
    }
  }

  predicate NoEffects(items: seq<Item>) {
    forall i | 0 <= i < |items| :: EffectOf(items[i]).None?
  }

  lemma CarriesNothing(codec: Codec, cache: Cache, items: seq<Item>)
    requires NoEffects(items)
    ensures Carries(codec, cache, items, cache)
  {
    forall view: View ensures ApplyAll(view, items) == view {
      forall at ensures Lookup(ApplyAll(view, items), at) == Lookup(view, at) {
        LookupIsFate(view, items, at);
        FateUntouched(items, at, Lookup(view, at));
      }
      ViewsEqual(ApplyAll(view, items), view);
    }
  }

  // ---------------------------------------------------------------- items as sent

  /** The item as `Batch.Add` passes it on, up to its number and identifier. */
  function Sent(item: Item): Item { item.(payload := Redact(item.payload)) }

  function SentAll(items: seq<Item>): seq<Item> {
    seq(|items|, i requires 0 <= i < |items| => Sent(items[i]))
  }

  lemma {:induction false} SameEffects(view: View, a: seq<Item>, b: seq<Item>)
    requires |a| == |b| && forall i | 0 <= i < |a| :: EffectOf(a[i]) == EffectOf(b[i])
    ensures ApplyAll(view, a) == ApplyAll(view, b)
  {
    if a != [] {
      SameEffects(view, a[..|a| - 1], b[..|b| - 1]);
    }
  }

  lemma CarriesSameEffects(codec: Codec, cache: Cache, a: seq<Item>, b: seq<Item>, cache': Cache)
    requires |a| == |b| && forall i | 0 <= i < |a| :: EffectOf(a[i]) == EffectOf(b[i])
    requires Carries(codec, cache, a, cache')
    ensures Carries(codec, cache, b, cache')
  {
    forall view: View | Represents(codec, view, cache)
      ensures Represents(codec, ApplyAll(view, b), cache')
    {
      SameEffects(view, a, b);
    }
  }

  lemma {:induction false} AfterColonOf(prefix: string, rest: string)
    requires ':' !in prefix
    ensures AfterColon(prefix + ":" + rest) == rest
  {
    if prefix == [] {
      assert prefix + ":" + rest == [':'] + rest;
    } else {
      assert (prefix + ":" + rest)[1..] == prefix[1..] + ":" + rest;
      AfterColonOf(prefix[1..], rest);
    }
  }

  function SnapshotId(batchId: string, collector: string): string { batchId + ":" + collector }

  lemma MetadataKeysDiffer()
    ensures ID != COUNT && ID != FULL && ID != DELETED && ID != "observed_at"
    ensures COUNT != FULL && COUNT != DELETED && COUNT != "observed_at"
    ensures FULL != DELETED && FULL != "observed_at" && DELETED != "observed_at"
  {
    assert ID[0] != "observed_at"[0];
  }

  /** A payload that has its own `deleted: true` field reads as a tombstone. */
  predicate SelfDeleted(item: Item) { IsTombstone(BaseFields(item.payload)) }

  /** What the upsert of an item leaves at the receiver. */
  function Shipped(item: Item): Option<Value> {
    if SelfDeleted(item) then None else Some(Visible(item.payload))
  }

  /** Stripping the metadata gives back the redacted payload. */
  lemma StrippedUpsert(payload: Value, snap: Snapshot)
    ensures Redact(WithSnapshotMetadata(payload, snap)).fields - METADATA
            == Redact(Obj(BaseFields(payload))).fields - METADATA
  {
  }

  lemma UpsertEffect(item: Item, snap: Snapshot, batchId: string, collector: string)
    requires IsInventoryKind(item.kind)
    requires ':' !in batchId && snap.id == SnapshotId(batchId, collector)
    ensures EffectOf(Sent(Upsert(item, snap))).Some?
    ensures EffectOf(Sent(Upsert(item, snap))).value.at == ItemAt(collector, item)
    ensures Written(Sent(Upsert(item, snap))) == Shipped(item)
  {
    MetadataKeysAreNotSensitive();
    MetadataKeysDiffer();
    AfterColonOf(batchId, collector);
    var base := BaseFields(item.payload);
    var full := WithSnapshotMetadata(item.payload, snap).fields;
    var sent := Redact(Obj(full)).fields;
    RedactField(full, ID);
    if DELETED in base {
      RedactField(full, DELETED);
    }
    StrippedUpsert(item.payload, snap);
  }

  lemma TombstoneEffect(entry: CachedState, snap: Snapshot, batchId: string, collector: string)
    requires IsInventoryKind(entry.kind)
    requires ':' !in batchId && snap.id == SnapshotId(batchId, collector)
    ensures EffectOf(Sent(Tombstone(entry, snap))) == Some(Remove(KeyAt(collector, entry)))
  {
    MetadataKeysAreNotSensitive();
    MetadataKeysDiffer();
    AfterColonOf(batchId, collector);
    var full := Tombstone(entry, snap).payload.fields;
    RedactField(full, ID);
    RedactField(full, DELETED);
  }

  lemma {:induction false} PassthroughKinds(items: seq<Item>)
    ensures forall i | 0 <= i < |Passthrough(items)| :: !IsInventoryKind(Passthrough(items)[i].kind)
  {
    if items != [] {
      PassthroughKinds(items[..|items| - 1]);
    }
  }

  // ---------------------------------------------------------------- the delta theorem

  /** Each entry is of an inventory kind and sits under its own composite key. */
  predicate WfStates(states: States) {
    forall k | k in states :: WfEntry(states[k]) && k == CompositeKey(states[k].kind, states[k].typ, states[k].key)
  }

  predicate WfEntry(entry: CachedState) { IsInventoryKind(entry.kind) }

  predicate NulFreeStates(states: States) {
    forall k | k in states :: NoNul(states[k].typ)
  }

  predicate WfCache(cache: Cache) { forall c | c in cache :: WfStates(cache[c]) }

  predicate NulFreeCache(cache: Cache) { forall c | c in cache :: NulFreeStates(cache[c]) }

  predicate NulFree(items: seq<Item>) {
    forall i | 0 <= i < |items| && IsInventoryKind(items[i].kind) :: NoNul(items[i].typ)
  }

  lemma CurrentIsWf(codec: Codec, items: seq<Item>)
    requires AllDigest(codec, items)
    ensures WfStates(CurrentStates(codec, items))
    ensures forall k | k in LatestByKey(items) ::
              && IsInventoryKind(LatestByKey(items)[k].kind)
              && k == KeyOf(LatestByKey(items)[k])
  {
    var latest := LatestByKey(items);
    forall k | k in latest ensures IsInventoryKind(latest[k].kind) && KeyOf(latest[k]) == k {
      LatestComesFromItems(items, k);
    }
  }

  lemma CurrentIsNulFree(codec: Codec, items: seq<Item>)
    requires AllDigest(codec, items) && NulFree(items)
    ensures NulFreeStates(CurrentStates(codec, items))
  {
    forall k | k in LatestByKey(items) ensures NoNul(LatestByKey(items)[k].typ) {
      LatestComesFromItems(items, k);
    }
  }

  /** The delta of one collector, and what the theorems about it assume. */
  ghost predicate DeltaOf(
    codec: Codec, previous: States, items: seq<Item>, snap: Snapshot, filtered: seq<Item>,
    up: seq<string>, del: seq<string>, batchId: string, collector: string)
  {
    IsDelta(codec, previous, items, snap, filtered, up, del) &&
    WfStates(previous) &&
    ':' !in batchId && snap.id == SnapshotId(batchId, collector)
  }

  lemma PassthroughFate(items: seq<Item>, at: StateKey, before: Option<Value>)
    ensures Fate(SentAll(Passthrough(items)), at, before) == before
  {
    PassthroughKinds(items);
    FateUntouched(SentAll(Passthrough(items)), at, before);
  }

  lemma UpsertsFate(
    latest: map<string, Item>, order: seq<string>, snap: Snapshot, batchId: string, collector: string,
    at: StateKey, before: Option<Value>)
    requires ':' !in batchId && snap.id == SnapshotId(batchId, collector)
    requires forall k | k in order :: k in latest
    requires forall k | k in latest :: IsInventoryKind(latest[k].kind) && k == KeyOf(latest[k])
    ensures var k := CompositeAt(at);
            Fate(SentAll(Upserts(latest, order, snap)), at, before) ==
            if k in order && ItemAt(collector, latest[k]) == at then Shipped(latest[k]) else before
  {
    var sent, k := SentAll(Upserts(latest, order, snap)), CompositeAt(at);
    forall j | 0 <= j < |sent|
      ensures order[j] in latest && (Touches(sent[j], at) <==> ItemAt(collector, latest[order[j]]) == at)
      ensures Touches(sent[j], at) ==> order[j] == k && Written(sent[j]) == Shipped(latest[k])
    {
      assert order[j] in order;
      UpsertEffect(latest[order[j]], snap, batchId, collector);
    }
    if k in order && ItemAt(collector, latest[k]) == at {
      var i :| 0 <= i < |order| && order[i] == k;
      FateOfTouched(sent, at, before, i);
    } else {
      FateUntouched(sent, at, before);
    }
  }

  lemma TombstonesFate(
    previous: States, order: seq<string>, snap: Snapshot, batchId: string, collector: string,
    at: StateKey, before: Option<Value>)
    requires ':' !in batchId && snap.id == SnapshotId(batchId, collector) && WfStates(previous)
    requires forall k | k in order :: k in previous
    ensures Fate(SentAll(Tombstones(previous, order, snap)), at, before) ==
            if CompositeAt(at) in order && HashIn(previous, collector, at).Some? then None else before
  {
    var sent, k := SentAll(Tombstones(previous, order, snap)), CompositeAt(at);
    forall j | 0 <= j < |sent|
      ensures order[j] in previous && EffectOf(sent[j]) == Some(Remove(KeyAt(collector, previous[order[j]])))
      ensures Touches(sent[j], at) ==> order[j] == k
    {
      assert order[j] in order;
      TombstoneEffect(previous[order[j]], snap, batchId, collector);
    }
    if k in order && HashIn(previous, collector, at).Some? {
      var i :| 0 <= i < |order| && order[i] == k;
      FateOfTouched(sent, at, before, i);
    } else {
      FateUntouched(sent, at, before);
    }
  }

  /** The fate of one key under the delta of a collector. */
  lemma PartsOfDelta(
    codec: Codec, previous: States, items: seq<Item>, snap: Snapshot, filtered: seq<Item>,
    up: seq<string>, del: seq<string>)
    requires IsDelta(codec, previous, items, snap, filtered, up, del)
    ensures SentAll(filtered) == SentAll(Passthrough(items)) + SentAll(Upserts(LatestByKey(items), up, snap))
                                 + SentAll(Tombstones(previous, del, snap))
  {
  }

  lemma FateOfThree(a: seq<Item>, b: seq<Item>, c: seq<Item>, at: StateKey, before: Option<Value>)
    ensures Fate(a + b + c, at, before) == Fate(c, at, Fate(b, at, Fate(a, at, before)))
  {
    FateConcat(a + b, c, at, before);
    FateConcat(a, b, at, before);
  }

  lemma DeltaFate(
    codec: Codec, previous: States, items: seq<Item>, snap: Snapshot, filtered: seq<Item>,
    up: seq<string>, del: seq<string>, batchId: string, collector: string,
    at: StateKey, before: Option<Value>)
    requires DeltaOf(codec, previous, items, snap, filtered, up, del, batchId, collector)
    ensures var current, latest, k := CurrentStates(codec, items), LatestByKey(items), CompositeAt(at);
            Fate(SentAll(filtered), at, before) ==
            if HashIn(current, collector, at).Some? && IsChanged(previous, current, snap.full, k)
            then Shipped(latest[k])
            else if k !in current && HashIn(previous, collector, at).Some? then None
            else before
  {
    var latest := LatestByKey(items);
    var pass, ups, dels := Passthrough(items), Upserts(latest, up, snap), Tombstones(previous, del, snap);
    CurrentIsWf(codec, items);
    PartsOfDelta(codec, previous, items, snap, filtered, up, del);
    FateOfThree(SentAll(pass), SentAll(ups), SentAll(dels), at, before);
    PassthroughFate(items, at, before);
    UpsertsFate(latest, up, snap, batchId, collector, at, before);
    TombstonesFate(previous, del, snap, batchId, collector, at, Fate(SentAll(ups), at, before));
  }

  predicate SameIdentity(a: CachedState, b: CachedState) {
    a.kind == b.kind && a.typ == b.typ && a.key == b.key
  }

  /** No composite key changes hands between two identities. */
  ghost predicate KeepsIdentities(previous: States, current: States) {
    forall k | k in previous && k in current :: SameIdentity(previous[k], current[k])
  }

  /** The composite key of `at` changes hands, and the delta does not put right what that means for `at`. */
  predicate Displaced(previous: States, current: States, full: bool, collector: string, at: StateKey) {
    var k := CompositeAt(at);
    k in previous && k in current && !SameIdentity(previous[k], current[k]) &&
    (HashIn(previous, collector, at).Some? ||
     (HashIn(current, collector, at).Some? && !IsChanged(previous, current, full, k)))
  }

  /** A changed key whose payload says of itself that it is deleted. */
  predicate Suppressed(previous: States, current: States, items: seq<Item>, full: bool, collector: string, at: StateKey)
    requires CompositeAt(at) in current ==> CompositeAt(at) in LatestByKey(items)
  {
    HashIn(current, collector, at).Some? && IsChanged(previous, current, full, CompositeAt(at)) &&
    SelfDeleted(LatestByKey(items)[CompositeAt(at)])
  }

  lemma DeltaAgrees(
    codec: Codec, cache: Cache, items: seq<Item>, snap: Snapshot, filtered: seq<Item>,
    up: seq<string>, del: seq<string>, batchId: string, collector: string, at: StateKey, before: Option<Value>)
    requires DeltaOf(codec, Previous(cache, collector), items, snap, filtered, up, del, batchId, collector)
    requires Agrees(codec, before, CacheAt(cache, at))
    ensures var previous, current := Previous(cache, collector), CurrentStates(codec, items);
            Agrees(codec, Fate(SentAll(filtered), at, before), CacheAt(cache[collector := current], at))
            <==> !Suppressed(previous, current, items, snap.full, collector, at) &&
                 !(at.collector == collector && Displaced(previous, current, snap.full, collector, at))
  {
    var previous, current, k := Previous(cache, collector), CurrentStates(codec, items), CompositeAt(at);
    DeltaFate(codec, previous, items, snap, filtered, up, del, batchId, collector, at, before);
    if at.collector == collector && k in current {
      CurrentIsWf(codec, items);
      CurrentAt(codec, items, k);
    }
  }

  /** No item that this delta has to ship says of itself that it is deleted. */
  ghost predicate ShipsLiveItems(codec: Codec, previous: States, items: seq<Item>, full: bool)
    requires AllDigest(codec, items)
  {
    forall k | k in ChangedKeys(previous, CurrentStates(codec, items), full) :: !SelfDeleted(LatestByKey(items)[k])
  }

  /**
   A delta takes a receiver of the old cache to one of the new cache, whatever the iteration order, exactly when no
   shipped payload has a `deleted: true` field of its own and no composite key changes hands. Nothing is assumed of
   types and keys; both conditions can be read off the two inventories before the call.
   */
  lemma DeltaReplicatesIff(
    codec: Codec, cache: Cache, items: seq<Item>, snap: Snapshot, filtered: seq<Item>,
    up: seq<string>, del: seq<string>, batchId: string, collector: string, view: View)
    requires DeltaOf(codec, Previous(cache, collector), items, snap, filtered, up, del, batchId, collector)
    requires Represents(codec, view, cache)
    ensures Represents(codec, ApplyAll(view, SentAll(filtered)), cache[collector := CurrentStates(codec, items)])
            <==> ShipsLiveItems(codec, Previous(cache, collector), items, snap.full) &&
                 KeepsIdentities(Previous(cache, collector), CurrentStates(codec, items))
  {
    var previous, current := Previous(cache, collector), CurrentStates(codec, items);
    var view', cache' := ApplyAll(view, SentAll(filtered)), cache[collector := current];
    if Represents(codec, view', cache') {
      forall at: StateKey ensures Spared(codec, previous, items, snap.full, collector, at) {
        assert Agrees(codec, Lookup(view', at), CacheAt(cache', at));
        SparedIff(codec, cache, items, snap, filtered, up, del, batchId, collector, view, at);
      }
      NothingSuppressed(codec, previous, items, snap.full, collector);
      NothingDisplaced(codec, previous, items, snap.full, collector);
    }
    if ShipsLiveItems(codec, previous, items, snap.full) && KeepsIdentities(previous, current) {
      forall at: StateKey ensures Agrees(codec, Lookup(view', at), CacheAt(cache', at)) {
        CleanDeltaSpares(codec, previous, items, snap.full, collector, at);
        SparedIff(codec, cache, items, snap, filtered, up, del, batchId, collector, view, at);
      }
    }
  }

  /** The delta does nothing wrong at one key. */
  ghost predicate Spared(codec: Codec, previous: States, items: seq<Item>, full: bool, collector: string, at: StateKey)
    requires AllDigest(codec, items)
  {
    !Suppressed(previous, CurrentStates(codec, items), items, full, collector, at) &&
    !(at.collector == collector && Displaced(previous, CurrentStates(codec, items), full, collector, at))
  }

  lemma SparedIff(
    codec: Codec, cache: Cache, items: seq<Item>, snap: Snapshot, filtered: seq<Item>,
    up: seq<string>, del: seq<string>, batchId: string, collector: string, view: View, at: StateKey)
    requires DeltaOf(codec, Previous(cache, collector), items, snap, filtered, up, del, batchId, collector)
    requires Represents(codec, view, cache)
    ensures Agrees(codec, Lookup(ApplyAll(view, SentAll(filtered)), at),
                   CacheAt(cache[collector := CurrentStates(codec, items)], at))
            <==> Spared(codec, Previous(cache, collector), items, snap.full, collector, at)
  {
    LookupIsFate(view, SentAll(filtered), at);
    assert Agrees(codec, Lookup(view, at), CacheAt(cache, at));
    DeltaAgrees(codec, cache, items, snap, filtered, up, del, batchId, collector, at, Lookup(view, at));
  }

  lemma CleanDeltaSpares(
    codec: Codec, previous: States, items: seq<Item>, full: bool, collector: string, at: StateKey)
    requires AllDigest(codec, items) && ShipsLiveItems(codec, previous, items, full)
    requires KeepsIdentities(previous, CurrentStates(codec, items))
    ensures Spared(codec, previous, items, full, collector, at)
  {
  }

  lemma NothingSuppressed(
    codec: Codec, previous: States, items: seq<Item>, full: bool, collector: string)
    requires AllDigest(codec, items)
    requires forall at: StateKey :: Spared(codec, previous, items, full, collector, at)
    ensures ShipsLiveItems(codec, previous, items, full)
  {
    var current := CurrentStates(codec, items);
    CurrentIsWf(codec, items);
    forall k | k in ChangedKeys(previous, current, full) ensures !SelfDeleted(LatestByKey(items)[k]) {
      var at := KeyAt(collector, current[k]);
      assert CompositeAt(at) == k;
      assert Spared(codec, previous, items, full, collector, at);
    }
  }

  lemma NothingDisplaced(
    codec: Codec, previous: States, items: seq<Item>, full: bool, collector: string)
    requires AllDigest(codec, items) && WfStates(previous)
    requires forall at: StateKey :: Spared(codec, previous, items, full, collector, at)
    ensures KeepsIdentities(previous, CurrentStates(codec, items))
  {
    var current := CurrentStates(codec, items);
    forall k | k in previous && k in current ensures SameIdentity(previous[k], current[k]) {
      var at := KeyAt(collector, previous[k]);
      assert CompositeAt(at) == k;
      assert Spared(codec, previous, items, full, collector, at);
    }
  }

  /** With types free of NUL no composite key can change hands. */
  lemma NulFreeKeepsIdentities(previous: States, current: States)
    requires WfStates(previous) && NulFreeStates(previous) && WfStates(current) && NulFreeStates(current)
    ensures KeepsIdentities(previous, current)
  {
    forall k | k in previous && k in current ensures SameIdentity(previous[k], current[k]) {
      var x, y := previous[k], current[k];
      CompositeKeyInjective(x.kind, x.typ, x.key, y.kind, y.typ, y.key);
    }
  }

  lemma DeltaCarries(
    codec: Codec, cache: Cache, items: seq<Item>, snap: Snapshot, filtered: seq<Item>,
    up: seq<string>, del: seq<string>, batchId: string, collector: string)
    requires DeltaOf(codec, Previous(cache, collector), items, snap, filtered, up, del, batchId, collector)
    requires ShipsLiveItems(codec, Previous(cache, collector), items, snap.full)
    requires KeepsIdentities(Previous(cache, collector), CurrentStates(codec, items))
    ensures Carries(codec, cache, SentAll(filtered), cache[collector := CurrentStates(codec, items)])
  {
    forall view: View | Represents(codec, view, cache)
      ensures Represents(codec, ApplyAll(view, SentAll(filtered)), cache[collector := CurrentStates(codec, items)])
    {
      DeltaReplicatesIff(codec, cache, items, snap, filtered, up, del, batchId, collector, view);
    }
  }

  /** ... in particular when neither the cache nor the report has a NUL in a type. */
  lemma NulFreeDeltaCarries(
    codec: Codec, cache: Cache, items: seq<Item>, snap: Snapshot, filtered: seq<Item>,
    up: seq<string>, del: seq<string>, batchId: string, collector: string)
    requires DeltaOf(codec, Previous(cache, collector), items, snap, filtered, up, del, batchId, collector)
    requires ShipsLiveItems(codec, Previous(cache, collector), items, snap.full)
    requires WfCache(cache) && NulFreeCache(cache) && NulFree(items)
    ensures NulFreeCache(cache[collector := CurrentStates(codec, items)])
    ensures Carries(codec, cache, SentAll(filtered), cache[collector := CurrentStates(codec, items)])
  {
    CurrentIsWf(codec, items);
    CurrentIsNulFree(codec, items);
    NulFreeKeepsIdentities(Previous(cache, collector), CurrentStates(codec, items));
    DeltaCarries(codec, cache, items, snap, filtered, up, del, batchId, collector);
  }

  /** No other payload with the digest of a reported one looks different at the receiver. */
  ghost predicate CollisionFree(codec: Codec, items: seq<Item>) {
    forall k, payload |
      k in LatestByKey(items) && codec.digest(payload) == codec.digest(LatestByKey(items)[k].payload) ::
      Visible(payload) == Visible(LatestByKey(items)[k].payload)
  }

  /**
   Representing the cache means holding the inventory itself: for every key of the collector the
   redacted payload that was last reported, and nothing for keys that were not reported.
   */
  lemma ReceiverHoldsInventory(
    codec: Codec, cache: Cache, collector: string, items: seq<Item>, view: View, at: StateKey)
    requires AllDigest(codec, items) && CollisionFree(codec, items)
    requires Previous(cache, collector) == CurrentStates(codec, items) && Represents(codec, view, cache)
    requires at.collector == collector
    ensures var latest, k := LatestByKey(items), CompositeAt(at);
            Lookup(view, at) ==
            if k in latest && ItemAt(collector, latest[k]) == at then Some(Visible(latest[k].payload)) else None
  {
    assert Agrees(codec, Lookup(view, at), CacheAt(cache, at));
    if CompositeAt(at) in LatestByKey(items) {
      CurrentAt(codec, items, CompositeAt(at));
    }
  }

  // A cached identity and a reported one that share a composite key.

  const NUL_CODEC := Codec((_: Item) => Some(1), (_: Header) => 0, (_: Value) => Some("h"))
  const NUL_CACHED := CachedState("state", "a" + ['\0'] + "b", "c", "h")
  const NUL_ITEM := Item("", 0, "state", "a", "b" + ['\0'] + "c", Null)
  const NUL_SNAPSHOT := Snapshot(SnapshotId("b", "c"), 1, true, "")
  const NUL_CACHE: Cache := map["c" := map[KeyOf(NUL_ITEM) := NUL_CACHED]]
  const NUL_VIEW: View := map[KeyAt("c", NUL_CACHED) := Visible(Null)]

  lemma NulDelta()
    ensures IsDelta(NUL_CODEC, Previous(NUL_CACHE, "c"), [NUL_ITEM], NUL_SNAPSHOT,
                    [Upsert(NUL_ITEM, NUL_SNAPSHOT)], [KeyOf(NUL_ITEM)], [])
    ensures CurrentStates(NUL_CODEC, [NUL_ITEM]) == map[KeyOf(NUL_ITEM) := ToCached(NUL_CODEC, NUL_ITEM)]
  {
    NulInventory();
    assert CurrentStates(NUL_CODEC, [NUL_ITEM]).Keys == {KeyOf(NUL_ITEM)};
  }

  lemma NulInventory()
    ensures LatestByKey([NUL_ITEM]) == map[KeyOf(NUL_ITEM) := NUL_ITEM] && Passthrough([NUL_ITEM]) == []
  {
    assert [NUL_ITEM][..0] == [];
  }

  lemma NulViewRepresents()
    ensures Represents(NUL_CODEC, NUL_VIEW, NUL_CACHE)
  {
    NulInTypeCollides();
    assert Shows(NUL_CODEC, Visible(Null), "h");
  }

  /**
   The condition on identities is needed: when two identities share a composite key, the delta upserts the new
   one and sends no tombstone for the old one, which then stays at the receiver.
   */
  lemma NulInTypeBreaksReplication() returns (filtered: seq<Item>)
    ensures IsDelta(NUL_CODEC, Previous(NUL_CACHE, "c"), [NUL_ITEM], NUL_SNAPSHOT,
                    filtered, [KeyOf(NUL_ITEM)], [])
    ensures Represents(NUL_CODEC, NUL_VIEW, NUL_CACHE) && !SelfDeleted(NUL_ITEM)
    ensures !Represents(NUL_CODEC, ApplyAll(NUL_VIEW, SentAll(filtered)),
                        NUL_CACHE["c" := CurrentStates(NUL_CODEC, [NUL_ITEM])])
  {
    filtered := [Upsert(NUL_ITEM, NUL_SNAPSHOT)];
    NulDelta();
    NulViewRepresents();
    NulStrayIsForgotten();
    NulStrayStays(SentAll(filtered));
    var stray := KeyAt("c", NUL_CACHED);
    assert !Agrees(NUL_CODEC, Lookup(ApplyAll(NUL_VIEW, SentAll(filtered)), stray),
                   CacheAt(NUL_CACHE["c" := CurrentStates(NUL_CODEC, [NUL_ITEM])], stray));
  }

  lemma NulStrayIsForgotten()
    ensures CacheAt(NUL_CACHE["c" := CurrentStates(NUL_CODEC, [NUL_ITEM])], KeyAt("c", NUL_CACHED)) == None
  {
    NulDelta();
    assert |NUL_CACHED.typ| == 3 && |NUL_ITEM.typ| == 1;
  }

  lemma NulStrayStays(sent: seq<Item>)
    requires sent == [Sent(Upsert(NUL_ITEM, NUL_SNAPSHOT))]
    ensures Lookup(ApplyAll(NUL_VIEW, sent), KeyAt("c", NUL_CACHED)).Some?
  {
    var stray := KeyAt("c", NUL_CACHED);
    UpsertEffect(NUL_ITEM, NUL_SNAPSHOT, "b", "c");
    assert |stray.typ| == 3 && |NUL_ITEM.typ| == 1;
    FateUntouched(sent, stray, Lookup(NUL_VIEW, stray));
    LookupIsFate(NUL_VIEW, sent, stray);
  }

  // An item whose payload says of itself that it is deleted.

  const GONE_ITEM := Item("", 0, "state", "a", "b", Obj(map[DELETED := Bool(true)]))
  const GONE_SNAPSHOT := Snapshot(SnapshotId("b", "c"), 1, true, "")

  /** The first report of such an item is cached, but reaches the receiver as a tombstone. */
  lemma SelfDeletedItemIsLost() returns (filtered: seq<Item>)
    ensures DeltaOf(NUL_CODEC, map[], [GONE_ITEM], GONE_SNAPSHOT, filtered, [KeyOf(GONE_ITEM)], [], "b", "c")
    ensures Represents(NUL_CODEC, map[], map[])
    ensures !Represents(NUL_CODEC, ApplyAll(map[], SentAll(filtered)),
                        map["c" := CurrentStates(NUL_CODEC, [GONE_ITEM])])
  {
    filtered := [Upsert(GONE_ITEM, GONE_SNAPSHOT)];
    var k := KeyOf(GONE_ITEM);
    GoneInventory();
    var empty: Cache := map[];
    assert CurrentStates(NUL_CODEC, [GONE_ITEM]).Keys == {k};
    assert k in ChangedKeys(Previous(empty, "c"), CurrentStates(NUL_CODEC, [GONE_ITEM]), true);
    DeltaReplicatesIff(NUL_CODEC, empty, [GONE_ITEM], GONE_SNAPSHOT, filtered, [k], [], "b", "c", map[]);
    assert empty["c" := CurrentStates(NUL_CODEC, [GONE_ITEM])] == map["c" := CurrentStates(NUL_CODEC, [GONE_ITEM])];
  }

  lemma GoneInventory()
    ensures LatestByKey([GONE_ITEM]) == map[KeyOf(GONE_ITEM) := GONE_ITEM] && Passthrough([GONE_ITEM]) == []
    ensures SelfDeleted(GONE_ITEM)
  {
    assert [GONE_ITEM][..0] == [];
  }

  // ---------------------------------------------------------------- full snapshots

  /** The receiver keys a snapshot declares to be live. */
  function LiveKeys(items: seq<Item>): set<StateKey> {
    set i | 0 <= i < |items| && EffectOf(items[i]).Some? && EffectOf(items[i]).value.Put? :: EffectOf(items[i]).value.at
  }

  function Without(view: View, collector: string): View {
    map at | at in view && at.collector != collector :: view[at]
  }

  /**
   A receiver that replaces a collector's inventory by a full snapshot once it has seen as many
   live keys as the snapshot declares, and until then only merges what arrives.
   */
  function AdoptFull(view: View, collector: string, items: seq<Item>, declared: nat): View {
    if NoEffects(items) then view
    else ApplyAll(if |LiveKeys(items)| >= declared then Without(view, collector) else view, items)
  }

  /** The receiver agrees with one collector's inventory. */
  ghost predicate Mirrors(codec: Codec, view: View, collector: string, states: States) {
    forall at: StateKey | at.collector == collector ::
      Agrees(codec, Lookup(view, at), HashIn(states, collector, at))
  }

  lemma {:induction false} ImageSize(keys: set<string>, states: States, collector: string)
    requires WfStates(states) && forall k | k in keys :: k in states
    ensures |set k | k in keys :: KeyAt(collector, states[k])| == |keys|
  {
    if keys != {} {
      var k :| k in keys;
      var rest := keys - {k};
      ImageSize(rest, states, collector);
      assert (set j | j in keys :: KeyAt(collector, states[j]))
             == (set j | j in rest :: KeyAt(collector, states[j])) + {KeyAt(collector, states[k])};
      forall j | j in rest ensures KeyAt(collector, states[j]) != KeyAt(collector, states[k]) {
        assert CompositeAt(KeyAt(collector, states[j])) == j;
      }
    }
  }

  predicate PutsAt(item: Item, at: StateKey) {
    EffectOf(item).Some? && EffectOf(item).value.Put? && EffectOf(item).value.at == at
  }

  predicate PutsNothing(item: Item) {
    EffectOf(item).Some? ==> EffectOf(item).value.Remove?
  }

  lemma UpsertAt(
    codec: Codec, previous: States, items: seq<Item>, snap: Snapshot, filtered: seq<Item>,
    up: seq<string>, del: seq<string>, batchId: string, collector: string, j: nat)
    requires DeltaOf(codec, previous, items, snap, filtered, up, del, batchId, collector) && j < |up|
    requires ShipsLiveItems(codec, previous, items, snap.full)
    ensures |Passthrough(items)| + j < |filtered| && up[j] in CurrentStates(codec, items)
    ensures PutsAt(SentAll(filtered)[|Passthrough(items)| + j], KeyAt(collector, CurrentStates(codec, items)[up[j]]))
  {
    UpsertItemAt(codec, previous, items, snap, filtered, up, del, j);
    CurrentIsWf(codec, items);
    UpsertPuts(LatestByKey(items)[up[j]], snap, batchId, collector);
  }

  lemma UpsertItemAt(
    codec: Codec, previous: States, items: seq<Item>, snap: Snapshot, filtered: seq<Item>,
    up: seq<string>, del: seq<string>, j: nat)
    requires IsDelta(codec, previous, items, snap, filtered, up, del) && j < |up|
    ensures |Passthrough(items)| + j < |filtered|
    ensures up[j] in ChangedKeys(previous, CurrentStates(codec, items), snap.full)
    ensures up[j] in LatestByKey(items) && up[j] in CurrentStates(codec, items)
    ensures filtered[|Passthrough(items)| + j] == Upsert(LatestByKey(items)[up[j]], snap)
  {
    assert up[j] in up;
  }

  lemma UpsertPuts(item: Item, snap: Snapshot, batchId: string, collector: string)
    requires IsInventoryKind(item.kind) && !SelfDeleted(item)
    requires ':' !in batchId && snap.id == SnapshotId(batchId, collector)
    ensures PutsAt(Sent(Upsert(item, snap)), ItemAt(collector, item))
  {
    UpsertEffect(item, snap, batchId, collector);
  }

  lemma OtherAt(
    codec: Codec, previous: States, items: seq<Item>, snap: Snapshot, filtered: seq<Item>,
    up: seq<string>, del: seq<string>, batchId: string, collector: string, j: nat)
    requires DeltaOf(codec, previous, items, snap, filtered, up, del, batchId, collector) && j < |filtered|
    requires j < |Passthrough(items)| || j >= |Passthrough(items)| + |up|
    ensures PutsNothing(SentAll(filtered)[j])
  {
    if j < |Passthrough(items)| {
      PassthroughKinds(items);
      assert filtered[j] == Passthrough(items)[j];
    } else {
      var k := TombstoneAt(codec, previous, items, snap, filtered, up, del, j);
      TombstonePutsNothing(previous[k], snap, batchId, collector);
    }
  }

  lemma TombstoneAt(
    codec: Codec, previous: States, items: seq<Item>, snap: Snapshot, filtered: seq<Item>,
    up: seq<string>, del: seq<string>, j: nat) returns (k: string)
    requires IsDelta(codec, previous, items, snap, filtered, up, del)
    requires |Passthrough(items)| + |up| <= j < |filtered|
    ensures k in previous && filtered[j] == Tombstone(previous[k], snap)
  {
    k := del[j - |Passthrough(items)| - |up|];
    assert k in del;
  }

  lemma TombstonePutsNothing(entry: CachedState, snap: Snapshot, batchId: string, collector: string)
    requires WfEntry(entry) && ':' !in batchId && snap.id == SnapshotId(batchId, collector)
    ensures PutsNothing(Sent(Tombstone(entry, snap)))
  {
    TombstoneEffect(entry, snap, batchId, collector);
  }

  /** Exactly the items from `p` on put `keys`. */
  predicate KeyPut(sent: seq<Item>, p: nat, keys: seq<StateKey>, j: nat) {
    j < |keys| && p + j < |sent| && PutsAt(sent[p + j], keys[j])
  }

  ghost predicate IsSegment(sent: seq<Item>, keys: seq<StateKey>, p: nat) {
    p + |keys| <= |sent| && (forall j | 0 <= j < |keys| :: KeyPut(sent, p, keys, j)) &&
    (forall i | 0 <= i < |sent| && !(p <= i < p + |keys|) :: PutsNothing(sent[i]))
  }

  /** A prefix declares the keys of the segment that it reaches. */
  lemma LiveKeysBySegment(sent: seq<Item>, keys: seq<StateKey>, p: nat, n: nat)
    requires IsSegment(sent, keys, p) && n <= |sent|
    ensures LiveKeys(sent[..n]) == set j | 0 <= j < |keys| && p + j < n :: keys[j]
  {
    var reached := set j | 0 <= j < |keys| && p + j < n :: keys[j];
    forall j | 0 <= j < |keys| && p + j < n ensures keys[j] in LiveKeys(sent[..n]) {
      assert KeyPut(sent, p, keys, j);
      assert PutsAt(sent[..n][p + j], keys[j]);
    }
    forall i | 0 <= i < n && !PutsNothing(sent[i])
      ensures EffectOf(sent[i]).value.at in reached
    {
      assert KeyPut(sent, p, keys, i - p);
    }
  }

  /** The receiver keys of the upserts, in their order. */
  function UpKeys(collector: string, current: States, up: seq<string>): seq<StateKey>
    requires forall k | k in up :: k in current
  {
    seq(|up|, j requires 0 <= j < |up| => KeyAt(collector, current[up[j]]))
  }

  lemma UpsertsPut(
    codec: Codec, previous: States, items: seq<Item>, snap: Snapshot, filtered: seq<Item>,
    up: seq<string>, del: seq<string>, batchId: string, collector: string)
    requires DeltaOf(codec, previous, items, snap, filtered, up, del, batchId, collector)
    requires ShipsLiveItems(codec, previous, items, snap.full)
    ensures |Passthrough(items)| + |up| <= |SentAll(filtered)| && forall k | k in up :: k in CurrentStates(codec, items)
    ensures var keys := UpKeys(collector, CurrentStates(codec, items), up);
            forall j | 0 <= j < |keys| :: KeyPut(SentAll(filtered), |Passthrough(items)|, keys, j)
  {
    UpsertsAreCurrent(codec, previous, items, snap, filtered, up, del);
    var sent, p, keys := SentAll(filtered), |Passthrough(items)|, UpKeys(collector, CurrentStates(codec, items), up);
    forall j | 0 <= j < |keys| ensures KeyPut(sent, p, keys, j) {
      UpsertPutsKey(codec, previous, items, snap, filtered, up, del, batchId, collector, j);
    }
  }

  lemma UpsertsAreCurrent(
    codec: Codec, previous: States, items: seq<Item>, snap: Snapshot, filtered: seq<Item>,
    up: seq<string>, del: seq<string>)
    requires IsDelta(codec, previous, items, snap, filtered, up, del)
    ensures |Passthrough(items)| + |up| <= |SentAll(filtered)| && forall k | k in up :: k in CurrentStates(codec, items)
  {
  }

  lemma UpsertPutsKey(
    codec: Codec, previous: States, items: seq<Item>, snap: Snapshot, filtered: seq<Item>,
    up: seq<string>, del: seq<string>, batchId: string, collector: string, j: nat)
    requires DeltaOf(codec, previous, items, snap, filtered, up, del, batchId, collector) && j < |up|
    requires ShipsLiveItems(codec, previous, items, snap.full)
    ensures |Passthrough(items)| + j < |filtered| && forall k | k in up :: k in CurrentStates(codec, items)
    ensures var keys := UpKeys(collector, CurrentStates(codec, items), up);
            KeyPut(SentAll(filtered), |Passthrough(items)|, keys, j)
  {
    UpsertsAreCurrent(codec, previous, items, snap, filtered, up, del);
    UpsertAt(codec, previous, items, snap, filtered, up, del, batchId, collector, j);
    UpKeysAt(collector, CurrentStates(codec, items), up);
  }

  lemma UpKeysAt(collector: string, current: States, up: seq<string>)
    requires forall k | k in up :: k in current
    ensures |UpKeys(collector, current, up)| == |up|
    ensures forall j | 0 <= j < |up| ::
              up[j] in current && UpKeys(collector, current, up)[j] == KeyAt(collector, current[up[j]])
  {
    forall j | 0 <= j < |up| ensures up[j] in current {
      var k := up[j];
      assert k in up;
    }
  }

  lemma OthersPutNothing(
    codec: Codec, previous: States, items: seq<Item>, snap: Snapshot, filtered: seq<Item>,
    up: seq<string>, del: seq<string>, batchId: string, collector: string)
    requires DeltaOf(codec, previous, items, snap, filtered, up, del, batchId, collector)
    ensures var p, sent := |Passthrough(items)|, SentAll(filtered);
            forall i | 0 <= i < |sent| && !(p <= i < p + |up|) :: PutsNothing(sent[i])
  {
    var p, sent := |Passthrough(items)|, SentAll(filtered);
    forall i | 0 <= i < |sent| && !(p <= i < p + |up|) ensures PutsNothing(sent[i]) {
      OtherAt(codec, previous, items, snap, filtered, up, del, batchId, collector, i);
    }
  }

  /** The number of live keys a prefix of a full snapshot declares: all of them once it has every upsert. */
  lemma LiveKeyCount(
    codec: Codec, previous: States, items: seq<Item>, snap: Snapshot, filtered: seq<Item>,
    up: seq<string>, del: seq<string>, batchId: string, collector: string, n: nat)
    requires DeltaOf(codec, previous, items, snap, filtered, up, del, batchId, collector)
    requires ShipsLiveItems(codec, previous, items, snap.full) && snap.full
    requires n <= |filtered|
    ensures |LiveKeys(SentAll(filtered)[..n])| <= snap.itemCount
    ensures |LiveKeys(SentAll(filtered)[..n])| == snap.itemCount <==> n >= |Passthrough(items)| + |up| || up == []
  {
    var p, current := |Passthrough(items)|, CurrentStates(codec, items);
    LiveKeysOfPrefix(codec, previous, items, snap, filtered, up, del, batchId, collector, n);
    CurrentIsWf(codec, items);
    assert ChangedKeys(previous, current, true) == current.Keys;
    EnumeratedPrefix(current, collector, up, p, n);
  }

  lemma LiveKeysOfPrefix(
    codec: Codec, previous: States, items: seq<Item>, snap: Snapshot, filtered: seq<Item>,
    up: seq<string>, del: seq<string>, batchId: string, collector: string, n: nat)
    requires DeltaOf(codec, previous, items, snap, filtered, up, del, batchId, collector)
    requires ShipsLiveItems(codec, previous, items, snap.full) && n <= |filtered|
    ensures forall k | k in up :: k in CurrentStates(codec, items)
    ensures LiveKeys(SentAll(filtered)[..n])
         == set j | 0 <= j < |up| && |Passthrough(items)| + j < n ::
              UpKeys(collector, CurrentStates(codec, items), up)[j]
  {
    Segment(codec, previous, items, snap, filtered, up, del, batchId, collector);
    LiveKeysBySegment(SentAll(filtered), UpKeys(collector, CurrentStates(codec, items), up), |Passthrough(items)|, n);
  }

  /** The upserts stand together in a delta, and nothing else in it puts a key. */
  lemma Segment(
    codec: Codec, previous: States, items: seq<Item>, snap: Snapshot, filtered: seq<Item>,
    up: seq<string>, del: seq<string>, batchId: string, collector: string)
    requires DeltaOf(codec, previous, items, snap, filtered, up, del, batchId, collector)
    requires ShipsLiveItems(codec, previous, items, snap.full)
    ensures forall k | k in up :: k in CurrentStates(codec, items)
    ensures IsSegment(SentAll(filtered), UpKeys(collector, CurrentStates(codec, items), up), |Passthrough(items)|)
  {
    UpsertsPut(codec, previous, items, snap, filtered, up, del, batchId, collector);
    OthersPutNothing(codec, previous, items, snap, filtered, up, del, batchId, collector);
  }

  lemma EnumeratedPrefix(current: States, collector: string, up: seq<string>, p: nat, n: nat)
    requires WfStates(current) && Enumerates(up, current.Keys)
    ensures var reached := set j | 0 <= j < |up| && p + j < n :: UpKeys(collector, current, up)[j];
            |reached| <= |current| && (|reached| == |current| <==> n >= p + |up| || up == [])
  {
    var reached := set j | 0 <= j < |up| && p + j < n :: UpKeys(collector, current, up)[j];
    var keys := set j | 0 <= j < |up| && p + j < n :: up[j];
    forall k | k in keys ensures k in current.Keys {
      assert k in up;
    }
    forall k | k in keys ensures KeyAt(collector, current[k]) in reached {
      var j :| 0 <= j < |up| && p + j < n && up[j] == k;
      assert UpKeys(collector, current, up)[j] == KeyAt(collector, current[k]);
    }
    assert reached == set k | k in keys :: KeyAt(collector, current[k]);
    ImageSize(keys, current, collector);
    Cardinality(keys, current.Keys);
    if n >= p + |up| || up == [] {
      forall k | k in current.Keys ensures k in keys {
        assert k in up;
      }
      assert keys == current.Keys;
    } else {
      var last := up[|up| - 1];
      assert last in up && last in current.Keys && last !in keys;
    }
  }

  lemma {:induction false} Cardinality(a: set<string>, b: set<string>)
    requires a <= b
    ensures |a| <= |b| && (|a| == |b| <==> a == b)
  {
    assert b == a + (b - a);
    assert |b| == |a| + |b - a|;
  }

  /**
   A complete full snapshot makes the receiver mirror the current inventory whatever it held
   before, provided the snapshot says anything at all: with no inventory now and none cached,
   nothing is sent and a stale receiver stays as it is.
   */
  lemma FullSnapshotHeals(
    codec: Codec, previous: States, items: seq<Item>, snap: Snapshot, filtered: seq<Item>,
    up: seq<string>, del: seq<string>, batchId: string, collector: string, view: View)
    requires DeltaOf(codec, previous, items, snap, filtered, up, del, batchId, collector)
    requires ShipsLiveItems(codec, previous, items, snap.full) && snap.full
    ensures var current, view' := CurrentStates(codec, items),
                                  AdoptFull(view, collector, SentAll(filtered), snap.itemCount);
            if current == map[] && previous == map[] then view' == view
            else Mirrors(codec, view', collector, current)
  {
    var current, sent := CurrentStates(codec, items), SentAll(filtered);
    if current == map[] && previous == map[] {
      NothingToSend(codec, previous, items, snap, filtered, up, del);
    } else {
      LiveKeyCount(codec, previous, items, snap, filtered, up, del, batchId, collector, |filtered|);
      assert sent[..|filtered|] == sent;
      var k :| k in current || k in previous;
      FullIsNotSilent(codec, previous, items, snap, filtered, up, del, batchId, collector, k);
      AdoptionMirrors(codec, previous, items, snap, filtered, up, del, batchId, collector, view);
    }
  }

  lemma NothingToSend(
    codec: Codec, previous: States, items: seq<Item>, snap: Snapshot, filtered: seq<Item>,
    up: seq<string>, del: seq<string>)
    requires IsDelta(codec, previous, items, snap, filtered, up, del)
    requires CurrentStates(codec, items) == map[] && previous == map[]
    ensures NoEffects(SentAll(filtered))
  {
    var changed, deleted :=
      ChangedKeys(previous, CurrentStates(codec, items), snap.full), DeletedKeys(previous, CurrentStates(codec, items));
    assert changed == {} && deleted == {};
    if up != [] {
      SomethingListed(up, changed);
    }
    if del != [] {
      SomethingListed(del, deleted);
    }
    assert filtered == Passthrough(items);
    PassthroughIsSilent(items);
  }

  lemma SomethingListed(order: seq<string>, keys: set<string>)
    requires Enumerates(order, keys) && order != []
    ensures keys != {}
  {
    assert order[0] in order;
  }

  lemma PassthroughIsSilent(items: seq<Item>)
    ensures NoEffects(SentAll(Passthrough(items)))
  {
    PassthroughKinds(items);
  }

  /** A full snapshot applied to a receiver without the collector's keys. */
  lemma AdoptionMirrors(
    codec: Codec, previous: States, items: seq<Item>, snap: Snapshot, filtered: seq<Item>,
    up: seq<string>, del: seq<string>, batchId: string, collector: string, view: View)
    requires DeltaOf(codec, previous, items, snap, filtered, up, del, batchId, collector)
    requires ShipsLiveItems(codec, previous, items, snap.full) && snap.full
    ensures Mirrors(codec, ApplyAll(Without(view, collector), SentAll(filtered)), collector,
                    CurrentStates(codec, items))
  {
    var current, sent, base := CurrentStates(codec, items), SentAll(filtered), Without(view, collector);
    forall at: StateKey | at.collector == collector
      ensures Agrees(codec, Lookup(ApplyAll(base, sent), at), HashIn(current, collector, at))
    {
      LookupIsFate(base, sent, at);
      DeltaFate(codec, previous, items, snap, filtered, up, del, batchId, collector, at, None);
      if CompositeAt(at) in current {
        CurrentAt(codec, items, CompositeAt(at));
      }
    }
  }

  lemma FullIsNotSilent(
    codec: Codec, previous: States, items: seq<Item>, snap: Snapshot, filtered: seq<Item>,
    up: seq<string>, del: seq<string>, batchId: string, collector: string, k: string)
    requires DeltaOf(codec, previous, items, snap, filtered, up, del, batchId, collector) && snap.full
    requires ShipsLiveItems(codec, previous, items, snap.full)
    requires k in CurrentStates(codec, items) || k in previous
    ensures !NoEffects(SentAll(filtered))
  {
    var current := CurrentStates(codec, items);
    CurrentIsWf(codec, items);
    var at := KeyAt(collector, if k in current then current[k] else previous[k]);
    var before := if k in current then None else Some(Null);
    assert CompositeAt(at) == k;
    DeltaFate(codec, previous, items, snap, filtered, up, del, batchId, collector, at, before);
    if NoEffects(SentAll(filtered)) {
      FateUntouched(SentAll(filtered), at, before);
    }
  }

  /** Without replacement nothing heals a stray key: a delta only touches cached and current keys. */
  lemma MergingKeepsStrays(
    codec: Codec, previous: States, items: seq<Item>, snap: Snapshot, filtered: seq<Item>,
    up: seq<string>, del: seq<string>, batchId: string, collector: string, view: View, at: StateKey)
    requires DeltaOf(codec, previous, items, snap, filtered, up, del, batchId, collector)
    requires HashIn(CurrentStates(codec, items), collector, at).None? && HashIn(previous, collector, at).None?
    ensures Lookup(ApplyAll(view, SentAll(filtered)), at) == Lookup(view, at)
  {
    LookupIsFate(view, SentAll(filtered), at);
    DeltaFate(codec, previous, items, snap, filtered, up, del, batchId, collector, at, Lookup(view, at));
  }
}
