/**
 What filterStateChanges computes: the inventory a collector reported, the delta against the
 cached inventory, and the snapshot metadata on every item.
 */
module StateFilter {
  import opened Wrappers
  import opened Envelope

  datatype CachedState = CachedState(kind: string, typ: string, key: string, hash: string)

  /** One collector's inventory, by composite key. */
  type States = map<string, CachedState>

  /** The inventories of all collectors. */
  type Cache = map<string, States>

  /** A delta's own facts: which snapshot, how many live keys, full or not, and the time as text. */
  datatype Snapshot = Snapshot(id: string, itemCount: nat, full: bool, observedAt: string)

  const ID := "snapshot_id"
  const COUNT := "snapshot_item_count"
  const FULL := "snapshot_full"
  const DELETED := "deleted"
  const METADATA: set<string> := {ID, COUNT, FULL}

  predicate IsInventoryKind(kind: string) { kind == "state" || kind == "asset" }

  function CompositeKey(kind: string, typ: string, key: string): string {
    kind + ['\0'] + typ + ['\0'] + key
  }

  function KeyOf(item: Item): string { CompositeKey(item.kind, item.typ, item.key) }

  predicate AllDigest(codec: Codec, items: seq<Item>) {
    forall i | 0 <= i < |items| && IsInventoryKind(items[i].kind) :: codec.digest(items[i].payload).Some?
  }

  /** Items of other kinds, in order. */
  function Passthrough(items: seq<Item>): seq<Item> {
    if items == [] then []
    else
      var last := items[|items| - 1];
      Passthrough(items[..|items| - 1]) + if IsInventoryKind(last.kind) then [] else [last]
  }

  /** The last inventory item reported for each composite key. */
  function LatestByKey(items: seq<Item>): map<string, Item> {
    if items == [] then map[]
    else
      var last := items[|items| - 1];
      var before := LatestByKey(items[..|items| - 1]);
      if IsInventoryKind(last.kind) then before[KeyOf(last) := last] else before
  }

  function ToCached(codec: Codec, item: Item): CachedState
    requires codec.digest(item.payload).Some?
  {
    CachedState(item.kind, item.typ, item.key, codec.digest(item.payload).value)
  }

  lemma {:induction false} LatestComesFromItems(items: seq<Item>, k: string)
    requires k in LatestByKey(items)
    ensures LatestByKey(items)[k] in items
    ensures IsInventoryKind(LatestByKey(items)[k].kind) && KeyOf(LatestByKey(items)[k]) == k
  {
    var last := items[|items| - 1];
    if !(IsInventoryKind(last.kind) && KeyOf(last) == k) {
      LatestComesFromItems(items[..|items| - 1], k);
    }
  }

  function CurrentStates(codec: Codec, items: seq<Item>): States
    requires AllDigest(codec, items)
  {
    var latest := LatestByKey(items);
    map k | k in latest :: (LatestComesFromItems(items, k); ToCached(codec, latest[k]))
  }

  lemma CurrentAt(codec: Codec, items: seq<Item>, k: string)
    requires AllDigest(codec, items) && k in LatestByKey(items)
    ensures k in CurrentStates(codec, items)
    ensures codec.digest(LatestByKey(items)[k].payload) == Some(CurrentStates(codec, items)[k].hash)
  {
    LatestComesFromItems(items, k);
  }

  // ---------------------------------------------------------------- the delta

  /** The payload's own fields, as withSnapshotMetadata copies them. */
  function BaseFields(payload: Value): map<string, Value> {
    match payload
    case Obj(f) => f
    case Null => map[]
    case _ => map["value" := payload]
  }

  function WithSnapshotMetadata(payload: Value, snap: Snapshot): Value {
    Obj(BaseFields(payload)[ID := Str(snap.id)][COUNT := Num(snap.itemCount)][FULL := Bool(snap.full)])
  }

  function Upsert(item: Item, snap: Snapshot): Item {
    item.(payload := WithSnapshotMetadata(item.payload, snap))
  }

  function Tombstone(gone: CachedState, snap: Snapshot): Item {
    Item("", 0, gone.kind, gone.typ, gone.key, Obj(map[
      DELETED := Bool(true), ID := Str(snap.id), COUNT := Num(snap.itemCount), FULL := Bool(snap.full),
      "observed_at" := Str(snap.observedAt)]))
  }

  predicate IsChanged(previous: States, current: States, full: bool, k: string)
    requires k in current
  {
    full || k !in previous || previous[k].hash != current[k].hash
  }

  function ChangedKeys(previous: States, current: States, full: bool): set<string> {
    set k | k in current && IsChanged(previous, current, full, k)
  }

  function DeletedKeys(previous: States, current: States): set<string> {
    set k | k in previous && k !in current
  }

  /** `order` lists the members of `keys` once each; map iteration may use any such order. */
  ghost predicate Enumerates(order: seq<string>, keys: set<string>) {
    (forall i, j | 0 <= i < j < |order| :: order[i] != order[j]) &&
    (forall k :: k in order <==> k in keys)
  }

  function Upserts(latest: map<string, Item>, order: seq<string>, snap: Snapshot): seq<Item>
    requires forall k | k in order :: k in latest
  {
    seq(|order|, i requires 0 <= i < |order| => Upsert(latest[order[i]], snap))
  }

  function Tombstones(previous: States, order: seq<string>, snap: Snapshot): seq<Item>
    requires forall k | k in order :: k in previous
  {
    seq(|order|, i requires 0 <= i < |order| => Tombstone(previous[order[i]], snap))
  }

  /** `filtered` is the delta of `items` against `previous`, for some iteration order of the maps. */
  ghost predicate IsDelta(
    codec: Codec, previous: States, items: seq<Item>, snap: Snapshot, filtered: seq<Item>,
    upOrder: seq<string>, delOrder: seq<string>)
  {
    AllDigest(codec, items) &&
    var latest, current := LatestByKey(items), CurrentStates(codec, items);
    Enumerates(upOrder, ChangedKeys(previous, current, snap.full)) &&
    Enumerates(delOrder, DeletedKeys(previous, current)) &&
    snap.itemCount == |current| &&
    filtered == Passthrough(items) + Upserts(latest, upOrder, snap) + Tombstones(previous, delOrder, snap)
  }

  // ---------------------------------------------------------------- the loops

  lemma InventoryStep(codec: Codec, items: seq<Item>, i: nat)
    requires i < |items| && AllDigest(codec, items[..i])
    requires IsInventoryKind(items[i].kind) ==> codec.digest(items[i].payload).Some?
    ensures AllDigest(codec, items[..i + 1])
    ensures items[..i + 1][..i] == items[..i]
    ensures IsInventoryKind(items[i].kind) ==>
              CurrentStates(codec, items[..i + 1])
              == CurrentStates(codec, items[..i])[KeyOf(items[i]) := ToCached(codec, items[i])]
    ensures !IsInventoryKind(items[i].kind) ==> CurrentStates(codec, items[..i + 1]) == CurrentStates(codec, items[..i])
  {
    assert items[..i + 1] == items[..i] + [items[i]];
  }

  /** The first loop: split the items, and index the inventory by composite key. */
  method ReadInventory(codec: Codec, items: seq<Item>)
    returns (ok: bool, passthrough: seq<Item>, latest: map<string, Item>, current: States)
    ensures ok <==> AllDigest(codec, items)
    ensures ok ==> passthrough == Passthrough(items) && latest == LatestByKey(items)
    ensures ok ==> current == CurrentStates(codec, items)
  {
    passthrough, latest, current := [], map[], map[];
    for i := 0 to |items|
      invariant AllDigest(codec, items[..i])
      invariant passthrough == Passthrough(items[..i]) && latest == LatestByKey(items[..i])
      invariant current == CurrentStates(codec, items[..i])
    {
      var item := items[i];
      if !IsInventoryKind(item.kind) {
        InventoryStep(codec, items, i);
        passthrough := passthrough + [item];
        continue;
      }
      if codec.digest(item.payload).None? {
        return false, [], map[], map[];
      }
      InventoryStep(codec, items, i);
      current := current[KeyOf(item) := ToCached(codec, item)];
      latest := latest[KeyOf(item) := item];
    }
    assert items[..|items|] == items;
    return true, passthrough, latest, current;
  }

  lemma EnumerateOneMore(order: seq<string>, keys: set<string>, k: string)
    requires Enumerates(order, keys) && k !in keys
    ensures Enumerates(order + [k], keys + {k})
  {
  }

  /** The second loop: new and changed items, in the order in which the map yields them. */
  method ShipChanges(
    previous: States, current: States, latest: map<string, Item>, snap: Snapshot)
    returns (shipped: seq<Item>, ghost order: seq<string>)
    requires current.Keys == latest.Keys
    ensures Enumerates(order, ChangedKeys(previous, current, snap.full))
    ensures shipped == Upserts(latest, order, snap)
    ensures forall k | k in ChangedKeys(previous, current, snap.full) :: Upsert(latest[k], snap) in shipped
  {
    shipped, order := [], [];
    var todo := current.Keys;
    while todo != {}
      invariant todo <= current.Keys
      invariant Enumerates(order, ChangedKeys(previous, current, snap.full) - todo)
      invariant forall k | k in order :: k in latest
      invariant shipped == Upserts(latest, order, snap)
      decreases |todo|
    {
      var key :| key in todo;
      var done := ChangedKeys(previous, current, snap.full) - todo;
      todo := todo - {key};
      if !snap.full && key in previous && previous[key].hash == current[key].hash {
        assert ChangedKeys(previous, current, snap.full) - todo == done;
        continue;
      }
      assert ChangedKeys(previous, current, snap.full) - todo == done + {key};
      EnumerateOneMore(order, done, key);
      order := order + [key];
      shipped := shipped + [Upsert(latest[key], snap)];
    }
    assert ChangedKeys(previous, current, snap.full) - {} == ChangedKeys(previous, current, snap.full);
    UpsertsListed(latest, order, ChangedKeys(previous, current, snap.full), snap);
  }

  lemma UpsertsListed(latest: map<string, Item>, order: seq<string>, keys: set<string>, snap: Snapshot)
    requires Enumerates(order, keys) && forall k | k in order :: k in latest
    ensures forall k | k in keys :: k in latest && Upsert(latest[k], snap) in Upserts(latest, order, snap)
  {
    forall k | k in keys ensures k in latest && Upsert(latest[k], snap) in Upserts(latest, order, snap) {
      var i :| 0 <= i < |order| && order[i] == k;
      assert Upserts(latest, order, snap)[i] == Upsert(latest[k], snap);
    }
  }

  /** The third loop: a tombstone for every key that is gone. */
  method ShipDeletions(previous: States, current: States, snap: Snapshot)
    returns (shipped: seq<Item>, ghost order: seq<string>)
    ensures Enumerates(order, DeletedKeys(previous, current))
    ensures shipped == Tombstones(previous, order, snap)
    ensures forall k | k in DeletedKeys(previous, current) :: Tombstone(previous[k], snap) in shipped
  {
    shipped, order := [], [];
    var todo := previous.Keys;
    while todo != {}
      invariant todo <= previous.Keys
      invariant Enumerates(order, DeletedKeys(previous, current) - todo)
      invariant forall k | k in order :: k in previous
      invariant shipped == Tombstones(previous, order, snap)
      decreases |todo|
    {
      var key :| key in todo;
      var done := DeletedKeys(previous, current) - todo;
      todo := todo - {key};
      if key in current {
        assert DeletedKeys(previous, current) - todo == done;
        continue;
      }
      assert DeletedKeys(previous, current) - todo == done + {key};
      EnumerateOneMore(order, done, key);
      order := order + [key];
      shipped := shipped + [Tombstone(previous[key], snap)];
    }
    assert DeletedKeys(previous, current) - {} == DeletedKeys(previous, current);
    TombstonesListed(previous, order, DeletedKeys(previous, current), snap);
  }

  lemma TombstonesListed(previous: States, order: seq<string>, keys: set<string>, snap: Snapshot)
    requires Enumerates(order, keys) && forall k | k in order :: k in previous
    ensures forall k | k in keys :: k in previous && Tombstone(previous[k], snap) in Tombstones(previous, order, snap)
  {
    forall k | k in keys
      ensures k in previous && Tombstone(previous[k], snap) in Tombstones(previous, order, snap)
    {
      var i :| 0 <= i < |order| && order[i] == k;
      assert Tombstones(previous, order, snap)[i] == Tombstone(previous[k], snap);
    }
  }

  // ---------------------------------------------------------------- composite keys

  predicate NoNul(s: string) { '\0' !in s }

  lemma NulFreePrefix(a: string, x: string, b: string, y: string)
    requires NoNul(a) && NoNul(b) && a + ['\0'] + x == b + ['\0'] + y
    ensures a == b && x == y
  {
    var s := a + ['\0'] + x;
    assert s[|a|] == '\0' && s[|b|] == '\0';
    assert forall i | 0 <= i < |a| :: s[i] == a[i];
    assert forall i | 0 <= i < |b| :: s[i] == b[i];
    assert s[..|a|] == a && s[..|b|] == b;
    assert s[|a| + 1..] == x && s[|b| + 1..] == y;
  }

  /** Without NUL in kind and type, the composite key determines kind, type and key. */
  lemma CompositeKeyInjective(kind: string, typ: string, key: string, kind': string, typ': string, key': string)
    requires NoNul(kind) && NoNul(kind') && NoNul(typ) && NoNul(typ')
    requires CompositeKey(kind, typ, key) == CompositeKey(kind', typ', key')
    ensures kind == kind' && typ == typ' && key == key'
  {
    var rest, rest' := typ + ['\0'] + key, typ' + ['\0'] + key';
    assert CompositeKey(kind, typ, key) == kind + ['\0'] + rest;
    assert CompositeKey(kind', typ', key') == kind' + ['\0'] + rest';
    NulFreePrefix(kind, rest, kind', rest');
    NulFreePrefix(typ, key, typ', key');
  }

  /** A NUL in a type lets two identities share a composite key. */
  lemma NulInTypeCollides()
    ensures CompositeKey("state", "a" + ['\0'] + "b", "c") == CompositeKey("state", "a", "b" + ['\0'] + "c")
  {
  }
}
