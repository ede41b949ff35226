/**
 An ideal receiver: it keeps one value per (collector, kind, type, key), as the snapshot metadata
 of the items tells it. Values are payloads without the metadata.
 */
module Receiver {
  import opened Wrappers
  import opened Envelope
  import opened StateFilter

  datatype StateKey = StateKey(collector: string, kind: string, typ: string, key: string)

  type View = map<StateKey, Value>

  /** What one item does to one key: put a value, or remove it. */
  datatype Effect = Put(at: StateKey, value: Value) | Remove(at: StateKey)

  function AfterColon(s: string): string {
    if s == [] then [] else if s[0] == ':' then s[1..] else AfterColon(s[1..])
  }

  predicate IsTombstone(fields: map<string, Value>) {
    DELETED in fields && fields[DELETED] == Bool(true)
  }

  function EffectOf(item: Item): Option<Effect> {
    if IsInventoryKind(item.kind) && item.payload.Obj? && ID in item.payload.fields && item.payload.fields[ID].Str?
    then
      var at := StateKey(AfterColon(item.payload.fields[ID].s), item.kind, item.typ, item.key);
      Some(if IsTombstone(item.payload.fields) then Remove(at) else Put(at, Obj(item.payload.fields - METADATA)))
    else None
  }

  function Apply(view: View, item: Item): View {
    match EffectOf(item)
    case None => view
    case Some(Put(at, value)) => view[at := value]
    case Some(Remove(at)) => view - {at}
  }

  function ApplyAll(view: View, items: seq<Item>): View {
    if items == [] then view else Apply(ApplyAll(view, items[..|items| - 1]), items[|items| - 1])
  }

  lemma {:induction false} ApplyAllConcat(view: View, a: seq<Item>, b: seq<Item>)
    ensures ApplyAll(view, a + b) == ApplyAll(ApplyAll(view, a), b)
  {
    if b == [] {
      assert a + b == a;
    } else {
      assert (a + b)[..|a + b| - 1] == a + b[..|b| - 1];
      ApplyAllConcat(view, a, b[..|b| - 1]);
    }
  }

  // ---------------------------------------------------------------- one key at a time

  function Lookup(view: View, at: StateKey): Option<Value> {
    if at in view then Some(view[at]) else None
  }

  predicate Touches(item: Item, at: StateKey) {
    EffectOf(item).Some? && EffectOf(item).value.at == at
  }

  function Written(item: Item): Option<Value>
    requires EffectOf(item).Some?
  {
    if EffectOf(item).value.Put? then Some(EffectOf(item).value.value) else None
  }

  /** The value at one key after `items`: the last item that touches the key decides. */
  function Fate(items: seq<Item>, at: StateKey, before: Option<Value>): Option<Value> {
    if items == [] then before
    else if Touches(items[|items| - 1], at) then Written(items[|items| - 1])
    else Fate(items[..|items| - 1], at, before)
  }

  lemma {:induction false} LookupIsFate(view: View, items: seq<Item>, at: StateKey)
    ensures Lookup(ApplyAll(view, items), at) == Fate(items, at, Lookup(view, at))
  {
    if items != [] {
      LookupIsFate(view, items[..|items| - 1], at);
    }
  }

  lemma {:induction false} FateConcat(a: seq<Item>, b: seq<Item>, at: StateKey, before: Option<Value>)
    ensures Fate(a + b, at, before) == Fate(b, at, Fate(a, at, before))
  {
    if b == [] {
      assert a + b == a;
    } else {
      assert (a + b)[..|a + b| - 1] == a + b[..|b| - 1];
      FateConcat(a, b[..|b| - 1], at, before);
    }
  }

  lemma {:induction false} FateUntouched(items: seq<Item>, at: StateKey, before: Option<Value>)
    requires forall i | 0 <= i < |items| :: !Touches(items[i], at)
    ensures Fate(items, at, before) == before
  {
    if items != [] {
      FateUntouched(items[..|items| - 1], at, before);
    }
  }

  lemma {:induction false} FateOfTouched(items: seq<Item>, at: StateKey, before: Option<Value>, i: nat)
    requires i < |items| && Touches(items[i], at)
    requires forall j | 0 <= j < |items| && Touches(items[j], at) :: Written(items[j]) == Written(items[i])
    ensures Fate(items, at, before) == Written(items[i])
  {
    if !Touches(items[|items| - 1], at) {
      FateOfTouched(items[..|items| - 1], at, before, i);
    }
  }

  lemma ViewsEqual(a: View, b: View)
    requires forall at :: Lookup(a, at) == Lookup(b, at)
    ensures a == b
  {
    forall at ensures at in a <==> at in b {
      assert Lookup(a, at) == Lookup(b, at);
    }
    forall at | at in a ensures a[at] == b[at] {
      assert Lookup(a, at) == Lookup(b, at);
    }
  }

  lemma {:induction false} FateIdempotent(items: seq<Item>, at: StateKey, before: Option<Value>)
    ensures Fate(items, at, Fate(items, at, before)) == Fate(items, at, before)
  {
    if exists i :: 0 <= i < |items| && Touches(items[i], at) {
      FateForgets(items, at, Fate(items, at, before), before);
    } else {
      FateUntouched(items, at, before);
    }
  }

  lemma {:induction false} FateForgets(items: seq<Item>, at: StateKey, a: Option<Value>, b: Option<Value>)
    requires exists i :: 0 <= i < |items| && Touches(items[i], at)
    ensures Fate(items, at, a) == Fate(items, at, b)
  {
    if !Touches(items[|items| - 1], at) {
      var i :| 0 <= i < |items| && Touches(items[i], at);
      assert items[..|items| - 1][i] == items[i];
      FateForgets(items[..|items| - 1], at, a, b);
    }
  }

  /** Delivering a chunk twice in a row is the same as delivering it once, whatever it holds. */
  lemma RedeliveryIsHarmless(view: View, items: seq<Item>)
    ensures ApplyAll(ApplyAll(view, items), items) == ApplyAll(view, items)
  {
    var once := ApplyAll(view, items);
    forall at ensures Lookup(ApplyAll(once, items), at) == Lookup(once, at) {
      LookupIsFate(once, items, at);
      LookupIsFate(view, items, at);
      FateIdempotent(items, at, Lookup(view, at));
    }
    ViewsEqual(ApplyAll(once, items), once);
  }
}
