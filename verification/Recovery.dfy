/**
 What chunks of a cycle that never committed leave behind at the receiver, and how a later cycle puts it right.
 */
module Recovery {
  import opened Wrappers
  import opened Envelope
  import opened StateFilter
  import opened Receiver
  import opened Replication

  ghost predicate TouchedBy(items: seq<Item>, at: StateKey) {
    exists i :: 0 <= i < |items| && Touches(items[i], at)
  }

  /**
   Escaped items do no harm to a receiver of the cache: what each key that they touch ends with is what the cache
   has there. This is a condition on items and cache alone.
   */
  ghost predicate Harmless(codec: Codec, escaped: seq<Item>, cache: Cache) {
    forall at: StateKey | TouchedBy(escaped, at) :: Agrees(codec, Fate(escaped, at, None), CacheAt(cache, at))
  }

  /** What a key holds after the items, if it is touched, does not depend on what it held before. */
  lemma LookupAfter(view: View, items: seq<Item>, at: StateKey)
    ensures Lookup(ApplyAll(view, items), at)
         == if TouchedBy(items, at) then Fate(items, at, None) else Lookup(view, at)
  {
    LookupIsFate(view, items, at);
    if TouchedBy(items, at) {
      FateForgets(items, at, Lookup(view, at), None);
    } else {
      FateUntouched(items, at, Lookup(view, at));
    }
  }

  /** Escaped items keep the agreement of any receiver exactly if they are harmless. */
  lemma HarmlessIff(codec: Codec, view: View, escaped: seq<Item>, cache: Cache)
    requires Represents(codec, view, cache)
    ensures Represents(codec, ApplyAll(view, escaped), cache) <==> Harmless(codec, escaped, cache)
  {
    var view' := ApplyAll(view, escaped);
    forall at: StateKey
      ensures Lookup(view', at) == if TouchedBy(escaped, at) then Fate(escaped, at, None) else Lookup(view, at)
    {
      LookupAfter(view, escaped, at);
    }
    if Represents(codec, view', cache) {
      forall at: StateKey | TouchedBy(escaped, at) ensures Agrees(codec, Fate(escaped, at, None), CacheAt(cache, at)) {
        assert Agrees(codec, Lookup(view', at), CacheAt(cache, at));
      }
    }
    if Harmless(codec, escaped, cache) {
      forall at: StateKey ensures Agrees(codec, Lookup(view', at), CacheAt(cache, at)) {
        assert Agrees(codec, Lookup(view, at), CacheAt(cache, at));
      }
    }
  }

  /** The keys that escaped items have put wrong for the new cache and that a retry does not touch: none. */
  ghost predicate Repairs(codec: Codec, escaped: seq<Item>, retry: seq<Item>, cache: Cache) {
    forall at: StateKey | TouchedBy(escaped, at) && !TouchedBy(retry, at) ::
      Agrees(codec, Fate(escaped, at, None), CacheAt(cache, at))
  }

  /** After a leak, the next committed delta restores agreement exactly if it touches every key that is wrong. */
  lemma RetryRestoresIff(
    codec: Codec, view: View, cache: Cache, escaped: seq<Item>, retry: seq<Item>, cache': Cache)
    requires Represents(codec, view, cache) && Carries(codec, cache, retry, cache')
    ensures Represents(codec, ApplyAll(ApplyAll(view, escaped), retry), cache')
            <==> Repairs(codec, escaped, retry, cache')
  {
    InsertedIff(codec, view, escaped, retry, cache');
  }

  /** Items that come in before the rest keep the agreement exactly if the rest puts right what they do wrong. */
  lemma InsertedIff(codec: Codec, view: View, inserted: seq<Item>, rest: seq<Item>, cache: Cache)
    requires Represents(codec, ApplyAll(view, rest), cache)
    ensures Represents(codec, ApplyAll(ApplyAll(view, inserted), rest), cache)
            <==> Repairs(codec, inserted, rest, cache)
  {
    var clean, marred := ApplyAll(view, rest), ApplyAll(ApplyAll(view, inserted), rest);
    forall at: StateKey
      ensures Agrees(codec, Lookup(clean, at), CacheAt(cache, at))
      ensures Lookup(marred, at) == if TouchedBy(inserted, at) && !TouchedBy(rest, at)
                                    then Fate(inserted, at, None) else Lookup(clean, at)
    {
      LookupAfter(view, rest, at);
      LookupAfter(view, inserted, at);
      LookupAfter(ApplyAll(view, inserted), rest, at);
    }
    if Represents(codec, marred, cache) {
      forall at: StateKey | TouchedBy(inserted, at) && !TouchedBy(rest, at)
        ensures Agrees(codec, Fate(inserted, at, None), CacheAt(cache, at))
      {
        assert Agrees(codec, Lookup(marred, at), CacheAt(cache, at));
      }
    }
  }

  /** Items can go missing before the rest: what they touch the rest touches too, or it was right without them. */
  ghost predicate Dispensable(codec: Codec, view: View, missing: seq<Item>, rest: seq<Item>, cache: Cache) {
    forall at: StateKey | TouchedBy(missing, at) && !TouchedBy(rest, at) ::
      Agrees(codec, Lookup(view, at), CacheAt(cache, at))
  }

  /** Leaving items out keeps the agreement exactly then. */
  lemma MissingIff(codec: Codec, view: View, missing: seq<Item>, rest: seq<Item>, cache: Cache)
    requires Represents(codec, ApplyAll(ApplyAll(view, missing), rest), cache)
    ensures Represents(codec, ApplyAll(view, rest), cache) <==> Dispensable(codec, view, missing, rest, cache)
  {
    var full, short := ApplyAll(ApplyAll(view, missing), rest), ApplyAll(view, rest);
    forall at: StateKey
      ensures Agrees(codec, Lookup(full, at), CacheAt(cache, at))
      ensures Lookup(short, at) == if TouchedBy(missing, at) && !TouchedBy(rest, at)
                                   then Lookup(view, at) else Lookup(full, at)
    {
      LookupAfter(view, rest, at);
      LookupAfter(view, missing, at);
      LookupAfter(ApplyAll(view, missing), rest, at);
    }
    if Represents(codec, short, cache) {
      forall at: StateKey | TouchedBy(missing, at) && !TouchedBy(rest, at)
        ensures Agrees(codec, Lookup(view, at), CacheAt(cache, at))
      {
        assert Agrees(codec, Lookup(short, at), CacheAt(cache, at));
      }
    }
  }

  // ---------------------------------------------------------------- the same inventory again

  /** The identities that a delta acts on: changed ones and vanished ones. */
  ghost predicate ActsOn(previous: States, current: States, full: bool, collector: string, at: StateKey) {
    var k := CompositeAt(at);
    (HashIn(current, collector, at).Some? && IsChanged(previous, current, full, k)) ||
    (k !in current && HashIn(previous, collector, at).Some?)
  }

  lemma DeltaTouches(
    codec: Codec, previous: States, items: seq<Item>, snap: Snapshot, filtered: seq<Item>,
    up: seq<string>, del: seq<string>, batchId: string, collector: string, at: StateKey)
    requires DeltaOf(codec, previous, items, snap, filtered, up, del, batchId, collector)
    ensures TouchedBy(SentAll(filtered), at) <==>
            ActsOn(previous, CurrentStates(codec, items), snap.full, collector, at)
  {
    var sent := SentAll(filtered);
    DeltaFate(codec, previous, items, snap, filtered, up, del, batchId, collector, at, None);
    DeltaFate(codec, previous, items, snap, filtered, up, del, batchId, collector, at, Some(Null));
    TouchedIff(sent, at);
  }

  /** A key is touched exactly if what it held before is forgotten. */
  lemma TouchedIff(items: seq<Item>, at: StateKey)
    ensures TouchedBy(items, at) <==> Fate(items, at, None) == Fate(items, at, Some(Null))
  {
    if TouchedBy(items, at) {
      FateForgets(items, at, None, Some(Null));
    } else {
      FateUntouched(items, at, None);
      FateUntouched(items, at, Some(Null));
    }
  }

  /**
   Reporting the same inventory again repairs whatever part of a collector's delta had escaped: a retry from the same
   cache acts on every identity that the first attempt acted on, whatever the order, as long as a snapshot that was
   full is full again.
   */
  lemma SameInventoryRepairs(
    codec: Codec, cache: Cache, items: seq<Item>, collector: string,
    snap: Snapshot, filtered: seq<Item>, up: seq<string>, del: seq<string>, batchId: string, escaped: nat,
    snap': Snapshot, filtered': seq<Item>, up': seq<string>, del': seq<string>, batchId': string, view: View)
    requires DeltaOf(codec, Previous(cache, collector), items, snap, filtered, up, del, batchId, collector)
    requires DeltaOf(codec, Previous(cache, collector), items, snap', filtered', up', del', batchId', collector)
    requires escaped <= |filtered| && (snap.full ==> snap'.full)
    requires ShipsLiveItems(codec, Previous(cache, collector), items, snap'.full)
    requires KeepsIdentities(Previous(cache, collector), CurrentStates(codec, items))
    requires Represents(codec, view, cache)
    ensures Represents(codec, ApplyAll(ApplyAll(view, SentAll(filtered)[..escaped]), SentAll(filtered')),
                       cache[collector := CurrentStates(codec, items)])
  {
    var leak, retry := SentAll(filtered)[..escaped], SentAll(filtered');
    var cache' := cache[collector := CurrentStates(codec, items)];
    DeltaCarries(codec, cache, items, snap', filtered', up', del', batchId', collector);
    forall at: StateKey | TouchedBy(leak, at) ensures TouchedBy(retry, at) {
      TouchedByPrefix(SentAll(filtered), escaped, at);
      DeltaTouches(codec, Previous(cache, collector), items, snap, filtered, up, del, batchId, collector, at);
      DeltaTouches(codec, Previous(cache, collector), items, snap', filtered', up', del', batchId', collector, at);
    }
    RetryRestoresIff(codec, view, cache, leak, retry, cache');
  }

  lemma TouchedByPrefix(items: seq<Item>, n: nat, at: StateKey)
    requires n <= |items| && TouchedBy(items[..n], at)
    ensures TouchedBy(items, at)
  {
    var i :| 0 <= i < n && Touches(items[..n][i], at);
    assert items[i] == items[..n][i];
  }
}
