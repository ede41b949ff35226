/**
 chunkBatch: greedy packing of a batch under an item count, a byte limit and a per-item limit.

 A way to cut n items into consecutive parts is a sequence of cut points 0 = cuts[0] < ... < n.
 */
module Chunking {
  import opened Wrappers
  import opened Envelope

  datatype Limits = Limits(maxItems: nat, maxBytes: nat, maxItemBytes: nat)

  datatype ChunkError =
    | EnvelopeTooLarge
    | Unmarshallable(item: nat)
    | ItemTooLarge(item: nat)
    | CannotFit(item: nat)
    | ChunkTooLarge(chunk: nat)

  function Max(a: nat, b: nat): nat { if a < b then b else a }

  /** The envelope with the widest chunk index and count this batch can need. */
  function WorstEnvelope(batch: Batch, items: seq<Item>): Batch {
    var w := Max(1, |batch.items|);
    WithItems(batch, items, w - 1, w)
  }

  function BaseBytes(codec: Codec, batch: Batch): nat {
    EncodedBytes(codec, WorstEnvelope(batch, [])) - |"[]"|
  }

  /** The code's own cost test for one chunk. */
  predicate Fits(codec: Codec, batch: Batch, limits: Limits, items: seq<Item>)
    requires Marshals(codec, items)
  {
    |items| <= limits.maxItems && BaseBytes(codec, batch) + ListBytes(codec, items) <= limits.maxBytes
  }

  predicate WithinItemLimit(codec: Codec, limits: Limits, item: Item) {
    codec.itemBytes(item).Some? && codec.itemBytes(item).value <= limits.maxItemBytes
  }

  predicate AllWithinItemLimit(codec: Codec, limits: Limits, items: seq<Item>) {
    forall i | 0 <= i < |items| :: WithinItemLimit(codec, limits, items[i])
  }

  /** Every item passes the per-item limit and has room in a chunk of its own. */
  predicate EveryItemFits(codec: Codec, batch: Batch, limits: Limits) {
    AllWithinItemLimit(codec, limits, batch.items) &&
    forall i | 0 <= i < |batch.items| :: Fits(codec, batch, limits, [batch.items[i]])
  }

  // ---------------------------------------------------------------- splits

  ghost predicate IsSplit(cuts: seq<nat>, n: nat) {
    |cuts| > 0 && cuts[0] == 0 && cuts[|cuts| - 1] == n &&
    forall j, k | 0 <= j < k < |cuts| :: cuts[j] < cuts[k]
  }

  function Slice(items: seq<Item>, lo: nat, hi: nat): seq<Item> {
    if lo <= hi <= |items| then items[lo..hi] else []
  }

  function Part(items: seq<Item>, cuts: seq<nat>, k: nat): seq<Item>
    requires k + 1 < |cuts|
  {
    Slice(items, cuts[k], cuts[k + 1])
  }

  /** Every part with more than one item passes the cost test. */
  ghost predicate Packed(codec: Codec, batch: Batch, limits: Limits, cuts: seq<nat>)
    requires Marshals(codec, batch.items)
  {
    forall k: nat | k + 1 < |cuts| && cuts[k + 1] > cuts[k] + 1 ::
      Fits(codec, batch, limits, Part(batch.items, cuts, k))
  }

  /** Packed, and no part but the last could take one more item. */
  ghost predicate Greedy(codec: Codec, batch: Batch, limits: Limits, cuts: seq<nat>)
    requires Marshals(codec, batch.items)
  {
    Packed(codec, batch, limits, cuts) &&
    forall k: nat | k + 2 < |cuts| :: IsFull(codec, batch, limits, cuts, k)
  }

  /** Part `k` and the item after it do not fit one chunk together. */
  ghost predicate IsFull(codec: Codec, batch: Batch, limits: Limits, cuts: seq<nat>, k: nat)
    requires Marshals(codec, batch.items) && k + 1 < |cuts|
  {
    cuts[k] <= cuts[k + 1] < |batch.items| &&
    !Fits(codec, batch, limits, batch.items[cuts[k]..cuts[k + 1] + 1])
  }

  function ChunksOf(batch: Batch, cuts: seq<nat>): seq<Batch> {
    if cuts == [] then []
    else seq(|cuts| - 1, k requires 0 <= k < |cuts| - 1 =>
               WithItems(batch, Part(batch.items, cuts, k), k, |cuts| - 1))
  }

  function Flatten(chunks: seq<Batch>): seq<Item> {
    if chunks == [] then [] else Flatten(chunks[..|chunks| - 1]) + chunks[|chunks| - 1].items
  }

  predicate ChunkFits(codec: Codec, limits: Limits, chunk: Batch) {
    Marshals(codec, chunk.items) && EncodedBytes(codec, chunk) <= limits.maxBytes
  }

  // ---------------------------------------------------------------- chunkBatch

  /** Items before `i` were accepted one by one; the first of them had to fit an empty chunk. */
  predicate AcceptedUpTo(codec: Codec, batch: Batch, limits: Limits, i: nat)
    requires i <= |batch.items|
  {
    BaseBytes(codec, batch) <= limits.maxBytes &&
    AllWithinItemLimit(codec, limits, batch.items[..i]) &&
    (i > 0 ==> Fits(codec, batch, limits, [batch.items[0]]))
  }

  /** The packing loop stops with error `e`. */
  predicate StopsWith(codec: Codec, batch: Batch, limits: Limits, e: ChunkError) {
    (e.Unmarshallable? || e.ItemTooLarge? || e.CannotFit?) &&
    e.item < |batch.items| && AcceptedUpTo(codec, batch, limits, e.item) &&
    var item := batch.items[e.item];
    if e.Unmarshallable? then codec.itemBytes(item).None?
    else if e.ItemTooLarge? then codec.itemBytes(item).Some? && codec.itemBytes(item).value > limits.maxItemBytes
    else e.item == 0 && WithinItemLimit(codec, limits, item) && !Fits(codec, batch, limits, [item])
  }

  /** The packing loop accepts every item, and cuts greedily. */
  ghost predicate PacksInto(codec: Codec, batch: Batch, limits: Limits, cuts: seq<nat>) {
    AcceptedUpTo(codec, batch, limits, |batch.items|) && Marshals(codec, batch.items) &&
    IsSplit(cuts, |batch.items|) && Greedy(codec, batch, limits, cuts)
  }

  /** What `chunkBatch` decides, case by case; the cases exclude each other. */
  ghost predicate Outcome(
    codec: Codec, batch: Batch, limits: Limits, r: Result<seq<Batch>, ChunkError>, cuts: seq<nat>)
  {
    match r
    case Failure(EnvelopeTooLarge) => BaseBytes(codec, batch) > limits.maxBytes
    case Failure(ChunkTooLarge(k)) =>
      PacksInto(codec, batch, limits, cuts) &&
      var chunks := ChunksOf(batch, cuts);
      k < |chunks| && !ChunkFits(codec, limits, chunks[k]) &&
      forall j | 0 <= j < k :: ChunkFits(codec, limits, chunks[j])
    case Failure(e) => StopsWith(codec, batch, limits, e)
    case Success(chunks) =>
      PacksInto(codec, batch, limits, cuts) && chunks == ChunksOf(batch, cuts) &&
      forall j | 0 <= j < |chunks| :: ChunkFits(codec, limits, chunks[j])
  }

  /** Closing a part at `hi` was forced: it does not fit together with item `hi`. */
  ghost predicate ForcedClose(codec: Codec, batch: Batch, limits: Limits, lo: nat, hi: nat) {
    lo < hi < |batch.items| &&
    Marshals(codec, batch.items[lo..hi]) && Marshals(codec, batch.items[lo..hi + 1]) &&
    (hi > lo + 1 ==> Fits(codec, batch, limits, batch.items[lo..hi])) &&
    !Fits(codec, batch, limits, batch.items[lo..hi + 1])
  }

  /** Every closed part was closed because it had to be. */
  ghost predicate ForcedCuts(codec: Codec, batch: Batch, limits: Limits, cuts: seq<nat>) {
    |cuts| > 0 &&
    if |cuts| == 1 then cuts[0] == 0
    else ForcedCuts(codec, batch, limits, cuts[..|cuts| - 1]) &&
         ForcedClose(codec, batch, limits, cuts[|cuts| - 2], cuts[|cuts| - 1])
  }

  /** The packing loop after `i` items: `items[lo..i]` is the open part. */
  ghost predicate OpenPart(codec: Codec, batch: Batch, limits: Limits, lo: nat, i: nat) {
    i <= |batch.items| && AcceptedUpTo(codec, batch, limits, i) &&
    lo <= i && (lo == i <==> i == 0) && Marshals(codec, batch.items[lo..i]) &&
    (i > lo + 1 ==> Fits(codec, batch, limits, batch.items[lo..i]))
  }

  /** The open part takes item `i`, or starts over with it. */
  lemma NextItem(codec: Codec, batch: Batch, limits: Limits, lo: nat, i: nat)
    requires OpenPart(codec, batch, limits, lo, i) && i < |batch.items|
    requires WithinItemLimit(codec, limits, batch.items[i])
    ensures Marshals(codec, batch.items[lo..i + 1])
    ensures ListBytes(codec, batch.items[lo..i + 1])
            == ListBytes(codec, batch.items[lo..i]) + codec.itemBytes(batch.items[i]).value + if i > 0 then 1 else 0
    ensures Fits(codec, batch, limits, batch.items[lo..i + 1]) ==> OpenPart(codec, batch, limits, lo, i + 1)
    ensures !Fits(codec, batch, limits, batch.items[lo..i + 1]) && i > 0 ==>
              ForcedClose(codec, batch, limits, lo, i) && OpenPart(codec, batch, limits, i, i + 1)
    ensures !Fits(codec, batch, limits, batch.items[lo..i + 1]) && i == 0 ==>
              !Fits(codec, batch, limits, [batch.items[0]])
  {
    OneMore(codec, batch.items[lo..i], batch.items[i]);
    assert batch.items[lo..i] + [batch.items[i]] == batch.items[lo..i + 1];
    assert batch.items[..i + 1] == batch.items[..i] + [batch.items[i]];
    assert i == 0 ==> batch.items[lo..i + 1] == [batch.items[0]];
  }

  lemma {:induction false} ForcedCutsAreGreedy(
    codec: Codec, batch: Batch, limits: Limits, cuts: seq<nat>, k: nat)
    requires ForcedCuts(codec, batch, limits, cuts) && k < |cuts|
    ensures cuts[0] == 0 && (k + 1 < |cuts| ==> ForcedClose(codec, batch, limits, cuts[k], cuts[k + 1]))
    ensures forall j | 0 <= j < k :: cuts[j] < cuts[k]
    decreases |cuts|, k
  {
    if k + 1 < |cuts| {
      ForcedCutsAreGreedy(codec, batch, limits, cuts[..|cuts| - 1], k);
    } else if k > 0 {
      ForcedCutsAreGreedy(codec, batch, limits, cuts, k - 1);
    }
  }

  /** Closing the open part at the end turns forced cuts into a split ... */
  lemma ForcedCutsSplit(codec: Codec, batch: Batch, limits: Limits, cuts: seq<nat>, n: nat)
    requires ForcedCuts(codec, batch, limits, cuts) && cuts[|cuts| - 1] < n
    ensures IsSplit(cuts + [n], n)
  {
    ForcedCutsAreGreedy(codec, batch, limits, cuts, 0);
    forall j, k | 0 <= j < k < |cuts| ensures cuts[j] < cuts[k] {
      ForcedCutsAreGreedy(codec, batch, limits, cuts, k);
    }
  }

  /** ... which is greedy. */
  lemma ForcedSplitIsGreedy(codec: Codec, batch: Batch, limits: Limits, cuts: seq<nat>)
    requires ForcedCuts(codec, batch, limits, cuts) && Marshals(codec, batch.items)
    requires OpenPart(codec, batch, limits, cuts[|cuts| - 1], |batch.items|) && batch.items != []
    ensures Greedy(codec, batch, limits, cuts + [|batch.items|])
  {
    var cuts' := cuts + [|batch.items|];
    forall k: nat | k + 1 < |cuts'| && cuts'[k + 1] > cuts'[k] + 1
      ensures Fits(codec, batch, limits, Part(batch.items, cuts', k))
    {
      if k + 1 < |cuts| {
        ForcedCutsAreGreedy(codec, batch, limits, cuts, k);
      }
    }
    forall k: nat | k + 2 < |cuts'| ensures IsFull(codec, batch, limits, cuts', k) {
      ForcedCutsAreGreedy(codec, batch, limits, cuts, k);
    }
  }

  function Closed(cuts: seq<nat>, n: nat): seq<nat> {
    if n == 0 then cuts else cuts + [n]
  }

  lemma FinishPacking(codec: Codec, batch: Batch, limits: Limits, cuts: seq<nat>)
    requires ForcedCuts(codec, batch, limits, cuts)
    requires OpenPart(codec, batch, limits, cuts[|cuts| - 1], |batch.items|)
    ensures PacksInto(codec, batch, limits, Closed(cuts, |batch.items|))
    ensures PartsOf(batch.items, Closed(cuts, |batch.items|)) == PartsOf(batch.items, cuts)
            + if batch.items == [] then [] else [batch.items[cuts[|cuts| - 1]..]]
  {
    var n := |batch.items|;
    assert batch.items[..n] == batch.items;
    if n > 0 {
      ForcedCutsSplit(codec, batch, limits, cuts, n);
      ForcedSplitIsGreedy(codec, batch, limits, cuts);
      AppendCut(batch.items, cuts, n);
    }
  }

  /** The marshalled length of one item, or the reason why the loop must stop at it. */
  method Weigh(codec: Codec, limits: Limits, item: Item, i: nat) returns (r: Result<nat, ChunkError>)
    ensures r.Success? <==> WithinItemLimit(codec, limits, item)
    ensures r.Success? ==> codec.itemBytes(item) == Some(r.value)
    ensures r.Failure? ==> r.error == if codec.itemBytes(item).None? then Unmarshallable(i) else ItemTooLarge(i)
  {
    if codec.itemBytes(item).None? {
      return Failure(Unmarshallable(i));
    }
    var itemBytes := codec.itemBytes(item).value;
    if itemBytes > limits.maxItemBytes {
      return Failure(ItemTooLarge(i));
    }
    return Success(itemBytes);
  }

  function PartsOf(items: seq<Item>, cuts: seq<nat>): seq<seq<Item>>
    requires |cuts| > 0
  {
    seq(|cuts| - 1, k requires 0 <= k < |cuts| - 1 => Part(items, cuts, k))
  }

  lemma AppendCut(items: seq<Item>, cuts: seq<nat>, i: nat)
    requires |cuts| > 0 && cuts[|cuts| - 1] <= i <= |items|
    ensures PartsOf(items, cuts + [i]) == PartsOf(items, cuts) + [items[cuts[|cuts| - 1]..i]]
  {
  }

  /** What the packing loop knows after `i` items. */
  ghost predicate PackState(
    codec: Codec, batch: Batch, limits: Limits, i: nat, cuts: seq<nat>,
    closed: seq<seq<Item>>, current: seq<Item>, currentBytes: nat)
  {
    ForcedCuts(codec, batch, limits, cuts) &&
    OpenPart(codec, batch, limits, cuts[|cuts| - 1], i) &&
    closed == PartsOf(batch.items, cuts) && current == batch.items[cuts[|cuts| - 1]..i] &&
    currentBytes == BaseBytes(codec, batch) + ListBytes(codec, current)
  }

  lemma SliceAppend<T>(s: seq<T>, lo: nat, i: nat)
    requires lo <= i < |s|
    ensures s[lo..i + 1] == s[lo..i] + [s[i]]
  {
  }

  lemma SingleItem(codec: Codec, items: seq<Item>, i: nat)
    requires i < |items| && codec.itemBytes(items[i]).Some?
    ensures items[i..i + 1] == [items[i]] && Marshals(codec, [items[i]])
    ensures ListBytes(codec, [items[i]]) == codec.itemBytes(items[i]).value
  {
    OneMore(codec, [], items[i]);
    assert [] + [items[i]] == [items[i]];
  }

  /** One turn of the packing loop. */
  method Place(
    codec: Codec, batch: Batch, limits: Limits, i: nat, itemBytes: nat, ghost cuts: seq<nat>,
    closed: seq<seq<Item>>, current: seq<Item>, currentBytes: nat)
    returns (fits: bool, closed': seq<seq<Item>>, current': seq<Item>, currentBytes': nat, ghost cuts': seq<nat>)
    requires PackState(codec, batch, limits, i, cuts, closed, current, currentBytes)
    requires i < |batch.items| && WithinItemLimit(codec, limits, batch.items[i])
    requires codec.itemBytes(batch.items[i]) == Some(itemBytes)
    ensures fits ==> PackState(codec, batch, limits, i + 1, cuts', closed', current', currentBytes')
    ensures !fits ==> i == 0 && !Fits(codec, batch, limits, [batch.items[0]])
  {
    var item := batch.items[i];
    ghost var lo := cuts[|cuts| - 1];
    var extra := itemBytes + if |current| > 0 then 1 else 0;
    NextItem(codec, batch, limits, lo, i);
    SliceAppend(batch.items, lo, i);
    if |current| >= limits.maxItems || currentBytes + extra > limits.maxBytes {
      if |current| == 0 {
        return false, closed, current, currentBytes, cuts;
      }
      AppendCut(batch.items, cuts, i);
      assert (cuts + [i])[..|cuts|] == cuts;
      SingleItem(codec, batch.items, i);
      return true, closed + [current], [item], BaseBytes(codec, batch) + itemBytes, cuts + [i];
    }
    return true, closed, current + [item], currentBytes + extra, cuts;
  }

  /** The packing loop: the closed item lists, or the first item that stops it. */
  method Pack(codec: Codec, batch: Batch, limits: Limits)
    returns (r: Result<seq<seq<Item>>, ChunkError>, ghost cuts: seq<nat>)
    requires BaseBytes(codec, batch) <= limits.maxBytes
    ensures r.Failure? ==> StopsWith(codec, batch, limits, r.error)
    ensures r.Success? ==> PacksInto(codec, batch, limits, cuts) && r.value == PartsOf(batch.items, cuts)
  {
    var items := batch.items;
    var closed: seq<seq<Item>> := [];
    var current: seq<Item> := [];
    var currentBytes := BaseBytes(codec, batch);
    cuts := [0];
    for i := 0 to |items|
      invariant PackState(codec, batch, limits, i, cuts, closed, current, currentBytes)
    {
      var weighed := Weigh(codec, limits, items[i], i);
      if weighed.Failure? {
        return Failure(weighed.error), cuts;
      }
      var fits;
      fits, closed, current, currentBytes, cuts :=
        Place(codec, batch, limits, i, weighed.value, cuts, closed, current, currentBytes);
      if !fits {
        return Failure(CannotFit(i)), cuts;
      }
    }
    closed, cuts := CloseLast(codec, batch, limits, cuts, closed, current, currentBytes);
    return Success(closed), cuts;
  }

  /** The open item list becomes the last one, unless it is empty. */
  method CloseLast(
    codec: Codec, batch: Batch, limits: Limits, ghost cuts: seq<nat>, closed: seq<seq<Item>>, current: seq<Item>,
    ghost currentBytes: nat)
    returns (closed': seq<seq<Item>>, ghost cuts': seq<nat>)
    requires PackState(codec, batch, limits, |batch.items|, cuts, closed, current, currentBytes)
    ensures PacksInto(codec, batch, limits, cuts') && closed' == PartsOf(batch.items, cuts')
  {
    FinishPacking(codec, batch, limits, cuts);
    LastPart(batch.items, cuts, current);
    closed', cuts' := closed, Closed(cuts, |batch.items|);
    if |current| > 0 {
      closed' := closed' + [current];
    }
  }

  lemma LastPart(items: seq<Item>, cuts: seq<nat>, current: seq<Item>)
    requires |cuts| > 0 && cuts[|cuts| - 1] <= |items| && current == items[cuts[|cuts| - 1]..|items|]
    ensures current == items[cuts[|cuts| - 1]..] && |current| == |items| - cuts[|cuts| - 1]
  {
  }

  method ChunkBatch(codec: Codec, batch: Batch, limits: Limits)
    returns (r: Result<seq<Batch>, ChunkError>, ghost cuts: seq<nat>)
    ensures Outcome(codec, batch, limits, r, cuts)
    ensures r == Failure(EnvelopeTooLarge) <==> BaseBytes(codec, batch) > limits.maxBytes
  {
    cuts := [];
    if BaseBytes(codec, batch) > limits.maxBytes {
      return Failure(EnvelopeTooLarge), cuts;
    }
    var packed;
    packed, cuts := Pack(codec, batch, limits);
    if packed.Failure? {
      return Failure(packed.error), cuts;
    }
    var closed := packed.value;
    var result: seq<Batch> := [];
    for index := 0 to |closed|
      invariant result == ChunksOf(batch, cuts)[..index]
      invariant forall j | 0 <= j < index :: ChunkFits(codec, limits, ChunksOf(batch, cuts)[j])
    {
      var chunk := WithItems(batch, closed[index], index, |closed|);
      assert chunk == ChunksOf(batch, cuts)[index];
      if EncodedBytes(codec, chunk) > limits.maxBytes {
        return Failure(ChunkTooLarge(index)), cuts;
      }
      result := result + [chunk];
    }
    return Success(result), cuts;
  }

  /** Appending one item costs its own bytes, and a comma unless it comes first. */
  lemma OneMore(codec: Codec, items: seq<Item>, item: Item)
    requires Marshals(codec, items) && codec.itemBytes(item).Some?
    ensures Marshals(codec, items + [item])
    ensures ListBytes(codec, items + [item])
            == ListBytes(codec, items) + codec.itemBytes(item).value + if |items| > 0 then 1 else 0
  {
    assert (items + [item])[..|items|] == items;
  }

  // ---------------------------------------------------------------- exact accounting

  /** The base bytes plus the list bytes are the exact size of the worst-case chunk. */
  lemma AccountingIsExact(codec: Codec, batch: Batch, items: seq<Item>)
    requires Marshals(codec, items) && items != []
    ensures EncodedBytes(codec, WorstEnvelope(batch, items)) == BaseBytes(codec, batch) + ListBytes(codec, items)
  {
  }

  lemma {:induction false} SplitsAreShort(cuts: seq<nat>, n: nat, k: nat)
    requires IsSplit(cuts, n) && k < |cuts|
    ensures k <= cuts[k] && cuts[k] <= n && n - cuts[k] >= |cuts| - 1 - k
    decreases |cuts| - k
  {
    if k + 1 < |cuts| {
      SplitsAreShort(cuts, n, k + 1);
    }
    var j := 0;
    while j < k
      invariant j <= k && j <= cuts[j]
    {
      j := j + 1;
    }
  }

  /** A real chunk is never larger than the accounting said. */
  lemma RealChunksAreNoLarger(codec: Codec, batch: Batch, cuts: seq<nat>, k: nat)
    requires Marshals(codec, batch.items) && IsSplit(cuts, |batch.items|) && k + 1 < |cuts|
    ensures Marshals(codec, ChunksOf(batch, cuts)[k].items)
    ensures EncodedBytes(codec, ChunksOf(batch, cuts)[k])
            <= BaseBytes(codec, batch) + ListBytes(codec, Part(batch.items, cuts, k))
  {
    ChunkNumbers(batch, cuts, k);
    PartMarshals(codec, batch.items, cuts, k);
    NarrowChunk(codec, batch, Part(batch.items, cuts, k), k, |cuts| - 1);
  }

  lemma PartMarshals(codec: Codec, items: seq<Item>, cuts: seq<nat>, k: nat)
    requires Marshals(codec, items) && k + 1 < |cuts| && cuts[k] < cuts[k + 1] <= |items|
    ensures Marshals(codec, Part(items, cuts, k)) && Part(items, cuts, k) != []
  {
  }

  lemma NarrowChunk(codec: Codec, batch: Batch, items: seq<Item>, k: nat, n: nat)
    requires Marshals(codec, items) && items != []
    requires |Decimal(k)| <= |Decimal(Max(1, |batch.items|) - 1)| && |Decimal(n)| <= |Decimal(Max(1, |batch.items|))|
    ensures EncodedBytes(codec, WithItems(batch, items, k, n)) <= BaseBytes(codec, batch) + ListBytes(codec, items)
  {
  }

  lemma ChunkNumbers(batch: Batch, cuts: seq<nat>, k: nat)
    requires IsSplit(cuts, |batch.items|) && k + 1 < |cuts|
    ensures |Decimal(k)| <= |Decimal(Max(1, |batch.items|) - 1)|
    ensures |Decimal(|cuts| - 1)| <= |Decimal(Max(1, |batch.items|))|
    ensures cuts[k] < cuts[k + 1] <= |batch.items|
  {
    SplitsAreShort(cuts, |batch.items|, 0);
    SplitsAreShort(cuts, |batch.items|, k + 1);
    var w := Max(1, |batch.items|);
    DecimalWidthMonotone(k, w - 1);
    DecimalWidthMonotone(|cuts| - 1, w);
  }

  lemma FittingPart(codec: Codec, batch: Batch, limits: Limits, cuts: seq<nat>, k: nat)
    requires EveryItemFits(codec, batch, limits)
    requires IsSplit(cuts, |batch.items|) && Greedy(codec, batch, limits, cuts) && k + 1 < |cuts|
    ensures Fits(codec, batch, limits, Part(batch.items, cuts, k))
  {
    SplitsAreShort(cuts, |batch.items|, k + 1);
    if cuts[k + 1] == cuts[k] + 1 {
      assert Part(batch.items, cuts, k) == [batch.items[cuts[k]]];
    }
  }

  /** If each item alone fits, chunking succeeds and the re-check of the encoded size never fires. */
  lemma FittingBatchesAlwaysChunk(
    codec: Codec, batch: Batch, limits: Limits, r: Result<seq<Batch>, ChunkError>, cuts: seq<nat>)
    requires Outcome(codec, batch, limits, r, cuts)
    requires EveryItemFits(codec, batch, limits) && BaseBytes(codec, batch) <= limits.maxBytes
    ensures r.Success?
    ensures forall k: nat | k + 1 < |cuts| :: Fits(codec, batch, limits, Part(batch.items, cuts, k))
  {
    if r.Failure? && r.error.ChunkTooLarge? {
      FittingPart(codec, batch, limits, cuts, r.error.chunk);
      RealChunksAreNoLarger(codec, batch, cuts, r.error.chunk);
    }
    if r.Success? {
      forall k: nat | k + 1 < |cuts| ensures Fits(codec, batch, limits, Part(batch.items, cuts, k)) {
        FittingPart(codec, batch, limits, cuts, k);
      }
    }
  }

  /** The re-check can only reject a one-item chunk whose item does not fit an empty chunk. */
  lemma RecheckBlamesOneItem(codec: Codec, batch: Batch, limits: Limits, k: nat, cuts: seq<nat>)
    requires Outcome(codec, batch, limits, Failure(ChunkTooLarge(k)), cuts)
    ensures k + 1 < |cuts| && cuts[k + 1] == cuts[k] + 1 <= |batch.items|
    ensures !Fits(codec, batch, limits, [batch.items[cuts[k]]])
  {
    SplitsAreShort(cuts, |batch.items|, k + 1);
    RealChunksAreNoLarger(codec, batch, cuts, k);
    if cuts[k + 1] == cuts[k] + 1 {
      assert Part(batch.items, cuts, k) == [batch.items[cuts[k]]];
    }
  }

  /** The size of the chunk that holds one item alone, as number k of n. */
  function LoneBytes(codec: Codec, batch: Batch, item: Item, k: nat, n: nat): nat
    requires codec.itemBytes(item).Some?
  {
    codec.headerBytes(batch.header) + |Decimal(k)| + |Decimal(n)| + |"[]"| + codec.itemBytes(item).value
  }

  /** Every item that stands alone because it does not fit passes with the real number and count of its chunk. */
  ghost predicate LoneItemsPass(codec: Codec, batch: Batch, limits: Limits, cuts: seq<nat>)
    requires Marshals(codec, batch.items)
  {
    forall k: nat | k + 1 < |cuts| && cuts[k + 1] == cuts[k] + 1 <= |batch.items|
      && !Fits(codec, batch, limits, [batch.items[cuts[k]]]) ::
      LoneBytes(codec, batch, batch.items[cuts[k]], k, |cuts| - 1) <= limits.maxBytes
  }

  lemma LoneChunk(codec: Codec, batch: Batch, limits: Limits, cuts: seq<nat>, k: nat)
    requires Marshals(codec, batch.items) && k + 1 < |cuts| && cuts[k + 1] == cuts[k] + 1 <= |batch.items|
    ensures ChunkFits(codec, limits, ChunksOf(batch, cuts)[k])
            <==> LoneBytes(codec, batch, batch.items[cuts[k]], k, |cuts| - 1) <= limits.maxBytes
  {
    SingleItem(codec, batch.items, cuts[k]);
    assert Part(batch.items, cuts, k) == [batch.items[cuts[k]]];
  }

  /**
   When chunking succeeds, exactly: the envelope fits, every item is within the item limit, the first one fits an
   empty chunk, and each later one that does not fit alone is saved by its chunk's real number and count.
   */
  lemma ChunkingSucceedsIff(
    codec: Codec, batch: Batch, limits: Limits, r: Result<seq<Batch>, ChunkError>, cuts: seq<nat>)
    requires Outcome(codec, batch, limits, r, cuts)
    ensures r.Success? <==>
            AcceptedUpTo(codec, batch, limits, |batch.items|) && Marshals(codec, batch.items) &&
            LoneItemsPass(codec, batch, limits, cuts)
  {
    if r.Success? {
      forall k: nat | k + 1 < |cuts| && cuts[k + 1] == cuts[k] + 1 <= |batch.items|
        && !Fits(codec, batch, limits, [batch.items[cuts[k]]])
        ensures LoneBytes(codec, batch, batch.items[cuts[k]], k, |cuts| - 1) <= limits.maxBytes
      {
        LoneChunk(codec, batch, limits, cuts, k);
      }
    } else if r.error.ChunkTooLarge? {
      RecheckBlamesOneItem(codec, batch, limits, r.error.chunk, cuts);
      LoneChunk(codec, batch, limits, cuts, r.error.chunk);
    } else if !r.error.EnvelopeTooLarge? && AcceptedUpTo(codec, batch, limits, |batch.items|) {
      StoppingIsUnique(codec, batch, limits, r.error, |batch.items|);
    }
  }

  // An example in which the encoded size of an item is its sequence number and the header is free.

  const SAMPLE_CODEC := Codec((item: Item) => Some(item.sequence), (_: Header) => 0, (_: Value) => None)
  const SMALL := Item("", 1, "event", "t", "k", Null)
  const BIG := SMALL.(sequence := 96)
  const SAMPLE_LIMITS := Limits(1000, 100, 1000)

  function SampleBatch(items: seq<Item>): Batch {
    Batch(Header("1.1", "b", "agent", "a", "default", 0, 0), 0, 1, items)
  }

  lemma SampleBase(items: seq<Item>)
    requires |items| == 10
    ensures BaseBytes(SAMPLE_CODEC, SampleBatch(items)) == 5
  {
    assert |Decimal(9)| == 1 && |Decimal(10)| == 2;
  }

  lemma SampleCosts(items: seq<Item>, big: bool)
    requires forall i | 0 <= i < |items| :: items[i] == SMALL || items[i] == BIG
    requires big <==> BIG in items
    requires big ==> |items| <= 2
    ensures Marshals(SAMPLE_CODEC, items)
    ensures big ==> ListBytes(SAMPLE_CODEC, items) >= 96 && (|items| == 1 ==> ListBytes(SAMPLE_CODEC, items) == 96)
    ensures !big && items != [] ==> ListBytes(SAMPLE_CODEC, items) == 2 * |items| - 1
  {
    if !big {
      SmallListBytes(items);
    } else if |items| == 1 {
      assert items == [BIG];
      SingleItem(SAMPLE_CODEC, items, 0);
    } else {
      assert items == [items[0]] + [items[1]];
      PairCosts(items[0], items[1]);
    }
  }

  lemma PairCosts(a: Item, b: Item)
    requires (a == SMALL || a == BIG) && (b == SMALL || b == BIG)
    ensures Marshals(SAMPLE_CODEC, [a] + [b])
    ensures ListBytes(SAMPLE_CODEC, [a] + [b]) == a.sequence + b.sequence + 1
  {
    SingleItem(SAMPLE_CODEC, [a], 0);
    OneMore(SAMPLE_CODEC, [a], b);
  }

  /**
   The converse of FittingBatchesAlwaysChunk fails. After the first item the loop does not re-test
   an item against an empty chunk, and the final re-check uses the real, possibly narrower, index
   and count. So an item one byte too long passes behind another item, while the same item is
   rejected when it comes first.
   */
  lemma OversizedItemPassesUnlessFirst() returns (head: Batch, tail: Batch, cuts: seq<nat>)
    ensures Outcome(SAMPLE_CODEC, head, SAMPLE_LIMITS, Success(ChunksOf(head, cuts)), cuts)
    ensures |head.items| == 10 && !Fits(SAMPLE_CODEC, head, SAMPLE_LIMITS, [head.items[1]])
    ensures tail.header == head.header && tail.items == head.items[1..] + head.items[..1]
    ensures Outcome(SAMPLE_CODEC, tail, SAMPLE_LIMITS, Failure(CannotFit(0)), [])
  {
    var rest := seq(8, _ => SMALL);
    head := SampleBatch([SMALL, BIG] + rest);
    tail := SampleBatch([BIG] + rest + [SMALL]);
    cuts := [0, 1, 2, 10];
    assert tail.items == head.items[1..] + head.items[..1];
    SampleBase(head.items);
    SampleBase(tail.items);
    SampleCosts([SMALL], false);
    SampleCosts([BIG], true);
    SamplePacks(head, rest, cuts);
    forall k | 0 <= k < 3 ensures ChunkFits(SAMPLE_CODEC, SAMPLE_LIMITS, ChunksOf(head, cuts)[k]) {
      SampleCosts(rest, false);
      assert |Decimal(k)| == 1 && |Decimal(3)| == 1;
    }
  }

  lemma SamplePacks(head: Batch, rest: seq<Item>, cuts: seq<nat>)
    requires rest == seq(8, _ => SMALL) && head == SampleBatch([SMALL, BIG] + rest) && cuts == [0, 1, 2, 10]
    ensures PacksInto(SAMPLE_CODEC, head, SAMPLE_LIMITS, cuts)
    ensures Part(head.items, cuts, 0) == [SMALL] && Part(head.items, cuts, 1) == [BIG]
    ensures Part(head.items, cuts, 2) == rest
  {
    SampleBase(head.items);
    SampleCosts([SMALL], false);
    SampleCosts(rest, false);
    SampleCosts(head.items[0..2], true);
    SampleCosts(head.items[1..3], true);
    assert head.items[0..2] == [SMALL, BIG] && head.items[1..3] == [BIG, SMALL];
    assert IsFull(SAMPLE_CODEC, head, SAMPLE_LIMITS, cuts, 0);
    assert IsFull(SAMPLE_CODEC, head, SAMPLE_LIMITS, cuts, 1);
    assert head.items[..10] == head.items;
  }

  lemma {:induction false} SmallListBytes(items: seq<Item>)
    requires forall i | 0 <= i < |items| :: items[i] == SMALL
    ensures Marshals(SAMPLE_CODEC, items)
    ensures items != [] ==> ListBytes(SAMPLE_CODEC, items) == 2 * |items| - 1
  {
    if |items| > 1 {
      SmallListBytes(items[..|items| - 1]);
    }
  }

  lemma {:induction false} FlattenPrefix(batch: Batch, cuts: seq<nat>, m: nat)
    requires IsSplit(cuts, |batch.items|) && m < |cuts|
    ensures cuts[m] <= |batch.items| && Flatten(ChunksOf(batch, cuts)[..m]) == batch.items[..cuts[m]]
  {
    SplitsAreShort(cuts, |batch.items|, m);
    if m > 0 {
      FlattenPrefix(batch, cuts, m - 1);
      var chunks := ChunksOf(batch, cuts)[..m];
      assert chunks[..m - 1] == ChunksOf(batch, cuts)[..m - 1];
      assert chunks[m - 1].items == batch.items[cuts[m - 1]..cuts[m]];
    }
  }

  /** Successful chunks lose, duplicate and reorder nothing, and carry their own position. */
  lemma ChunksAreTheBatch(
    codec: Codec, batch: Batch, limits: Limits, chunks: seq<Batch>, cuts: seq<nat>)
    requires Outcome(codec, batch, limits, Success(chunks), cuts)
    ensures Flatten(chunks) == batch.items
    ensures forall k | 0 <= k < |chunks| ::
              && chunks[k].header == batch.header
              && chunks[k].chunkIndex == k && chunks[k].chunkCount == |chunks|
              && 1 <= |chunks[k].items| <= limits.maxItems
              && ChunkFits(codec, limits, chunks[k])
    ensures chunks == [] <==> batch.items == []
  {
    FlattenPrefix(batch, cuts, |cuts| - 1);
    assert chunks[..|cuts| - 1] == chunks;
    forall k | 0 <= k < |chunks| ensures 1 <= |chunks[k].items| <= limits.maxItems {
      ChunkSize(codec, batch, limits, cuts, k);
    }
    SplitsAreShort(cuts, |batch.items|, 0);
  }

  lemma ChunkSize(codec: Codec, batch: Batch, limits: Limits, cuts: seq<nat>, k: nat)
    requires PacksInto(codec, batch, limits, cuts) && k + 1 < |cuts|
    ensures cuts[k] < cuts[k + 1] <= |batch.items| && 1 <= |Part(batch.items, cuts, k)| <= limits.maxItems
  {
    SplitsAreShort(cuts, |batch.items|, k + 1);
  }

  /** A batch of one fitting item is one chunk. */
  lemma OneItemBatch(codec: Codec, batch: Batch, limits: Limits)
    requires |batch.items| == 1 && WithinItemLimit(codec, limits, batch.items[0])
    requires Marshals(codec, [batch.items[0]]) && Fits(codec, batch, limits, [batch.items[0]])
    ensures Outcome(codec, batch, limits, Success(ChunksOf(batch, [0, 1])), [0, 1])
    ensures |ChunksOf(batch, [0, 1])| == 1 && ChunksOf(batch, [0, 1])[0].items == batch.items
  {
    var cuts: seq<nat> := [0, 1];
    assert batch.items == [batch.items[0]] && batch.items[..1] == batch.items;
    assert Part(batch.items, cuts, 0) == batch.items;
    RealChunksAreNoLarger(codec, batch, cuts, 0);
  }

  // ---------------------------------------------------------------- optimality

  lemma SliceOfSlice<T>(s: seq<T>, lo: nat, hi: nat, i: nat, j: nat)
    requires lo <= hi <= |s| && i <= j <= hi - lo
    ensures s[lo..hi][i..j] == s[lo + i..lo + j]
  {
    var a, b := s[lo..hi][i..j], s[lo + i..lo + j];
    forall k | 0 <= k < j - i ensures a[k] == b[k] {
    }
  }

  lemma PartOfFittingFits(codec: Codec, batch: Batch, limits: Limits, lo: nat, lo': nat, hi': nat, hi: nat)
    requires Marshals(codec, batch.items) && lo <= lo' <= hi' <= hi <= |batch.items|
    requires Fits(codec, batch, limits, batch.items[lo..hi])
    ensures Fits(codec, batch, limits, batch.items[lo'..hi'])
  {
    SliceOfSlice(batch.items, lo, hi, lo' - lo, hi' - lo);
    FewerFit(codec, batch, limits, batch.items[lo..hi], lo' - lo, hi' - lo);
  }

  lemma FewerFit(codec: Codec, batch: Batch, limits: Limits, items: seq<Item>, i: nat, j: nat)
    requires Marshals(codec, items) && i <= j <= |items| && Fits(codec, batch, limits, items)
    ensures Marshals(codec, items[i..j]) && Fits(codec, batch, limits, items[i..j])
  {
    ListBytesMonotone(codec, items, i, j);
  }

  /** After k parts, the greedy split has never covered fewer items than another packed one. */
  lemma {:induction false} GreedyStaysAhead(
    codec: Codec, batch: Batch, limits: Limits, greedy: seq<nat>, other: seq<nat>, k: nat)
    requires Marshals(codec, batch.items)
    requires IsSplit(greedy, |batch.items|) && Greedy(codec, batch, limits, greedy)
    requires IsSplit(other, |batch.items|) && Packed(codec, batch, limits, other)
    requires k < |greedy| && k < |other|
    ensures greedy[k] >= other[k]
  {
    if k > 0 {
      GreedyStaysAhead(codec, batch, limits, greedy, other, k - 1);
      var g, o := greedy[k - 1], other[k - 1];
      assert g < greedy[k] && o < other[k];
      if greedy[k] < other[k] {
        SplitsAreShort(other, |batch.items|, k);
        assert Part(batch.items, other, k - 1) == batch.items[o..other[k]];
        assert IsFull(codec, batch, limits, greedy, k - 1);
        PartOfFittingFits(codec, batch, limits, o, g, greedy[k] + 1, other[k]);
      }
    }
  }

  /** No order-preserving split whose parts pass the cost test uses fewer chunks. */
  lemma GreedyChunkingIsOptimal(
    codec: Codec, batch: Batch, limits: Limits, chunks: seq<Batch>, cuts: seq<nat>, other: seq<nat>)
    requires Outcome(codec, batch, limits, Success(chunks), cuts)
    requires IsSplit(other, |batch.items|) && Packed(codec, batch, limits, other)
    ensures |chunks| <= |other| - 1
  {
    if |other| < |cuts| {
      GreedyStaysAhead(codec, batch, limits, cuts, other, |other| - 1);
    }
  }

  lemma GreedySplitIsUnique(codec: Codec, batch: Batch, limits: Limits, a: seq<nat>, b: seq<nat>)
    requires Marshals(codec, batch.items)
    requires IsSplit(a, |batch.items|) && Greedy(codec, batch, limits, a)
    requires IsSplit(b, |batch.items|) && Greedy(codec, batch, limits, b)
    ensures a == b
  {
    forall k | 0 <= k < |a| && k < |b| ensures a[k] == b[k] {
      GreedyStaysAhead(codec, batch, limits, a, b, k);
      GreedyStaysAhead(codec, batch, limits, b, a, k);
    }
  }

  /** When the loop stops at an item, it accepts no longer prefix and stops nowhere else. */
  lemma StoppingIsUnique(codec: Codec, batch: Batch, limits: Limits, e: ChunkError, i: nat)
    requires StopsWith(codec, batch, limits, e)
    requires e.item < i <= |batch.items|
    ensures !AcceptedUpTo(codec, batch, limits, i)
  {
    assert batch.items[..i][e.item] == batch.items[e.item];
  }

  /** The outcome is a function of the input: the case conditions and the greedy rule fix it. */
  lemma OutcomeIsUnique(
    codec: Codec, batch: Batch, limits: Limits,
    r: Result<seq<Batch>, ChunkError>, cuts: seq<nat>, r': Result<seq<Batch>, ChunkError>, cuts': seq<nat>)
    requires Outcome(codec, batch, limits, r, cuts) && Outcome(codec, batch, limits, r', cuts')
    ensures r == r'
  {
    var stops := r.Failure? && StopsWith(codec, batch, limits, r.error);
    var stops' := r'.Failure? && StopsWith(codec, batch, limits, r'.error);
    forall i: nat | i <= |batch.items| && AcceptedUpTo(codec, batch, limits, i)
      ensures stops ==> i <= r.error.item
      ensures stops' ==> i <= r'.error.item
    {
      if stops && r.error.item < i {
        StoppingIsUnique(codec, batch, limits, r.error, i);
      }
      if stops' && r'.error.item < i {
        StoppingIsUnique(codec, batch, limits, r'.error, i);
      }
    }
    if PacksInto(codec, batch, limits, cuts) && PacksInto(codec, batch, limits, cuts') {
      GreedySplitIsUnique(codec, batch, limits, cuts, cuts');
    }
  }
}
