/**
 What a receiver ends with when chunks are delivered in order, some of them twice. The sender works
 off a line of chunks that it has read before: some still stand in the queue, some have left it since.
 */
module Delivery {
  import opened Envelope
  import opened Chunking
  import opened Receiver

  /** The receiver after all chunks. */
  function Drained(view: View, chunks: seq<Batch>): View { ApplyAll(view, Flatten(chunks)) }

  lemma {:induction false} FlattenConcat(a: seq<Batch>, b: seq<Batch>)
    ensures Flatten(a + b) == Flatten(a) + Flatten(b)
  {
    if b == [] {
      assert a + b == a;
    } else {
      assert (a + b)[..|a + b| - 1] == a + b[..|b| - 1];
      FlattenConcat(a, b[..|b| - 1]);
    }
  }

  lemma DrainedConcat(view: View, a: seq<Batch>, b: seq<Batch>)
    ensures Drained(view, a + b) == Drained(Drained(view, a), b)
  {
    FlattenConcat(a, b);
    ApplyAllConcat(view, Flatten(a), Flatten(b));
  }

  lemma DrainedNone(view: View)
    ensures Drained(view, []) == view
  {
  }

  lemma DrainedOne(view: View, chunk: Batch)
    ensures Drained(view, [chunk]) == ApplyAll(view, chunk.items)
  {
    var one: seq<Batch> := [chunk];
    assert one[..0] == [];
    assert Flatten(one) == [] + chunk.items == chunk.items;
  }

  /** Delivering the first chunk now changes nothing, whether or not it is delivered again. */
  lemma FirstNow(view: View, first: Batch, rest: seq<Batch>)
    ensures Drained(ApplyAll(view, first.items), [first] + rest) == Drained(view, [first] + rest)
    ensures Drained(ApplyAll(view, first.items), rest) == Drained(view, [first] + rest)
  {
    var once := ApplyAll(view, first.items);
    DrainedConcat(view, [first], rest);
    DrainedOne(view, first);
    DrainedConcat(once, [first], rest);
    DrainedOne(once, first);
    RedeliveryIsHarmless(view, first.items);
  }

  /** One more chunk of a list, the first or the second time. */
  lemma NextOf(base: View, chunks: seq<Batch>, k: nat)
    requires k < |chunks|
    ensures ApplyAll(Drained(base, chunks[..k]), chunks[k].items) == Drained(base, chunks[..k + 1])
    ensures ApplyAll(Drained(base, chunks[..k + 1]), chunks[k].items) == Drained(base, chunks[..k + 1])
  {
    assert chunks[..k + 1] == chunks[..k] + [chunks[k]];
    DrainedConcat(base, chunks[..k], [chunks[k]]);
    DrainedOne(Drained(base, chunks[..k]), chunks[k]);
    RedeliveryIsHarmless(Drained(base, chunks[..k]), chunks[k].items);
  }

  lemma SliceSnoc<T>(s: seq<T>, k: nat, m: nat)
    requires k <= m < |s|
    ensures s[k..m + 1] == s[k..m] + [s[m]]
  {
  }

  lemma RestNext(view: View, chunks: seq<Batch>, k: nat, m: nat)
    requires k <= m < |chunks|
    ensures Drained(view, chunks[k..m + 1]) == ApplyAll(Drained(view, chunks[k..m]), chunks[m].items)
  {
    SliceSnoc(chunks, k, m);
    DrainedConcat(view, chunks[k..m], [chunks[m]]);
    DrainedOne(Drained(view, chunks[k..m]), chunks[m]);
  }

  /** How many of the first n chunks have arrived when some were delivered before. */
  function Arrived(delivered: nat, n: nat): nat { if n < delivered then delivered else n }

  lemma RestStep(base: View, view: View, chunks: seq<Batch>, k: nat, delivered: nat, n: nat)
    requires delivered <= k + 1 && k < n <= |chunks| && delivered <= |chunks|
    requires Drained(view, chunks[k..n - 1]) == Drained(base, chunks[..Arrived(delivered, n - 1)])
    ensures Drained(view, chunks[k..n]) == Drained(base, chunks[..Arrived(delivered, n)])
  {
    RestNext(view, chunks, k, n - 1);
    NextOf(base, chunks, n - 1);
  }

  /** Delivering chunks k..n after k or k + 1 of them were delivered ends with the first n, or with what there was. */
  lemma {:induction false} RestOf(base: View, chunks: seq<Batch>, k: nat, delivered: nat, n: nat)
    requires k <= delivered <= k + 1 && k <= n <= |chunks| && delivered <= |chunks|
    ensures Drained(Drained(base, chunks[..delivered]), chunks[k..n]) == Drained(base, chunks[..Arrived(delivered, n)])
    decreases n
  {
    if n == k {
      DrainedNone(Drained(base, chunks[..delivered]));
      assert chunks[k..n] == [];
    } else {
      RestOf(base, chunks, k, delivered, n - 1);
      RestStep(base, Drained(base, chunks[..delivered]), chunks, k, delivered, n);
    }
  }

  // ---------------------------------------------------------------- the sender's line

  function Least(a: nat, b: nat): nat { if a < b then a else b }

  /** The queue as the receiver gets it: the sender's part, then k chunks that have left the queue, then the rest. */
  function Line(queue: seq<Batch>, held: nat, stale: seq<Batch>, k: nat): seq<Batch>
    requires k <= |stale|
  {
    var p := Least(held, |queue|);
    queue[..p] + stale[..k] + queue[p..]
  }

  lemma LineWithoutStale(queue: seq<Batch>, held: nat)
    ensures Line(queue, held, [], 0) == queue
  {
  }

  lemma TakeDropAppend<T>(s: seq<T>, more: seq<T>, p: nat)
    requires p <= |s|
    ensures (s + more)[..p] == s[..p] && (s + more)[p..] == s[p..] + more
  {
  }

  lemma Regroup<T>(a: seq<T>, b: seq<T>, c: seq<T>)
    ensures a + (b + c) == (a + b) + c
  {
  }

  /** Chunks that are queued later come last. */
  lemma LineAppend(queue: seq<Batch>, held: nat, stale: seq<Batch>, k: nat, more: seq<Batch>)
    requires k <= |stale| && (held <= |queue| || stale == [])
    ensures Line(queue + more, held, stale, k) == Line(queue, held, stale, k) + more
  {
    if held <= |queue| {
      TakeDropAppend(queue, more, held);
      Regroup(queue[..held] + stale[..k], queue[held..], more);
    } else {
      LineWithoutStale(queue, held);
      LineWithoutStale(queue + more, held);
    }
  }

  /** The chunk that the sender takes next. */
  function Front(queue: seq<Batch>, held: nat, stale: seq<Batch>): Batch
    requires (held > 0 && queue != []) || stale != []
  {
    if held > 0 && queue != [] then queue[0] else stale[0]
  }

  lemma LineStartsWithQueue(queue: seq<Batch>, held: nat, stale: seq<Batch>, k: nat)
    requires held > 0 && queue != [] && k <= |stale|
    ensures Line(queue, held, stale, k) == [queue[0]] + Line(queue[1..], held - 1, stale, k)
  {
    var p := Least(held, |queue|);
    assert queue[..p] == [queue[0]] + queue[1..][..p - 1];
    assert queue[p..] == queue[1..][p - 1..];
  }

  lemma LineStartsWithStale(queue: seq<Batch>, held: nat, stale: seq<Batch>, k: nat)
    requires (held == 0 || queue == []) && k < |stale|
    ensures Line(queue, held, stale, k + 1) == [stale[0]] + Line(queue, held, stale[1..], k)
  {
    assert stale[..k + 1] == [stale[0]] + stale[1..][..k];
  }

  /** Sending the front does not add an outcome: with k stale chunks to come it is an outcome there was before. */
  lemma SendFront(view: View, queue: seq<Batch>, held: nat, stale: seq<Batch>, k: nat) returns (j: nat)
    requires ((held > 0 && queue != []) || stale != []) && k <= |stale|
    ensures j <= |stale|
    ensures Drained(ApplyAll(view, Front(queue, held, stale).items), Line(queue, held, stale, k))
         == Drained(view, Line(queue, held, stale, j))
  {
    var front := Front(queue, held, stale);
    if held > 0 && queue != [] {
      j := k;
      LineStartsWithQueue(queue, held, stale, k);
      FirstNow(view, front, Line(queue[1..], held - 1, stale, k));
    } else if k > 0 {
      j := k;
      LineStartsWithStale(queue, held, stale, k - 1);
      FirstNow(view, front, Line(queue, held, stale[1..], k - 1));
    } else {
      j := 1;
      LineStartsWithStale(queue, held, stale, 0);
      FirstNow(view, front, Line(queue, held, stale[1..], 0));
      assert Line(queue, held, stale[1..], 0) == Line(queue, held, stale, 0);
    }
  }

  /** Taking a front away that has been delivered does not change the outcomes either. */
  lemma PopQueued(view: View, queue: seq<Batch>, held: nat, stale: seq<Batch>, k: nat)
    requires held > 0 && queue != [] && k <= |stale| && ApplyAll(view, queue[0].items) == view
    ensures Drained(view, Line(queue[1..], held - 1, stale, k)) == Drained(view, Line(queue, held, stale, k))
  {
    LineStartsWithQueue(queue, held, stale, k);
    FirstNow(view, queue[0], Line(queue[1..], held - 1, stale, k));
  }

  lemma PopStale(view: View, queue: seq<Batch>, held: nat, stale: seq<Batch>, k: nat)
    requires (held == 0 || queue == []) && k < |stale| && ApplyAll(view, stale[0].items) == view
    ensures Drained(view, Line(queue, held, stale[1..], k)) == Drained(view, Line(queue, held, stale, k + 1))
  {
    LineStartsWithStale(queue, held, stale, k);
    FirstNow(view, stale[0], Line(queue, held, stale[1..], k));
  }
}
