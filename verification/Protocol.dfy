/**
 The replication protocol with its interleavings. The collection loop pushes the chunks of a cycle one by one; the
 sender loop reads the front of the queue, sends what it has read and acknowledges it, also when it has left the
 queue in the meantime.
 */
module Protocol {
  import opened Wrappers
  import opened Envelope
  import opened Chunking
  import opened StateFilter
  import opened Receiver
  import opened Replication
  import opened Recovery
  import opened Delivery
  import opened Cycle

  datatype Site = Site(config: Config, codec: Codec)

  /** A cycle that got as far as chunking its batch: its run over the collectors, and the chunks. */
  datatype Attempt = Attempt(
    input: Input, parts: seq<seq<Item>>, memories: seq<Memory>, chunks: seq<Batch>, cuts: seq<nat>)
  {
    function Final(): Memory
      requires memories != []
    {
      memories[|memories| - 1]
    }
  }

  ghost predicate IsAttempt(site: Site, before: Memory, a: Attempt) {
    CleanRun(site.config, site.codec, a.input, a.memories) && |a.parts| == |site.config.collectors| &&
    CollectRun(site.config, site.codec, a.input, before, a.parts, a.memories) &&
    Outcome(site.codec, CycleBatch(site.config, a.input, a.parts), site.config.limits, Success(a.chunks), a.cuts)
  }

  /**
   Where the collection loop is. While pushing: how many chunks of the cycle are pushed; how many have been
   acknowledged, and how many delivered; and, once one is delivered, what the receiver held before that.
   */
  datatype Phase = Idle | Pushing(attempt: Attempt, pushed: nat, acked: nat, delivered: nat, base: View)

  /**
   The sender holds what it has read and not yet dealt with: the first `held` chunks of the queue, and then `stale`
   ones that a rollback has taken out of the queue. `sent` says that the first of them awaits its acknowledgement.
   */
  datatype World = World(
    queue: seq<Batch>, view: View, memory: Memory, phase: Phase, held: nat, stale: seq<Batch>, sent: bool)
  {
    /** How many chunks at the end of the queue belong to the cycle under way. */
    function Own(): nat {
      if phase.Pushing? && phase.acked <= phase.pushed <= phase.acked + |queue| then phase.pushed - phase.acked else 0
    }

    /** The queued chunks of committed cycles. */
    function Older(): seq<Batch> { queue[..|queue| - Own()] }

    function Owned(): seq<Batch> { queue[|queue| - Own()..] }

    predicate HasFront() { (held > 0 && queue != []) || stale != [] }

    /** The chunk that the sender deals with next. */
    function FrontChunk(): Batch
      requires HasFront()
    {
      Front(queue, held, stale)
    }

    predicate FrontIsOwn() { held > 0 && Older() == [] && Own() > 0 && stale == [] }

    /** How many chunks of the cycle under way the sender has read. */
    function OwnHeld(): nat { if held > |Older()| then held - |Older()| else 0 }

    /** What the receiver held, or will hold, when the cycle's first chunk arrives, after k stale ones. */
    function Base(k: nat): View
      requires k <= |stale|
    {
      if phase.Pushing? && phase.delivered > 0 then phase.base else Drained(view, Line(Older(), held, stale, k))
    }
  }

  datatype Step =
    | Begin(attempt: Attempt)              // a cycle has filtered and chunked its batch
    | Push                                 // the next chunk becomes durable
    | Commit                               // the new cache is saved
    | RollBack                             // the cycle fails and takes its queued chunks back
    | Crash(restored: Memory)              // the process restarts from queue and saved cache
    | Peek(limit: nat)                     // the sender reads the oldest chunks
    | Send(accepted: bool, arrived: bool)  // it sends one; a failure may hide that it arrived
    | Ack(ok: bool, removed: bool)         // and acknowledges it; a failure may come after the removal
    | Revive(place: nat, stray: Batch)     // a restart finds the record of a push that had failed
    | Discard(place: nat)                  // a record expires, or the oldest is rejected

  /** A crash is assumed to find the cache on disk that was in memory, as CollectOnce keeps it. */
  ghost predicate Enabled(site: Site, w: World, step: Step) {
    match step
    case Begin(a) => w.phase.Idle? && IsAttempt(site, w.memory, a)
    case Push => w.phase.Pushing? && w.phase.pushed < |w.phase.attempt.chunks|
    case Commit => w.phase.Pushing? && w.phase.pushed == |w.phase.attempt.chunks| && w.phase.attempt.memories != []
    case RollBack => w.phase.Pushing?
    case Crash(restored) => restored.stateCache == w.memory.stateCache
    case Peek(_) => w.held == 0 && w.stale == [] && !w.sent
    case Send(accepted, arrived) => w.HasFront() && !w.sent && (accepted ==> arrived)
    case Ack(ok, removed) => w.sent && w.HasFront() && (ok ==> removed)
    case Revive(place, _) => w.phase.Idle? && w.held == 0 && w.stale == [] && !w.sent && place <= |w.queue|
    case Discard(place) => place < |w.Older()| && (w.held == 0 || place == 0) && w.stale == [] && !w.sent
  }

  /** The sender gives up what it has read; it will read again. */
  function EndFlush(w: World): World { w.(held := 0, stale := [], sent := false) }

  function Deliver(w: World): World
    requires w.HasFront()
  {
    var view := ApplyAll(w.view, w.FrontChunk().items);
    if w.FrontIsOwn() then
      w.(view := view,
         phase := w.phase.(delivered := w.phase.acked + 1,
                           base := if w.phase.delivered == 0 then w.view else w.phase.base))
    else w.(view := view)
  }

  /** The front leaves the sender's line, and the queue if it still stands there. */
  function Pop(w: World): World
    requires w.HasFront()
  {
    if w.held > 0 && w.queue != [] then
      w.(queue := w.queue[1..], held := w.held - 1,
         phase := if w.FrontIsOwn() then w.phase.(acked := w.phase.acked + 1) else w.phase)
    else w.(stale := w.stale[1..])
  }

  function Committed(site: Site, a: Attempt): Memory
    requires a.memories != []
  {
    a.Final().(stateDirty := a.Final().stateDirty && !site.config.hasStatePath)
  }

  /** The sender keeps what it has read, also of the chunks that are taken back. */
  function RolledBack(w: World): World
    requires w.phase.Pushing?
  {
    w.(queue := w.Older(), phase := Idle, held := Least(w.held, |w.Older()|),
       stale := w.stale + w.Owned()[..Least(w.OwnHeld(), w.Own())])
  }

  /** A record leaves the queue undelivered; if the sender has read it, it is the oldest, and given up. */
  function Without(w: World, place: nat): World
    requires place < |w.queue|
  {
    w.(queue := w.queue[..place] + w.queue[place + 1..], held := if w.held > 0 then w.held - 1 else 0)
  }

  ghost function Next(site: Site, w: World, step: Step): World
    requires Enabled(site, w, step)
  {
    match step
    case Begin(a) => w.(phase := Pushing(a, 0, 0, 0, w.view))
    case Push => w.(queue := w.queue + [w.phase.attempt.chunks[w.phase.pushed]],
                    phase := w.phase.(pushed := w.phase.pushed + 1))
    case Commit => w.(memory := Committed(site, w.phase.attempt), phase := Idle)
    case RollBack => RolledBack(w)
    case Crash(restored) => EndFlush(w.(memory := restored, phase := Idle))
    case Peek(limit) => w.(held := Least(limit, |w.queue|))
    case Send(accepted, arrived) =>
      if accepted then Deliver(w).(sent := true) else EndFlush(if arrived then Deliver(w) else w)
    case Ack(ok, removed) =>
      if ok then Pop(w).(sent := false) else EndFlush(if removed then Pop(w) else w)
    case Revive(place, stray) => w.(queue := w.queue[..place] + [stray] + w.queue[place..])
    case Discard(place) => Without(w, place)
  }

  // ---------------------------------------------------------------- the invariant

  predicate Shape(w: World) {
    w.held <= |w.queue| &&
    (w.phase.Pushing? ==>
       var p := w.phase;
       p.acked <= p.delivered <= p.acked + 1 && p.delivered <= p.pushed <= |p.attempt.chunks| &&
       p.pushed - p.acked <= |w.queue| && w.Owned() == p.attempt.chunks[p.acked..p.pushed] &&
       (p.delivered > 0 ==> w.Older() == [] && w.stale == []) &&
       (w.held > |w.Older()| ==> w.stale == []))
  }

  /** Whatever stale chunks the sender still delivers: without the cycle under way, the receiver ends well. */
  ghost predicate Settles(good: View -> bool, w: World) {
    forall k: nat | k <= |w.stale| :: good(w.Base(k))
  }

  /** Ending well means to represent a cache. */
  ghost function Showing(codec: Codec, cache: Cache): View -> bool {
    (view: View) => Represents(codec, view, cache)
  }

  /** What has been sent and not acknowledged has arrived. */
  predicate SentHasArrived(w: World) {
    w.sent ==>
      w.HasFront() && ApplyAll(w.view, w.FrontChunk().items) == w.view &&
      (w.FrontIsOwn() ==> w.phase.delivered == w.phase.acked + 1)
  }

  /** What the receiver holds once a chunk of the cycle has arrived. */
  predicate DeliveredIsShown(w: World) {
    w.phase.Pushing? && 0 < w.phase.delivered <= |w.phase.attempt.chunks| ==>
      w.view == Drained(w.phase.base, w.phase.attempt.chunks[..w.phase.delivered])
  }

  /** What the sender's steps have to keep. */
  ghost predicate Agreement(good: View -> bool, w: World) {
    Shape(w) && SentHasArrived(w) && DeliveredIsShown(w) && Settles(good, w)
  }

  ghost predicate Inv(site: Site, w: World) {
    WfCache(w.memory.stateCache) && Agreement(Showing(site.codec, w.memory.stateCache), w) &&
    (w.phase.Pushing? ==> IsAttempt(site, w.memory, w.phase.attempt))
  }

  /** Real cycles carry the receiver along. */
  lemma AttemptCarries(site: Site, before: Memory, a: Attempt)
    requires IsAttempt(site, before, a) && WfCache(before.stateCache)
    ensures a.memories != [] && a.chunks != [] && WfCache(a.Final().stateCache)
    ensures Carries(site.codec, before.stateCache, Flatten(a.chunks), a.Final().stateCache)
  {
    var batch := CycleBatch(site.config, a.input, a.parts);
    CycleCarries(site.config, site.codec, a.input, before, a.parts, a.memories);
    ChunksAreTheBatch(site.codec, batch, site.config.limits, a.chunks, a.cuts);
  }

  // ---------------------------------------------------------------- the sender

  lemma FrontOfOlder(w: World)
    requires Shape(w) && w.HasFront() && !w.FrontIsOwn()
    ensures (w.held > 0 && w.Older() != []) || w.stale != []
    ensures Front(w.Older(), w.held, w.stale) == w.FrontChunk()
    ensures w.held > 0 && w.queue != [] <==> w.held > 0 && w.Older() != []
  {
  }

  lemma FrontOfOwn(w: World)
    requires Shape(w) && w.FrontIsOwn()
    ensures w.HasFront() && w.phase.Pushing? && w.phase.acked < w.phase.pushed <= |w.phase.attempt.chunks|
    ensures w.FrontChunk() == w.phase.attempt.chunks[w.phase.acked]
  {
    assert w.Owned()[0] == w.queue[0];
  }

  /** The receiver after the oldest chunk of the cycle, delivered for the first or the second time. */
  lemma OwnArrives(w: World)
    requires Shape(w) && DeliveredIsShown(w) && w.FrontIsOwn()
    ensures w.HasFront() && w.phase.Pushing? && w.phase.acked < |w.phase.attempt.chunks|
    ensures var p := w.phase;
            var base := if p.delivered == 0 then w.view else p.base;
            w.Base(0) == base &&
            ApplyAll(w.view, w.FrontChunk().items) == Drained(base, p.attempt.chunks[..p.acked + 1])
  {
    var p := w.phase;
    FrontOfOwn(w);
    if p.delivered == 0 {
      LineWithoutStale([], w.held);
      DrainedNone(w.view);
      assert p.attempt.chunks[..0] == [];
      NextOf(w.view, p.attempt.chunks, 0);
    } else {
      NextOf(p.base, p.attempt.chunks, p.acked);
    }
  }

  lemma DeliverOwn(good: View -> bool, w: World, sent: bool)
    requires Agreement(good, w) && w.FrontIsOwn()
    ensures w.HasFront() && Agreement(good, Deliver(w).(sent := sent))
  {
    OwnArrives(w);
    FrontOfOwn(w);
    RedeliveryIsHarmless(w.view, w.FrontChunk().items);
    var w' := Deliver(w).(sent := sent);
    assert w'.Own() == w.Own() && w'.Older() == w.Older() && w'.Owned() == w.Owned();
    assert good(w.Base(0));
  }

  lemma DeliverOther(good: View -> bool, w: World, sent: bool)
    requires Agreement(good, w) && w.HasFront() && !w.FrontIsOwn()
    ensures Agreement(good, Deliver(w).(sent := sent))
  {
    FrontOfOlder(w);
    RedeliveryIsHarmless(w.view, w.FrontChunk().items);
    var w' := Deliver(w).(sent := sent);
    assert w'.Own() == w.Own() && w'.Older() == w.Older() && w'.Owned() == w.Owned();
    forall k: nat | k <= |w.stale| ensures good(w'.Base(k)) {
      var j := SendFront(w.view, w.Older(), w.held, w.stale, k);
      assert good(w.Base(j));
    }
  }

  lemma PopOwn(good: View -> bool, w: World)
    requires Agreement(good, w) && w.sent && w.FrontIsOwn()
    ensures w.HasFront() && Agreement(good, Pop(w).(sent := false))
  {
    FrontOfOwn(w);
    var w' := Pop(w).(sent := false);
    assert w'.Own() == w.Own() - 1 && w'.Older() == [] && w'.queue == w'.Owned();
    assert w'.Base(0) == w.Base(0);
  }

  lemma PopOlder(good: View -> bool, w: World)
    requires Agreement(good, w) && w.sent && !w.FrontIsOwn() && w.held > 0 && w.queue != []
    ensures w.HasFront() && Agreement(good, Pop(w).(sent := false))
  {
    FrontOfOlder(w);
    var w' := Pop(w).(sent := false);
    assert w'.Own() == w.Own() && w'.Older() == w.Older()[1..] && w'.Owned() == w.Owned();
    forall k: nat | k <= |w.stale| ensures good(w'.Base(k)) {
      PopQueued(w.view, w.Older(), w.held, w.stale, k);
      assert good(w.Base(k));
    }
  }

  lemma LeftIsStale(w: World)
    requires Shape(w) && w.HasFront() && !(w.held > 0 && w.queue != [])
    ensures w.stale != [] && (w.held == 0 || w.Older() == []) && w.FrontChunk() == w.stale[0]
    ensures !(w.phase.Pushing? && w.phase.delivered > 0)
  {
  }

  lemma PopLeftShape(w: World)
    requires Shape(w) && w.HasFront() && !(w.held > 0 && w.queue != []) && DeliveredIsShown(w)
    ensures var w' := Pop(w).(sent := false);
            Shape(w') && DeliveredIsShown(w') && w'.Older() == w.Older() && w'.stale == w.stale[1..]
  {
    LeftIsStale(w);
    var w' := Pop(w).(sent := false);
    assert w'.Own() == w.Own() && w'.Older() == w.Older() && w'.Owned() == w.Owned();
  }

  lemma PopLeft(good: View -> bool, w: World)
    requires Agreement(good, w) && w.sent && !(w.held > 0 && w.queue != [])
    ensures w.HasFront() && Agreement(good, Pop(w).(sent := false))
  {
    LeftIsStale(w);
    PopLeftShape(w);
    var w' := Pop(w).(sent := false);
    forall k: nat | k <= |w'.stale| ensures good(w'.Base(k)) {
      var j := k + 1;
      PopStale(w.view, w.Older(), w.held, w.stale, k);
      assert w'.Base(k) == w.Base(j);
    }
  }

  lemma PopKeeps(good: View -> bool, w: World)
    requires Agreement(good, w) && w.sent
    ensures w.HasFront() && Agreement(good, Pop(w).(sent := false))
  {
    if w.FrontIsOwn() {
      PopOwn(good, w);
    } else if w.held > 0 && w.queue != [] {
      PopOlder(good, w);
    } else {
      PopLeft(good, w);
    }
  }

  lemma DeliverKeeps(good: View -> bool, w: World, sent: bool)
    requires Agreement(good, w) && w.HasFront()
    ensures Agreement(good, Deliver(w).(sent := sent))
  {
    if w.FrontIsOwn() {
      DeliverOwn(good, w, sent);
    } else {
      DeliverOther(good, w, sent);
    }
  }

  lemma LineOfNone(queue: seq<Batch>, held: nat, stale: seq<Batch>)
    ensures Line(queue, held, stale, 0) == queue
  {
  }

  /** Reading anew, with any length of what is read. */
  lemma HoldKeeps(good: View -> bool, w: World, held: nat)
    requires Agreement(good, w) && held <= |w.queue|
    ensures Agreement(good, w.(held := held, stale := [], sent := false))
  {
    HoldShape(w, held);
    assert good(w.Base(0));
  }

  lemma SameQueue(w: World, w': World)
    requires w.queue == w'.queue && w.phase == w'.phase
    ensures w.Own() == w'.Own() && w.Older() == w'.Older() && w.Owned() == w'.Owned()
  {
  }

  lemma HoldBase(w: World, held: nat)
    ensures w.(held := held, stale := [], sent := false).Base(0) == w.Base(0)
  {
    SameQueue(w, w.(held := held, stale := [], sent := false));
    LineOfNone(w.Older(), w.held, w.stale);
    LineOfNone(w.Older(), held, []);
  }

  lemma HoldShape(w: World, held: nat)
    requires Shape(w) && held <= |w.queue|
    ensures var w' := w.(held := held, stale := [], sent := false);
            Shape(w') && w'.Own() == w.Own() && w'.Base(0) == w.Base(0)
  {
    SameQueue(w, w.(held := held, stale := [], sent := false));
    HoldBase(w, held);
  }

  lemma SendKeeps(good: View -> bool, site: Site, w: World, accepted: bool, arrived: bool)
    requires Agreement(good, w) && Enabled(site, w, Send(accepted, arrived))
    ensures Agreement(good, Next(site, w, Send(accepted, arrived)))
  {
    if arrived {
      DeliverKeeps(good, w, accepted);
      if !accepted {
        HoldKeeps(good, Deliver(w).(sent := false), 0);
      }
    } else {
      HoldKeeps(good, w, 0);
    }
  }

  lemma AckKeeps(good: View -> bool, site: Site, w: World, ok: bool, removed: bool)
    requires Agreement(good, w) && Enabled(site, w, Ack(ok, removed))
    ensures Agreement(good, Next(site, w, Ack(ok, removed)))
  {
    if removed {
      PopKeeps(good, w);
      if !ok {
        HoldKeeps(good, Pop(w).(sent := false), 0);
      }
    } else {
      HoldKeeps(good, w, 0);
    }
  }

  // ---------------------------------------------------------------- the collection loop

  lemma BeginKeeps(good: View -> bool, site: Site, w: World, a: Attempt)
    requires Agreement(good, w) && Enabled(site, w, Begin(a))
    ensures Agreement(good, Next(site, w, Begin(a)))
  {
    var w' := Next(site, w, Begin(a));
    assert w'.Own() == w.Own() == 0 && w'.Older() == w.Older() == w.queue;
    assert a.chunks[0..0] == [] && w'.Owned() == [];
    forall k: nat | k <= |w.stale| ensures good(w'.Base(k)) {
      assert w'.Base(k) == w.Base(k);
    }
  }

  lemma PushKeeps(good: View -> bool, w: World, chunk: Batch)
    requires Agreement(good, w) && w.phase.Pushing? && w.phase.pushed < |w.phase.attempt.chunks|
    requires chunk == w.phase.attempt.chunks[w.phase.pushed]
    ensures Agreement(good, w.(queue := w.queue + [chunk], phase := w.phase.(pushed := w.phase.pushed + 1)))
  {
    var w' := w.(queue := w.queue + [chunk], phase := w.phase.(pushed := w.phase.pushed + 1));
    SliceSnoc(w.phase.attempt.chunks, w.phase.acked, w.phase.pushed);
    assert w'.Own() == w.Own() + 1 && w'.Older() == w.Older() && w'.Owned() == w.Owned() + [chunk];
    forall k: nat | k <= |w.stale| ensures good(w'.Base(k)) {
      assert w'.Base(k) == w.Base(k);
    }
  }

  /** While pushing, the receiver will end with everything the cycle has pushed so far. */
  lemma SettledWhilePushing(w: World, k: nat)
    requires Shape(w) && DeliveredIsShown(w) && w.phase.Pushing? && k <= |w.stale|
    ensures Drained(w.view, Line(w.queue, w.held, w.stale, k))
         == Drained(w.Base(k), w.phase.attempt.chunks[..w.phase.pushed])
  {
    var p := w.phase;
    assert w.queue == w.Older() + w.Owned();
    if p.delivered == 0 {
      LineAppend(w.Older(), w.held, w.stale, k, w.Owned());
      DrainedConcat(w.view, Line(w.Older(), w.held, w.stale, k), w.Owned());
      assert p.attempt.chunks[0..p.pushed] == p.attempt.chunks[..p.pushed];
    } else {
      LineWithoutStale(w.queue, w.held);
      assert w.queue == p.attempt.chunks[p.acked..p.pushed];
      RestOf(p.base, p.attempt.chunks, p.acked, p.delivered, p.pushed);
    }
  }

  lemma CommitAgrees(good: View -> bool, w: World, next: Memory, good': View -> bool)
    requires Agreement(good, w) && w.phase.Pushing? && w.phase.pushed == |w.phase.attempt.chunks|
    requires forall view | good(view) :: good'(Drained(view, w.phase.attempt.chunks))
    ensures Agreement(good', w.(memory := next, phase := Idle))
  {
    var w', chunks := w.(memory := next, phase := Idle), w.phase.attempt.chunks;
    assert chunks[..w.phase.pushed] == chunks;
    assert w'.Own() == 0 && w'.Older() == w.queue;
    forall k: nat | k <= |w.stale| ensures good'(w'.Base(k)) {
      SettledWhilePushing(w, k);
      assert good(w.Base(k));
    }
  }

  lemma CommitKeeps(site: Site, w: World)
    requires Inv(site, w) && Enabled(site, w, Commit)
    ensures Inv(site, Next(site, w, Commit))
  {
    var a, cache := w.phase.attempt, w.memory.stateCache;
    AttemptCarries(site, w.memory, a);
    CommitAgrees(Showing(site.codec, cache), w, Committed(site, a), Showing(site.codec, a.Final().stateCache));
  }

  // ---------------------------------------------------------------- interruptions

  predicate Interrupts(w: World, step: Step) {
    w.phase.Pushing? && (step.RollBack? || step.Crash?)
  }

  /** How many chunks of a cycle that is taken back the sender still holds and may send or give up. */
  function Reach(w: World, step: Step): nat {
    if step.RollBack? then Least(w.OwnHeld(), w.Own()) else 0
  }

  /**
   What reaches the receiver of an interrupted cycle in the end: after a rollback what has been delivered, and k more
   if the sender goes on with what it holds; after a crash all that was pushed.
   */
  function Escaped(w: World, step: Step, k: nat): seq<Batch>
    requires w.phase.Pushing?
  {
    var p := w.phase;
    var n := if step.Crash? then p.pushed else if p.acked + k < p.delivered then p.delivered else p.acked + k;
    if n <= |p.attempt.chunks| then p.attempt.chunks[..n] else p.attempt.chunks
  }

  /** Whatever the sender still does, what escapes leaves every key that it touches as the cache has it. */
  ghost predicate CleanInterruption(codec: Codec, w: World, step: Step) {
    Interrupts(w, step) ==>
      forall k: nat | k <= Reach(w, step) :: Harmless(codec, Flatten(Escaped(w, step, k)), w.memory.stateCache)
  }

  lemma RestedAgreement(good: View -> bool, w: World)
    requires w.phase.Idle? && w.held == 0 && w.stale == [] && !w.sent
    ensures Agreement(good, w) <==> good(Drained(w.view, w.queue))
  {
    LineOfNone(w.queue, 0, []);
    assert w.Own() == 0 && w.Older() == w.queue;
    assert w.Base(0) == Drained(w.view, w.queue);
  }

  /** What the receiver ends with after a crash. */
  lemma BaseAfterCrash(w: World, restored: Memory)
    requires Shape(w) && DeliveredIsShown(w) && w.phase.Pushing?
    ensures Drained(w.view, w.queue) == Drained(w.Base(0), Escaped(w, Crash(restored), 0))
  {
    LineOfNone(w.queue, w.held, w.stale);
    SettledWhilePushing(w, 0);
  }

  lemma CrashIsCleanIff(codec: Codec, w: World, restored: Memory)
    requires w.phase.Pushing? && restored.stateCache == w.memory.stateCache
    requires Agreement(Showing(codec, w.memory.stateCache), w)
    ensures Agreement(Showing(codec, w.memory.stateCache), EndFlush(w.(memory := restored, phase := Idle)))
            <==> CleanInterruption(codec, w, Crash(restored))
  {
    var good, step := Showing(codec, w.memory.stateCache), Crash(restored);
    RestedAgreement(good, EndFlush(w.(memory := restored, phase := Idle)));
    BaseAfterCrash(w, restored);
    assert good(w.Base(0));
    HarmlessIff(codec, w.Base(0), Flatten(Escaped(w, step, 0)), w.memory.stateCache);
    assert Reach(w, step) == 0 && Interrupts(w, step);
  }

  /** What the receiver ends with after a rollback, if the sender goes on with k chunks of the cycle. */
  lemma BaseAfterRollback(w: World, k: nat)
    requires Shape(w) && DeliveredIsShown(w) && w.phase.Pushing? && k <= Reach(w, RollBack) && w.stale == []
    ensures k <= |RolledBack(w).stale| && RolledBack(w).Base(k) == Drained(w.Base(0), Escaped(w, RollBack, k))
  {
    if w.phase.delivered == 0 {
      UndeliveredTakenBack(w, k);
    } else {
      DeliveredTakenBack(w, k);
    }
  }

  lemma UndeliveredTakenBack(w: World, k: nat)
    requires Shape(w) && w.phase.Pushing? && k <= Reach(w, RollBack) && w.stale == [] && w.phase.delivered == 0
    ensures k <= |RolledBack(w).stale| && RolledBack(w).Base(k) == Drained(w.Base(0), Escaped(w, RollBack, k))
  {
    LineAfterRollback(w, k);
    OwnedSlice(w, k);
    BaseBeforeDelivery(w, k);
    assert w.phase.attempt.chunks[0..k] == w.phase.attempt.chunks[..k];
  }

  lemma DeliveredTakenBack(w: World, k: nat)
    requires Shape(w) && DeliveredIsShown(w) && w.phase.Pushing? && k <= Reach(w, RollBack) && w.stale == []
    requires w.phase.delivered > 0
    ensures k <= |RolledBack(w).stale| && RolledBack(w).Base(k) == Drained(w.Base(0), Escaped(w, RollBack, k))
  {
    LineAfterRollback(w, k);
    OwnedSlice(w, k);
    NothingBefore(w.view, w.Owned()[..k]);
    DeliveredAndMore(w, k);
  }

  lemma NothingBefore(view: View, chunks: seq<Batch>)
    ensures Drained(view, [] + chunks) == Drained(view, chunks)
  {
    assert [] + chunks == chunks;
  }

  lemma DeliveredAndMore(w: World, k: nat)
    requires Shape(w) && DeliveredIsShown(w) && w.phase.Pushing? && w.phase.delivered > 0
    requires w.phase.acked + k <= |w.phase.attempt.chunks|
    ensures Drained(w.view, w.phase.attempt.chunks[w.phase.acked..w.phase.acked + k])
         == Drained(w.phase.base, Escaped(w, RollBack, k))
  {
    RestOf(w.phase.base, w.phase.attempt.chunks, w.phase.acked, w.phase.delivered, w.phase.acked + k);
  }

  lemma BaseBeforeDelivery(w: World, k: nat)
    requires Shape(w) && w.phase.Pushing? && w.phase.delivered == 0 && w.stale == []
    requires k <= |w.phase.attempt.chunks|
    ensures Drained(w.view, w.Older() + w.phase.attempt.chunks[..k])
         == Drained(w.Base(0), w.phase.attempt.chunks[..k])
  {
    LineOfNone(w.Older(), w.held, []);
    DrainedConcat(w.view, w.Older(), w.phase.attempt.chunks[..k]);
  }

  lemma OwnedSlice(w: World, k: nat)
    requires Shape(w) && w.phase.Pushing? && k <= w.Own()
    ensures w.phase.acked + k <= |w.phase.attempt.chunks|
    ensures w.Owned()[..k] == w.phase.attempt.chunks[w.phase.acked..w.phase.acked + k]
  {
  }

  lemma LineAfterRollback(w: World, k: nat)
    requires Shape(w) && w.phase.Pushing? && k <= Reach(w, RollBack) && w.stale == []
    ensures k <= |RolledBack(w).stale|
    ensures RolledBack(w).Base(k) == Drained(w.view, w.Older() + w.Owned()[..k])
  {
    var w', n, older, owned := RolledBack(w), Reach(w, RollBack), w.Older(), w.Owned();
    assert |owned| == w.Own();
    assert w'.phase.Idle? && w'.queue == older && w'.view == w.view;
    assert w'.stale == owned[..n];
    assert w'.Own() == 0;
    assert w'.Older() == older;
    LineTakenBack(older, w.held, owned, n, k);
    assert w'.Base(k) == Drained(w'.view, Line(older, w'.held, w'.stale, k));
  }

  lemma LineTakenBack(older: seq<Batch>, held: nat, owned: seq<Batch>, n: nat, k: nat)
    requires k <= n <= |owned| && (n > 0 ==> held > |older|)
    ensures Line(older, Least(held, |older|), owned[..n], k) == older + owned[..k]
  {
    if k == 0 {
      LineOfNone(older, Least(held, |older|), owned[..n]);
    } else {
      assert owned[..n][..k] == owned[..k];
    }
  }

  /** A rollback leaves the sender with what it held, in the same order. */
  lemma RollbackShape(w: World)
    requires Shape(w) && SentHasArrived(w) && w.phase.Pushing?
    ensures Shape(RolledBack(w)) && SentHasArrived(RolledBack(w))
  {
    var w' := RolledBack(w);
    if w.sent && w.FrontIsOwn() {
      FrontOfOwn(w);
    }
  }

  lemma RollbackIsCleanIff(codec: Codec, w: World)
    requires Agreement(Showing(codec, w.memory.stateCache), w) && w.phase.Pushing?
    ensures Agreement(Showing(codec, w.memory.stateCache), RolledBack(w)) <==> CleanInterruption(codec, w, RollBack)
  {
    var good := Showing(codec, w.memory.stateCache);
    RollbackShape(w);
    if w.stale == [] {
      var w' := RolledBack(w);
      assert good(w.Base(0));
      assert |w'.stale| == Reach(w, RollBack);
      forall k: nat | k <= Reach(w, RollBack)
        ensures good(w'.Base(k)) <==> Harmless(codec, Flatten(Escaped(w, RollBack, k)), w.memory.stateCache)
      {
        BaseAfterRollback(w, k);
        HarmlessIff(codec, w.Base(0), Flatten(Escaped(w, RollBack, k)), w.memory.stateCache);
      }
      assert Interrupts(w, RollBack);
    } else {
      NothingReadAgain(good, w);
      assert Harmless(codec, [], w.memory.stateCache);
    }
  }

  /** While the sender still works off what an earlier rollback took back, it holds nothing of this cycle. */
  lemma NothingReadAgain(good: View -> bool, w: World)
    requires Agreement(good, w) && w.phase.Pushing? && w.stale != []
    ensures Agreement(good, RolledBack(w)) && Reach(w, RollBack) == 0 && Escaped(w, RollBack, 0) == []
  {
    var w' := RolledBack(w);
    RollbackShape(w);
    assert w.phase.delivered == 0;
    assert w.Owned()[..0] == [] && w'.stale == w.stale;
    assert w'.Own() == 0 && w'.Older() == w.Older() && w'.held == w.held;
    forall k: nat | k <= |w.stale| ensures good(w'.Base(k)) {
      assert w'.Base(k) == w.Base(k);
    }
  }

  /**
   A cycle that fails, or that a crash cuts off before its commit, leaves agreement intact, whatever the sender does
   next, exactly when what escapes of it is harmless: a condition on its chunks and the cache alone.
   */
  lemma InterruptionIsCleanIff(site: Site, w: World, step: Step)
    requires Inv(site, w) && Enabled(site, w, step) && Interrupts(w, step)
    ensures Inv(site, Next(site, w, step)) <==> CleanInterruption(site.codec, w, step)
  {
    if step.RollBack? {
      RollbackIsCleanIff(site.codec, w);
    } else {
      CrashIsCleanIff(site.codec, w, step.restored);
    }
  }

  /** In particular if no chunk of the cycle has been delivered or read, or none pushed before a crash. */
  lemma NothingEscapedIsClean(codec: Codec, w: World, step: Step)
    requires Shape(w) && Interrupts(w, step)
    requires if step.RollBack? then w.phase.delivered == 0 && w.OwnHeld() == 0 else w.phase.pushed == 0
    ensures CleanInterruption(codec, w, step)
  {
    assert Escaped(w, step, 0) == [];
  }

  lemma CrashWhileIdle(good: View -> bool, w: World, restored: Memory)
    requires Agreement(good, w) && w.phase.Idle?
    ensures Agreement(good, EndFlush(w.(memory := restored)))
  {
    HoldKeeps(good, w, 0);
    var rested := EndFlush(w);
    RestedAgreement(good, rested);
    RestedAgreement(good, rested.(memory := restored));
  }

  /** A revived record does no harm if what stands behind it in the queue puts right what it does wrong. */
  ghost predicate CleanRevival(codec: Codec, w: World, step: Step) {
    step.Revive? && step.place <= |w.queue| ==>
      Repairs(codec, step.stray.items, Flatten(w.queue[step.place..]), w.memory.stateCache)
  }

  /** Bringing a record back, at the place that its identifier gives it, keeps agreement exactly then. */
  lemma RevivalIsCleanIff(site: Site, w: World, place: nat, stray: Batch)
    requires Inv(site, w) && Enabled(site, w, Revive(place, stray))
    ensures Inv(site, Next(site, w, Revive(place, stray))) <==> CleanRevival(site.codec, w, Revive(place, stray))
  {
    var good, w' := Showing(site.codec, w.memory.stateCache), Next(site, w, Revive(place, stray));
    RestedAgreement(good, w);
    RestedAgreement(good, w');
    assert w.queue == w.queue[..place] + w.queue[place..];
    OneChunkMoreIff(site.codec, w.view, w.queue[..place], stray, w.queue[place..], w.memory.stateCache);
  }

  lemma OneChunkMoreIff(
    codec: Codec, view: View, front: seq<Batch>, stray: Batch, back: seq<Batch>, cache: Cache)
    requires Represents(codec, Drained(view, front + back), cache)
    ensures Represents(codec, Drained(view, front + [stray] + back), cache)
            <==> Repairs(codec, stray.items, Flatten(back), cache)
  {
    var before := Drained(view, front);
    DrainedConcat(view, front, back);
    DrainedConcat(view, front + [stray], back);
    DrainedConcat(view, front, [stray]);
    DrainedOne(before, stray);
    InsertedIff(codec, before, stray.items, Flatten(back), cache);
  }

  /** A record can go undelivered if the records behind it, of committed cycles, make up for it. */
  ghost predicate CleanDiscard(codec: Codec, w: World, step: Step) {
    step.Discard? && step.place < |w.Older()| ==>
      Dispensable(codec, Drained(w.view, w.Older()[..step.place]), w.Older()[step.place].items,
                  Flatten(w.Older()[step.place + 1..]), w.memory.stateCache)
  }

  lemma DiscardShape(w: World, place: nat)
    requires Shape(w) && place < |w.Older()| && (w.held == 0 || place == 0) && w.stale == []
    ensures place < |w.queue| && Shape(Without(w, place)) && !(w.phase.Pushing? && w.phase.delivered > 0)
    ensures Without(w, place).Older() == w.Older()[..place] + w.Older()[place + 1..]
  {
    var w' := Without(w, place);
    assert w.queue == w.Older() + w.Owned();
    WithoutOne(w.Older(), w.Owned(), place);
    assert w'.Own() == w.Own();
    assert w'.Owned() == w.Owned();
  }

  lemma WithoutOne<T>(a: seq<T>, b: seq<T>, n: nat)
    requires n < |a|
    ensures (a + b)[..n] + (a + b)[n + 1..] == (a[..n] + a[n + 1..]) + b
  {
  }

  lemma DiscardAgreementIff(codec: Codec, w: World, place: nat)
    requires Agreement(Showing(codec, w.memory.stateCache), w)
    requires place < |w.Older()| && (w.held == 0 || place == 0) && w.stale == [] && !w.sent
    ensures Agreement(Showing(codec, w.memory.stateCache), Without(w, place))
            <==> CleanDiscard(codec, w, Discard(place))
  {
    var cache, older := w.memory.stateCache, w.Older();
    DiscardShape(w, place);
    UnreadAgreement(Showing(codec, cache), w);
    UnreadAgreement(Showing(codec, cache), Without(w, place));
    AroundOne(older, place);
    OneChunkLessIff(codec, w.view, older[..place], older[place], older[place + 1..], cache);
  }

  lemma AroundOne<T>(s: seq<T>, n: nat)
    requires n < |s|
    ensures s == s[..n] + [s[n]] + s[n + 1..]
  {
  }

  lemma UnreadAgreement(good: View -> bool, w: World)
    requires Shape(w) && w.stale == [] && !w.sent && !(w.phase.Pushing? && w.phase.delivered > 0)
    ensures Agreement(good, w) <==> good(Drained(w.view, w.Older()))
  {
    LineOfNone(w.Older(), w.held, []);
    assert w.Base(0) == Drained(w.view, w.Older());
  }

  /** The loss of a record that expires or is rejected keeps agreement exactly then. */
  lemma DiscardIsCleanIff(site: Site, w: World, place: nat)
    requires Inv(site, w) && Enabled(site, w, Discard(place))
    ensures Inv(site, Next(site, w, Discard(place))) <==> CleanDiscard(site.codec, w, Discard(place))
  {
    DiscardAgreementIff(site.codec, w, place);
  }

  lemma OneChunkLessIff(
    codec: Codec, view: View, front: seq<Batch>, lost: Batch, back: seq<Batch>, cache: Cache)
    requires Represents(codec, Drained(view, front + [lost] + back), cache)
    ensures Represents(codec, Drained(view, front + back), cache)
            <==> Dispensable(codec, Drained(view, front), lost.items, Flatten(back), cache)
  {
    var before := Drained(view, front);
    DrainedConcat(view, front, back);
    DrainedConcat(view, front + [lost], back);
    DrainedConcat(view, front, [lost]);
    DrainedOne(before, lost);
    MissingIff(codec, before, lost.items, Flatten(back), cache);
  }

  /** What a run has to watch: interruptions, revivals and losses. */
  ghost predicate CleanStep(codec: Codec, w: World, step: Step) {
    CleanInterruption(codec, w, step) && CleanRevival(codec, w, step) && CleanDiscard(codec, w, step)
  }

  /** A step that can neither change the cache nor what the receiver ends with. */
  predicate IsPlain(w: World, step: Step) {
    !step.Commit? && !Interrupts(w, step) && !step.Revive? && !step.Discard?
  }

  lemma StepKeepsInv(site: Site, w: World, step: Step)
    requires Inv(site, w) && Enabled(site, w, step) && CleanStep(site.codec, w, step)
    ensures Inv(site, Next(site, w, step))
  {
    if step.Commit? {
      CommitKeeps(site, w);
    } else if Interrupts(w, step) {
      InterruptionIsCleanIff(site, w, step);
    } else if step.Revive? {
      RevivalIsCleanIff(site, w, step.place, step.stray);
    } else if step.Discard? {
      DiscardIsCleanIff(site, w, step.place);
    } else {
      OtherStepKeeps(Showing(site.codec, w.memory.stateCache), site, w, step);
    }
  }

  /** All other steps leave what the receiver can end with as it was. */
  lemma OtherStepKeeps(good: View -> bool, site: Site, w: World, step: Step)
    requires Agreement(good, w) && Enabled(site, w, step) && IsPlain(w, step)
    ensures Agreement(good, Next(site, w, step)) && Next(site, w, step).memory.stateCache == w.memory.stateCache
  {
    OnlyCommitsChangeTheCache(site, w, step);
    match step
    case Begin(a) => BeginKeeps(good, site, w, a);
    case Push => PushStepKeeps(good, site, w);
    case Crash(restored) => IdleCrashKeeps(good, site, w, restored);
    case Peek(limit) => PeekKeeps(good, site, w, limit);
    case Send(accepted, arrived) => SendKeeps(good, site, w, accepted, arrived);
    case Ack(ok, removed) => AckKeeps(good, site, w, ok, removed);
    case _ =>
  }

  lemma OnlyCommitsChangeTheCache(site: Site, w: World, step: Step)
    requires Enabled(site, w, step) && !step.Commit?
    ensures Next(site, w, step).memory.stateCache == w.memory.stateCache
  {
  }

  lemma PushStepKeeps(good: View -> bool, site: Site, w: World)
    requires Agreement(good, w) && Enabled(site, w, Push)
    ensures Agreement(good, Next(site, w, Push))
  {
    PushKeeps(good, w, w.phase.attempt.chunks[w.phase.pushed]);
  }

  lemma IdleCrashKeeps(good: View -> bool, site: Site, w: World, restored: Memory)
    requires Agreement(good, w) && Enabled(site, w, Crash(restored)) && w.phase.Idle?
    ensures Agreement(good, Next(site, w, Crash(restored)))
  {
    CrashWhileIdle(good, w, restored);
  }

  lemma PeekKeeps(good: View -> bool, site: Site, w: World, limit: nat)
    requires Agreement(good, w) && Enabled(site, w, Peek(limit))
    ensures Agreement(good, Next(site, w, Peek(limit)))
  {
    HoldKeeps(good, w, Least(limit, |w.queue|));
  }

  // ---------------------------------------------------------------- whole runs

  /** The world after the steps, as long as each is possible where it happens. */
  ghost function Run(site: Site, w: World, steps: seq<Step>): (r: Option<World>) {
    if steps == [] then Some(w)
    else
      var before := Run(site, w, steps[..|steps| - 1]);
      if before.Some? && Enabled(site, before.value, steps[|steps| - 1])
      then Some(Next(site, before.value, steps[|steps| - 1])) else None
  }

  /** A possible run in which every interruption, every revival and every loss is harmless. */
  ghost predicate Legal(site: Site, w: World, steps: seq<Step>) {
    Run(site, w, steps).Some? &&
    forall i | 0 <= i < |steps| ::
      var before := Run(site, w, steps[..i]);
      before.Some? && CleanStep(site.codec, before.value, steps[i])
  }

  lemma {:induction false} RunKeepsInv(site: Site, w: World, steps: seq<Step>)
    requires Inv(site, w) && Legal(site, w, steps)
    ensures Inv(site, Run(site, w, steps).value)
  {
    if steps != [] {
      var n := |steps| - 1;
      var init := steps[..n];
      LegalPrefix(site, w, steps);
      RunKeepsInv(site, w, init);
      StepKeepsInv(site, Run(site, w, init).value, steps[n]);
    }
  }

  lemma LegalPrefix(site: Site, w: World, steps: seq<Step>)
    requires steps != [] && Legal(site, w, steps)
    ensures Legal(site, w, steps[..|steps| - 1])
    ensures CleanStep(site.codec, Run(site, w, steps[..|steps| - 1]).value, steps[|steps| - 1])
  {
    var init := steps[..|steps| - 1];
    forall i | 0 <= i < |init| ensures init[..i] == steps[..i] && init[i] == steps[i] {
    }
  }

  /**
   End to end: start in agreement. After any interleaving of real cycles, harmless failures, restarts and (repeated or
   late) deliveries, a drained queue between cycles means that the receiver represents the agent's cache.
   */
  lemma DrainedReceiverRepresentsCache(site: Site, w: World, steps: seq<Step>)
    requires Inv(site, w) && Legal(site, w, steps)
    requires Run(site, w, steps).value.phase.Idle? && Run(site, w, steps).value.queue == []
    ensures var end := Run(site, w, steps).value; Represents(site.codec, end.view, end.memory.stateCache)
  {
    RunKeepsInv(site, w, steps);
    var end := Run(site, w, steps).value;
    LineOfNone([], end.held, end.stale);
    DrainedNone(end.view);
    assert Showing(site.codec, end.memory.stateCache)(end.Base(0));
  }

  /** A new agent and an empty receiver are in agreement. */
  lemma FreshAgreement(site: Site)
    ensures Inv(site, World([], map[], Memory(map[], map[], map[], map[], false), Idle, 0, [], false))
  {
    var w := World([], map[], Memory(map[], map[], map[], map[], false), Idle, 0, [], false);
    RestedAgreement(Showing(site.codec, map[]), w);
    DrainedNone(map[]);
  }

  // ---------------------------------------------------------------- one cycle after another

  function PushSteps(n: nat): seq<Step> {
    if n == 0 then [] else PushSteps(n - 1) + [Push]
  }

  lemma RunNext(site: Site, w: World, steps: seq<Step>, step: Step)
    requires Run(site, w, steps).Some? && Enabled(site, Run(site, w, steps).value, step)
    ensures Run(site, w, steps + [step]) == Some(Next(site, Run(site, w, steps).value, step))
  {
    assert (steps + [step])[..|steps|] == steps;
  }

  lemma OneMorePushed(queue: seq<Batch>, chunks: seq<Batch>, m: nat)
    requires m < |chunks|
    ensures queue + chunks[..m + 1] == (queue + chunks[..m]) + [chunks[m]]
  {
    assert chunks[..m + 1] == chunks[..m] + [chunks[m]];
  }

  lemma BeginRun(site: Site, w: World, a: Attempt)
    requires w.phase.Idle? && IsAttempt(site, w.memory, a)
    ensures Run(site, w, [Begin(a)]) == Some(AfterPushes(w, a, 0))
  {
    RunNext(site, w, [], Begin(a));
    assert [] + [Begin(a)] == [Begin(a)] && w.queue + a.chunks[..0] == w.queue;
  }

  lemma {:induction false} RunConcat(site: Site, w: World, a: seq<Step>, b: seq<Step>)
    requires Run(site, w, a).Some?
    ensures Run(site, w, a + b) == Run(site, Run(site, w, a).value, b)
  {
    if b == [] {
      assert a + b == a;
    } else {
      assert (a + b)[..|a + b| - 1] == a + b[..|b| - 1];
      RunConcat(site, w, a, b[..|b| - 1]);
    }
  }

  lemma PushNext(site: Site, w: World, a: Attempt, m: nat)
    requires m < |a.chunks|
    ensures Enabled(site, AfterPushes(w, a, m), Push)
    ensures Next(site, AfterPushes(w, a, m), Push) == AfterPushes(w, a, m + 1)
  {
    OneMorePushed(w.queue, a.chunks, m);
  }

  function AfterPushes(w: World, a: Attempt, n: nat): World
    requires n <= |a.chunks|
  {
    w.(queue := w.queue + a.chunks[..n], phase := Pushing(a, n, 0, 0, w.view))
  }

  lemma {:induction false} PushRun(site: Site, w: World, a: Attempt, n: nat)
    requires n <= |a.chunks|
    ensures Run(site, AfterPushes(w, a, 0), PushSteps(n)) == Some(AfterPushes(w, a, n))
  {
    if n > 0 {
      PushRun(site, w, a, n - 1);
      PushNext(site, w, a, n - 1);
      RunNext(site, AfterPushes(w, a, 0), PushSteps(n - 1), Push);
    }
  }

  lemma RunOfPushes(site: Site, w: World, a: Attempt, n: nat)
    requires w.phase.Idle? && IsAttempt(site, w.memory, a) && n <= |a.chunks|
    ensures Run(site, w, [Begin(a)] + PushSteps(n)) == Some(AfterPushes(w, a, n))
  {
    BeginRun(site, w, a);
    PushRun(site, w, a, n);
    RunConcat(site, w, [Begin(a)], PushSteps(n));
  }

  /** The steps of an undisturbed cycle append its chunks and commit its memory. */
  lemma UninterruptedCycle(site: Site, w: World, a: Attempt)
    requires w.phase.Idle? && IsAttempt(site, w.memory, a)
    ensures a.memories != []
    ensures Run(site, w, [Begin(a)] + PushSteps(|a.chunks|) + [Commit])
         == Some(w.(queue := w.queue + a.chunks, memory := Committed(site, a), phase := Idle))
  {
    RunOfPushes(site, w, a, |a.chunks|);
    assert a.chunks[..|a.chunks|] == a.chunks;
    RunNext(site, w, [Begin(a)] + PushSteps(|a.chunks|), Commit);
  }
}
