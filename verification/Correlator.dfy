/**
 The correlator's bounded, deduplicated event buffer, against the history of everything it has accepted.
 What a snapshot shows beyond the choice of events is a function of those events and the time.
 */
module Correlation {
  import opened Wrappers

  datatype Event = Event(id: string, ts: real, available: real, entity: string, details: string)

  datatype Settings = Settings(window: real, limit: nat)

  /** The buffer without the index of its ids. No event seen yet is `last` None. */
  datatype Buffer = Buffer(events: seq<Event>, last: Option<real>, duplicates: nat, dropped: nat)

  function Ids(events: seq<Event>): set<string> {
    set i | 0 <= i < |events| :: events[i].id
  }

  ghost predicate DistinctIds(events: seq<Event>) {
    forall i, j | 0 <= i < j < |events| :: events[i].id != events[j].id
  }

  /** How many events at the front, counted on from the first k, became available before the cutoff. */
  function Stale(events: seq<Event>, cutoff: real, k: nat): (m: nat)
    requires k <= |events|
    ensures k <= m <= |events|
    decreases |events| - k
  {
    if k < |events| && events[k].available < cutoff then Stale(events, cutoff, k + 1) else k
  }

  predicate InOrder(last: Option<real>, event: Event) {
    last.None? || event.available >= last.value
  }

  /** The events that have not expired when `event` arrives. */
  function Current(cfg: Settings, buffer: Buffer, event: Event): seq<Event> {
    buffer.events[Stale(buffer.events, event.available - cfg.window, 0)..]
  }

  predicate Accepts(cfg: Settings, buffer: Buffer, event: Event) {
    event.id !in Ids(Current(cfg, buffer, event))
  }

  function Excess(n: nat, limit: nat): (excess: nat)
    ensures excess <= n
  {
    if n > limit then n - limit else 0
  }

  /** The buffer after an event that arrives in order. */
  function After(cfg: Settings, buffer: Buffer, event: Event): Buffer {
    var current := Current(cfg, buffer, event);
    if event.id in Ids(current) then Buffer(current, Some(event.available), buffer.duplicates + 1, buffer.dropped)
    else
      var all := current + [event];
      var over := Excess(|all|, cfg.limit);
      Buffer(all[over..], Some(event.available), buffer.duplicates, buffer.dropped + over)
  }

  class Correlator {
    const cfg: Settings
    var events: seq<Event>
    var seen: map<string, real>
    var lastAvailable: Option<real>
    var duplicates: nat
    var dropped: nat

    /** The index names exactly the buffered events. */
    ghost predicate Valid()
      reads this
    {
      DistinctIds(events) && seen.Keys == Ids(events)
    }

    ghost function View(): Buffer
      reads this
    {
      Buffer(events, lastAvailable, duplicates, dropped)
    }

    constructor (cfg: Settings)
      ensures Valid() && this.cfg == cfg && View() == Buffer([], None, 0, 0)
    {
      this.cfg := cfg;
      events, seen, lastAvailable, duplicates, dropped := [], map[], None, 0, 0;
    }

    method PopLeft()
      requires Valid() && events != []
      modifies this`events, this`seen
      ensures Valid() && events == old(events)[1..]
    {
      IdsFromFront(events);
      seen := seen - {events[0].id};
      events := events[1..];
    }

    method Expire(cutoff: real)
      requires Valid()
      modifies this`events, this`seen
      ensures Valid() && events == old(events)[Stale(old(events), cutoff, 0)..]
    {
      ghost var before, k := events, 0;
      while events != [] && events[0].available < cutoff
        invariant Valid() && k <= |before| && events == before[k..]
        invariant Stale(before, cutoff, 0) == Stale(before, cutoff, k)
        decreases |events|
      {
        PopLeft();
        k := k + 1;
      }
    }

    method Trim()
      requires Valid()
      modifies this`events, this`seen, this`dropped
      ensures Valid() && events == old(events)[Excess(|old(events)|, cfg.limit)..]
      ensures dropped == old(dropped) + Excess(|old(events)|, cfg.limit)
    {
      ghost var before, k := events, 0;
      while |events| > cfg.limit
        invariant Valid() && k <= Excess(|before|, cfg.limit) && events == before[k..] && dropped == old(dropped) + k
        decreases |events|
      {
        PopLeft();
        dropped := dropped + 1;
        k := k + 1;
      }
    }

    /** Events must come in the order in which they became available. */
    method Add(event: Event) returns (added: Result<bool, string>)
      requires Valid()
      modifies this
      ensures Valid()
      ensures added.Success? <==> InOrder(old(lastAvailable), event)
      ensures added.Failure? ==> View() == old(View())
      ensures added.Success? ==> View() == After(cfg, old(View()), event)
      ensures added.Success? ==> added.value == Accepts(cfg, old(View()), event)
    {
      if lastAvailable.Some? && event.available < lastAvailable.value {
        return Failure("Replay must be ordered by availability, not event time");
      }
      var accepted := Admit(event);
      return Success(accepted);
    }

    method Admit(event: Event) returns (accepted: bool)
      requires Valid()
      modifies this
      ensures Valid() && View() == After(cfg, old(View()), event)
      ensures accepted == Accepts(cfg, old(View()), event)
    {
      lastAvailable := Some(event.available);
      Expire(event.available - cfg.window);
      accepted := event.id !in seen;
      if accepted {
        Insert(event);
      } else {
        duplicates := duplicates + 1;
      }
    }

    method Insert(event: Event)
      requires Valid() && event.id !in Ids(events)
      modifies this`events, this`seen, this`dropped
      ensures Valid()
      ensures var all := old(events) + [event];
              events == all[Excess(|all|, cfg.limit)..] && dropped == old(dropped) + Excess(|all|, cfg.limit)
    {
      IdsAppended(events, event);
      seen := seen[event.id := event.available];
      events := events + [event];
      Trim();
    }

    method Snapshot<S>(entity: string, now: real, describe: Describer<S>) returns (snapshot: Snapshot<S>)
      ensures snapshot == SnapshotOf(cfg, describe, events, dropped, entity, now)
    {
      var shown, i := [], 0;
      while i < |events|
        invariant i <= |events| && shown == Shown(cfg, events[..i], entity, now)
      {
        var next := i + 1;
        assert events[..next][..i] == events[..i] && events[..next][i] == events[i];
        if IsShown(cfg, events[i], entity, now) {
          shown := shown + [events[i]];
        }
        i := next;
      }
      assert events[..i] == events;
      snapshot := SnapshotOfShown(describe, shown, dropped, now);
    }
  }

  lemma IdsFromFront(events: seq<Event>)
    requires events != [] && DistinctIds(events)
    ensures DistinctIds(events[1..]) && Ids(events[1..]) == Ids(events) - {events[0].id}
  {
    forall x ensures x in Ids(events[1..]) <==> x in Ids(events) - {events[0].id} {
      if x in Ids(events[1..]) {
        var i :| 0 <= i < |events[1..]| && events[1..][i].id == x;
        assert events[i + 1].id == x;
      }
      if x in Ids(events) - {events[0].id} {
        var i :| 0 <= i < |events| && events[i].id == x;
        assert events[1..][i - 1].id == x;
      }
    }
  }

  lemma IdsAppended(events: seq<Event>, event: Event)
    requires DistinctIds(events) && event.id !in Ids(events)
    ensures DistinctIds(events + [event]) && Ids(events + [event]) == Ids(events) + {event.id}
  {
    var all := events + [event];
    forall x ensures x in Ids(all) <==> x in Ids(events) + {event.id} {
      if x in Ids(events) {
        var i :| 0 <= i < |events| && events[i].id == x;
        assert all[i].id == x;
      }
      assert all[|events|].id == event.id;
    }
    forall i, j | 0 <= i < j < |all| ensures all[i].id != all[j].id {
      assert all[i].id in Ids(events);
    }
  }

  // ---------------------------------------------------------------- snapshots

  /** Everything a snapshot derives from the events it shows. */
  type Describer<S> = (seq<Event>, real) -> S

  datatype Snapshot<S> = Snapshot(state: S, bufferDropped: nat)

  predicate IsShown(cfg: Settings, event: Event, entity: string, now: real) {
    event.entity == entity && event.available <= now && now - cfg.window <= event.ts <= now
  }

  function Shown(cfg: Settings, events: seq<Event>, entity: string, now: real): seq<Event> {
    if events == [] then []
    else
      Shown(cfg, events[..|events| - 1], entity, now)
      + if IsShown(cfg, events[|events| - 1], entity, now) then [events[|events| - 1]] else []
  }

  function SnapshotOfShown<S>(describe: Describer<S>, shown: seq<Event>, dropped: nat, now: real): Snapshot<S> {
    Snapshot(describe(shown, now), dropped)
  }

  function SnapshotOf<S>(
    cfg: Settings, describe: Describer<S>, events: seq<Event>, dropped: nat, entity: string, now: real): Snapshot<S>
  {
    SnapshotOfShown(describe, Shown(cfg, events, entity, now), dropped, now)
  }

  // ---------------------------------------------------------------- whole histories

  ghost predicate Rising(events: seq<Event>) {
    forall i, j | 0 <= i < j < |events| :: events[i].available <= events[j].available
  }

  /** The buffer after a stream of events. */
  function Run(cfg: Settings, stream: seq<Event>): Buffer {
    if stream == [] then Buffer([], None, 0, 0)
    else After(cfg, Run(cfg, stream[..|stream| - 1]), stream[|stream| - 1])
  }

  /** The events for which Add answered true. */
  function Accepted(cfg: Settings, stream: seq<Event>): seq<Event> {
    if stream == [] then []
    else
      var init, last := stream[..|stream| - 1], stream[|stream| - 1];
      Accepted(cfg, init) + if Accepts(cfg, Run(cfg, init), last) then [last] else []
  }

  /** An equal id that became available within the window before the event. */
  ghost predicate Repeats(cfg: Settings, history: seq<Event>, event: Event) {
    exists i :: 0 <= i < |history| && history[i].id == event.id && history[i].available >= event.available - cfg.window
  }

  /** What an unbounded correlator keeps: all events but repetitions within the window. */
  ghost function History(cfg: Settings, stream: seq<Event>): seq<Event> {
    if stream == [] then []
    else
      var before := History(cfg, stream[..|stream| - 1]);
      before + if Repeats(cfg, before, stream[|stream| - 1]) then [] else [stream[|stream| - 1]]
  }

  /** The buffer is the end of the history, and what is missing has expired. */
  ghost predicate Remembers(cfg: Settings, buffer: Buffer, history: seq<Event>) {
    var d := |history| - |buffer.events|;
    0 <= d && buffer.events == history[d..] && Rising(history) &&
    (buffer.last.None? ==> history == []) &&
    (buffer.last.Some? ==>
       (forall i | 0 <= i < |history| :: history[i].available <= buffer.last.value) &&
       (forall i | 0 <= i < d :: history[i].available < buffer.last.value - cfg.window))
  }

  lemma {:induction false} StaleEvents(events: seq<Event>, cutoff: real, k: nat)
    requires k <= |events| && forall i | 0 <= i < k :: events[i].available < cutoff
    ensures var m := Stale(events, cutoff, k);
            (forall i | 0 <= i < m :: events[i].available < cutoff) && (m < |events| ==> events[m].available >= cutoff)
    decreases |events| - k
  {
    if k < |events| && events[k].available < cutoff {
      StaleEvents(events, cutoff, k + 1);
    }
  }

  /** When an event arrives, the part of the history in the buffer is exactly what lies within the window. */
  lemma CurrentIsRecent(cfg: Settings, buffer: Buffer, history: seq<Event>, event: Event)
    requires Remembers(cfg, buffer, history) && InOrder(buffer.last, event)
    ensures var current := Current(cfg, buffer, event);
            var d := |history| - |current|;
            0 <= d && current == history[d..] &&
            (forall i | 0 <= i < d :: history[i].available < event.available - cfg.window) &&
            (forall i | d <= i < |history| :: history[i].available >= event.available - cfg.window)
  {
    var cutoff, d := event.available - cfg.window, |history| - |buffer.events|;
    ExpiredStaysExpired(cfg, buffer, history, d, event);
    StaleOfEnd(history, d, cutoff);
    var m := Stale(buffer.events, cutoff, 0);
    StaleThenRecent(history, d + m, cutoff);
    assert history[d..][m..] == history[d + m..];
  }

  lemma ExpiredStaysExpired(cfg: Settings, buffer: Buffer, history: seq<Event>, d: nat, event: Event)
    requires Remembers(cfg, buffer, history) && InOrder(buffer.last, event) && d == |history| - |buffer.events|
    ensures forall i | 0 <= i < d :: history[i].available < event.available - cfg.window
  {
  }

  lemma StaleOfEnd(history: seq<Event>, d: nat, cutoff: real)
    requires d <= |history| && forall i | 0 <= i < d :: history[i].available < cutoff
    ensures var m := Stale(history[d..], cutoff, 0);
            (forall i | 0 <= i < d + m :: history[i].available < cutoff) &&
            (d + m < |history| ==> history[d + m].available >= cutoff)
  {
    var end := history[d..];
    StaleEvents(end, cutoff, 0);
    forall i | d <= i < d + Stale(end, cutoff, 0) ensures history[i].available < cutoff {
      assert history[i] == end[i - d];
    }
  }

  lemma StaleThenRecent(history: seq<Event>, m: nat, cutoff: real)
    requires m <= |history| && Rising(history) && (m < |history| ==> history[m].available >= cutoff)
    ensures forall i | m <= i < |history| :: history[i].available >= cutoff
  {
  }

  /** The bounded buffer recognises exactly the repetitions that the whole history would. */
  lemma AcceptsIffNew(cfg: Settings, buffer: Buffer, history: seq<Event>, event: Event)
    requires Remembers(cfg, buffer, history) && InOrder(buffer.last, event)
    ensures Accepts(cfg, buffer, event) <==> !Repeats(cfg, history, event)
  {
    CurrentIsRecent(cfg, buffer, history, event);
    RecentRepeats(cfg, history, |history| - |Current(cfg, buffer, event)|, event);
  }

  lemma RecentRepeats(cfg: Settings, history: seq<Event>, d: nat, event: Event)
    requires d <= |history|
    requires forall i | 0 <= i < d :: history[i].available < event.available - cfg.window
    requires forall i | d <= i < |history| :: history[i].available >= event.available - cfg.window
    ensures Repeats(cfg, history, event) <==> event.id in Ids(history[d..])
  {
    var current := history[d..];
    if event.id in Ids(current) {
      var i :| 0 <= i < |current| && current[i].id == event.id;
      assert history[d + i] == current[i];
    }
    if Repeats(cfg, history, event) {
      var i :| 0 <= i < |history| && history[i].id == event.id
               && history[i].available >= event.available - cfg.window;
      assert current[i - d] == history[i];
    }
  }

  lemma AfterWithoutDrop(cfg: Settings, buffer: Buffer, event: Event)
    requires After(cfg, buffer, event).dropped == buffer.dropped
    ensures After(cfg, buffer, event).events
            == Current(cfg, buffer, event) + OnlyIf(Accepts(cfg, buffer, event), event)
  {
    var all := Current(cfg, buffer, event) + [event];
    assert all[0..] == all;
  }

  lemma RemembersNext(cfg: Settings, buffer: Buffer, history: seq<Event>, event: Event)
    requires Remembers(cfg, buffer, history) && InOrder(buffer.last, event) && cfg.window >= 0.0
    requires After(cfg, buffer, event).dropped == buffer.dropped
    ensures Remembers(cfg, After(cfg, buffer, event), history + OnlyIf(Accepts(cfg, buffer, event), event))
  {
    CurrentIsRecent(cfg, buffer, history, event);
    AfterWithoutDrop(cfg, buffer, event);
    RemembersAppended(cfg, After(cfg, buffer, event), history, Current(cfg, buffer, event),
                      OnlyIf(Accepts(cfg, buffer, event), event), event.available);
  }

  lemma RemembersAppended(
    cfg: Settings, buffer: Buffer, history: seq<Event>, current: seq<Event>, added: seq<Event>, now: real)
    requires |current| <= |history| && current == history[|history| - |current|..] && cfg.window >= 0.0
    requires buffer.events == current + added && buffer.last == Some(now) && Rising(history) && |added| <= 1
    requires added != [] ==> added[0].available == now
    requires forall i | 0 <= i < |history| :: history[i].available <= now
    requires forall i | 0 <= i < |history| - |current| :: history[i].available < now - cfg.window
    ensures Remembers(cfg, buffer, history + added)
  {
    var d := |history| - |current|;
    assert (history + added)[d..] == history[d..] + added;
  }

  lemma {:induction false} LastSeen(cfg: Settings, stream: seq<Event>)
    ensures Run(cfg, stream).last == if stream == [] then None else Some(stream[|stream| - 1].available)
  {
  }

  /** What one more event does to the buffer, to what is accepted and to the history. */
  lemma LastEvent(cfg: Settings, stream: seq<Event>)
    requires stream != []
    ensures var init, last := stream[..|stream| - 1], stream[|stream| - 1];
            Run(cfg, stream) == After(cfg, Run(cfg, init), last) &&
            Accepted(cfg, stream) == Accepted(cfg, init) + OnlyIf(Accepts(cfg, Run(cfg, init), last), last) &&
            History(cfg, stream) == History(cfg, init) + OnlyIf(!Repeats(cfg, History(cfg, init), last), last)
  {
  }

  function OnlyIf(taken: bool, event: Event): seq<Event> { if taken then [event] else [] }

  lemma DroppedNever(cfg: Settings, buffer: Buffer, event: Event)
    ensures buffer.dropped <= After(cfg, buffer, event).dropped
  {
  }

  /** As long as nothing was dropped for capacity, the buffer remembers the history an unbounded one would have. */
  lemma {:induction false} NothingIsForgotten(cfg: Settings, stream: seq<Event>)
    requires Rising(stream) && cfg.window >= 0.0 && Run(cfg, stream).dropped == 0
    ensures Accepted(cfg, stream) == History(cfg, stream)
    ensures Remembers(cfg, Run(cfg, stream), History(cfg, stream))
  {
    if stream == [] {
      assert Run(cfg, []) == Buffer([], None, 0, 0) && History(cfg, []) == [];
    } else {
      var init, last := stream[..|stream| - 1], stream[|stream| - 1];
      LastEvent(cfg, stream);
      DroppedNever(cfg, Run(cfg, init), last);
      NothingIsForgotten(cfg, init);
      LastSeen(cfg, init);
      AcceptsIffNew(cfg, Run(cfg, init), History(cfg, init), last);
      RemembersNext(cfg, Run(cfg, init), History(cfg, init), last);
    }
  }

  // ---------------------------------------------------------------- snapshots agree

  lemma {:induction false} ShownConcat(cfg: Settings, a: seq<Event>, b: seq<Event>, entity: string, now: real)
    ensures Shown(cfg, a + b, entity, now) == Shown(cfg, a, entity, now) + Shown(cfg, b, entity, now)
  {
    if b == [] {
      assert a + b == a;
    } else {
      assert (a + b)[..|a + b| - 1] == a + b[..|b| - 1];
      ShownConcat(cfg, a, b[..|b| - 1], entity, now);
    }
  }

  lemma {:induction false} ShownNone(cfg: Settings, events: seq<Event>, entity: string, now: real)
    ensures Shown(cfg, events, entity, now) == [] <==>
            forall i | 0 <= i < |events| :: !IsShown(cfg, events[i], entity, now)
  {
    if events != [] {
      var n := |events| - 1;
      ShownNone(cfg, events[..n], entity, now);
      assert forall i | 0 <= i < n :: events[..n][i] == events[i];
      assert events == events[..n] + [events[n]];
    }
  }

  /** The events the buffer has let go of. */
  function Gone(buffer: Buffer, history: seq<Event>): seq<Event>
    requires |buffer.events| <= |history|
  {
    history[..|history| - |buffer.events|]
  }

  /** Snapshots from the buffer and from the whole history agree exactly if no forgotten event would be shown. */
  lemma AgreeIffGoneUnseen(cfg: Settings, buffer: Buffer, history: seq<Event>, entity: string, now: real)
    requires Remembers(cfg, buffer, history)
    ensures Shown(cfg, buffer.events, entity, now) == Shown(cfg, history, entity, now) <==>
            forall i | 0 <= i < |Gone(buffer, history)| :: !IsShown(cfg, Gone(buffer, history)[i], entity, now)
  {
    var gone := Gone(buffer, history);
    assert history == gone + buffer.events;
    ShownConcat(cfg, gone, buffer.events, entity, now);
    ShownNone(cfg, gone, entity, now);
    var a, b := Shown(cfg, gone, entity, now), Shown(cfg, buffer.events, entity, now);
    if a == [] {
      assert a + b == b;
    } else {
      assert |a + b| > |b|;
    }
  }

  /** Agreement from now on, for every entity: exactly if each forgotten event happened before the window. */
  lemma AgreeForeverIff(cfg: Settings, buffer: Buffer, history: seq<Event>, last: real)
    requires Remembers(cfg, buffer, history) && buffer.last == Some(last) && cfg.window >= 0.0
    ensures (forall entity, now | now >= last ::
               Shown(cfg, buffer.events, entity, now) == Shown(cfg, history, entity, now)) <==>
            forall i | 0 <= i < |Gone(buffer, history)| :: Gone(buffer, history)[i].ts < last - cfg.window
  {
    var gone := Gone(buffer, history);
    if forall i | 0 <= i < |gone| :: gone[i].ts < last - cfg.window {
      forall entity, now | now >= last
        ensures Shown(cfg, buffer.events, entity, now) == Shown(cfg, history, entity, now)
      {
        AgreeIffGoneUnseen(cfg, buffer, history, entity, now);
      }
    } else {
      var i :| 0 <= i < |gone| && gone[i].ts >= last - cfg.window;
      var now := if gone[i].ts > last then gone[i].ts else last;
      assert gone[i] == history[i];
      AgreeIffGoneUnseen(cfg, buffer, history, gone[i].entity, now);
      assert IsShown(cfg, gone[i], gone[i].entity, now);
    }
  }

  /**
   The bounded window agrees with the full history: if nothing was dropped and events happen before they
   become available, a snapshot at or after the last arrival shows what an unbounded correlator would show.
   */
  lemma SnapshotIsComplete<S>(
    cfg: Settings, stream: seq<Event>, describe: Describer<S>, entity: string, now: real)
    requires Rising(stream) && cfg.window >= 0.0 && Run(cfg, stream).dropped == 0
    requires forall i | 0 <= i < |stream| :: stream[i].ts <= stream[i].available <= now
    ensures SnapshotOf(cfg, describe, Run(cfg, stream).events, 0, entity, now)
         == SnapshotOf(cfg, describe, History(cfg, stream), 0, entity, now)
  {
    var buffer, history := Run(cfg, stream), History(cfg, stream);
    NothingIsForgotten(cfg, stream);
    LastSeen(cfg, stream);
    HistoryIsFromStream(cfg, stream);
    AgreeIffGoneUnseen(cfg, buffer, history, entity, now);
    var gone := Gone(buffer, history);
    forall i | 0 <= i < |gone| ensures !IsShown(cfg, gone[i], entity, now) {
      assert gone[i] == history[i] && history[i] in stream;
    }
  }

  lemma {:induction false} HistoryIsFromStream(cfg: Settings, stream: seq<Event>)
    ensures forall e | e in History(cfg, stream) :: e in stream
  {
    if stream != [] {
      HistoryIsFromStream(cfg, stream[..|stream| - 1]);
    }
  }

  /** An event whose time lies after its availability can be lost: the next event may push it out too early. */
  lemma LateEventCanBeLost(cfg: Settings, e: Event, f: Event)
    requires cfg.window >= 0.0 && cfg.limit >= 1 && e.ts > e.available
    requires f.id != e.id && f.available == e.ts + cfg.window
    ensures Rising([e, f]) && Run(cfg, [e, f]).dropped == 0
    ensures History(cfg, [e, f]) == [e, f] && Run(cfg, [e, f]).events == [f]
    ensures IsShown(cfg, e, e.entity, f.available)
  {
    assert [e, f][..1] == [e] && [e][..0] == [];
    assert ([] + [e])[0..] == [e];
    assert Run(cfg, [e]) == Buffer([e], Some(e.available), 0, 0);
    assert History(cfg, [e]) == [e];
    assert Stale([e], e.ts, 0) == 1;
    assert Current(cfg, Run(cfg, [e]), f) == [];
    assert ([] + [f])[0..] == [f];
  }

  lemma {:induction false} DroppedGrows(cfg: Settings, stream: seq<Event>, n: nat)
    requires n <= |stream|
    ensures Run(cfg, stream[..n]).dropped <= Run(cfg, stream).dropped
    decreases |stream|
  {
    if n < |stream| {
      assert stream[..|stream| - 1][..n] == stream[..n];
      DroppedGrows(cfg, stream[..|stream| - 1], n);
    } else {
      assert stream[..n] == stream;
    }
  }

  // ---------------------------------------------------------------- replay

  datatype Report<S> = Report(entity: string, at: real, snapshot: Snapshot<S>)

  /** An accepted event is reported unless its entity was less than a step ago. */
  predicate Due(cfg: Settings, buffer: Buffer, latest: map<string, real>, step: real, event: Event) {
    Accepts(cfg, buffer, event) && !(event.entity in latest && event.available - latest[event.entity] < step)
  }

  /** When each entity was last reported. */
  function Latest(cfg: Settings, step: real, stream: seq<Event>): map<string, real> {
    if stream == [] then map[]
    else
      var init, event := stream[..|stream| - 1], stream[|stream| - 1];
      if Due(cfg, Run(cfg, init), Latest(cfg, step, init), step, event)
      then Latest(cfg, step, init)[event.entity := event.available]
      else Latest(cfg, step, init)
  }

  function ReportOf<S>(cfg: Settings, describe: Describer<S>, after: Buffer, event: Event): Report<S> {
    Report(event.entity, event.available,
           SnapshotOf(cfg, describe, after.events, after.dropped, event.entity, event.available))
  }

  function Reports<S>(cfg: Settings, step: real, describe: Describer<S>, stream: seq<Event>): seq<Report<S>> {
    if stream == [] then []
    else
      var init, event := stream[..|stream| - 1], stream[|stream| - 1];
      Reports(cfg, step, describe, init)
      + if Due(cfg, Run(cfg, init), Latest(cfg, step, init), step, event)
        then [ReportOf(cfg, describe, Run(cfg, stream), event)] else []
  }

  /** The stream is sorted by availability before it is replayed. */
  method Replay<S>(cfg: Settings, step: real, describe: Describer<S>, stream: seq<Event>)
    returns (reports: seq<Report<S>>)
    requires Rising(stream)
    ensures reports == Reports(cfg, step, describe, stream)
  {
    var correlator := new Correlator(cfg);
    var latest: map<string, real>, i := map[], 0;
    reports := [];
    assert stream[..0] == [];
    while i < |stream|
      invariant i <= |stream| && fresh(correlator) && correlator.Valid() && correlator.cfg == cfg
      invariant Replayed(cfg, step, describe, stream[..i], correlator.View(), latest, reports)
    {
      latest, reports := Advance(correlator, step, describe, stream, i, latest, reports);
      i := i + 1;
    }
    assert stream[..i] == stream;
  }

  method Advance<S>(
    correlator: Correlator, step: real, describe: Describer<S>, stream: seq<Event>, i: nat, latest: map<string, real>,
    reports: seq<Report<S>>)
    returns (later: map<string, real>, extended: seq<Report<S>>)
    requires correlator.Valid() && Rising(stream) && i < |stream|
    requires Replayed(correlator.cfg, step, describe, stream[..i], correlator.View(), latest, reports)
    modifies correlator
    ensures correlator.Valid()
    ensures Replayed(correlator.cfg, step, describe, stream[..i + 1], correlator.View(), later, extended)
  {
    LastSeen(correlator.cfg, stream[..i]);
    ReplayStep(correlator.cfg, step, describe, stream, i, correlator.View(), latest, reports);
    var more;
    later, more := Handle(correlator, step, describe, stream[i], latest);
    extended := reports + more;
  }

  /** The loop variables after a part of the stream. */
  ghost predicate Replayed<S>(
    cfg: Settings, step: real, describe: Describer<S>, done: seq<Event>, buffer: Buffer, latest: map<string, real>,
    reports: seq<Report<S>>)
  {
    buffer == Run(cfg, done) && latest == Latest(cfg, step, done) && reports == Reports(cfg, step, describe, done)
  }

  method Handle<S>(
    correlator: Correlator, step: real, describe: Describer<S>, event: Event, latest: map<string, real>)
    returns (later: map<string, real>, reports: seq<Report<S>>)
    requires correlator.Valid() && InOrder(correlator.lastAvailable, event)
    modifies correlator
    ensures correlator.Valid() && correlator.View() == After(correlator.cfg, old(correlator.View()), event)
    ensures var due := Due(correlator.cfg, old(correlator.View()), latest, step, event);
            later == (if due then latest[event.entity := event.available] else latest) &&
            reports == if due then [ReportOf(correlator.cfg, describe, correlator.View(), event)] else []
  {
    later, reports := latest, [];
    var added := correlator.Add(event);
    if !added.value || (event.entity in latest && event.available - latest[event.entity] < step) {
      return;
    }
    later := latest[event.entity := event.available];
    var snapshot := correlator.Snapshot(event.entity, event.available, describe);
    reports := [Report(event.entity, event.available, snapshot)];
  }

  lemma ReplayStep<S>(
    cfg: Settings, step: real, describe: Describer<S>, stream: seq<Event>, i: nat, buffer: Buffer,
    latest: map<string, real>, reports: seq<Report<S>>)
    requires i < |stream| && Replayed(cfg, step, describe, stream[..i], buffer, latest, reports)
    ensures var after, due := After(cfg, buffer, stream[i]), Due(cfg, buffer, latest, step, stream[i]);
            Replayed(cfg, step, describe, stream[..i + 1], after,
                     if due then latest[stream[i].entity := stream[i].available] else latest,
                     reports + if due then [ReportOf(cfg, describe, after, stream[i])] else [])
  {
    assert stream[..i + 1][..i] == stream[..i] && stream[..i + 1][i] == stream[i];
  }

  /** What one more event does to the reports. */
  lemma LastReport<S>(cfg: Settings, step: real, describe: Describer<S>, stream: seq<Event>)
    requires stream != []
    ensures var init, event := stream[..|stream| - 1], stream[|stream| - 1];
            var before := Latest(cfg, step, init);
            var due := Due(cfg, Run(cfg, init), before, step, event);
            Latest(cfg, step, stream) == (if due then before[event.entity := event.available] else before) &&
            Reports(cfg, step, describe, stream) == Reports(cfg, step, describe, init)
              + if due then [ReportOf(cfg, describe, Run(cfg, stream), event)] else []
  {
  }

  /** `latest` is the time of the entity's latest report, and no report is later than `now`. */
  ghost predicate Tracks<S>(latest: map<string, real>, reports: seq<Report<S>>, entity: string, now: real) {
    (entity in latest ==> exists r :: r in reports && r.entity == entity && r.at == latest[entity]) &&
    (forall r | r in reports :: r.at <= now) &&
    (forall r | r in reports && r.entity == entity :: entity in latest && r.at <= latest[entity])
  }

  lemma TracksNext<S>(
    latest: map<string, real>, reports: seq<Report<S>>, entity: string, earlier: real, report: Report<S>)
    requires Tracks(latest, reports, entity, earlier) && earlier <= report.at
    ensures Tracks(latest[report.entity := report.at], reports + [report], entity, report.at)
  {
    assert report in reports + [report];
  }

  lemma {:induction false} LatestIsReported<S>(
    cfg: Settings, step: real, describe: Describer<S>, stream: seq<Event>, entity: string, now: real)
    requires Rising(stream) && (stream != [] ==> stream[|stream| - 1].available <= now)
    ensures Tracks(Latest(cfg, step, stream), Reports(cfg, step, describe, stream), entity, now)
  {
    if stream != [] {
      var init, event := stream[..|stream| - 1], stream[|stream| - 1];
      LatestIsReported(cfg, step, describe, init, entity, event.available);
      LastReport(cfg, step, describe, stream);
      TracksNext(Latest(cfg, step, init), Reports(cfg, step, describe, init), entity, event.available,
                 ReportOf(cfg, describe, Run(cfg, stream), event));
    }
  }

  ghost predicate Spaced<S>(reports: seq<Report<S>>, step: real) {
    forall i, j | 0 <= i < j < |reports| && reports[i].entity == reports[j].entity ::
      reports[j].at - reports[i].at >= step
  }

  /** Reports of one entity are at least a step apart ... */
  lemma {:induction false} ReportsAreSpaced<S>(
    cfg: Settings, step: real, describe: Describer<S>, stream: seq<Event>)
    requires Rising(stream)
    ensures Spaced(Reports(cfg, step, describe, stream), step)
  {
    if stream != [] {
      var init, event := stream[..|stream| - 1], stream[|stream| - 1];
      var before := Reports(cfg, step, describe, init);
      ReportsAreSpaced(cfg, step, describe, init);
      LastReport(cfg, step, describe, stream);
      LatestIsReported(cfg, step, describe, init, event.entity, event.available);
      forall i | 0 <= i < |before| && before[i].entity == event.entity
        && Due(cfg, Run(cfg, init), Latest(cfg, step, init), step, event)
        ensures event.available - before[i].at >= step
      {
        assert before[i] in before;
      }
    }
  }

  lemma RisingUpTo(init: seq<Event>, event: Event)
    requires Rising(init + [event])
    ensures Rising(init) && (init != [] ==> init[|init| - 1].available <= event.available)
  {
    var stream := init + [event];
    forall i | 0 <= i < |init| ensures init[i] == stream[i] && init[i].available <= event.available {
      assert stream[|init|] == event;
    }
  }

  /** ... and every accepted event is reported, or follows a report of its entity by less than a step. */
  lemma NoAcceptedEventIsSilent<S>(cfg: Settings, step: real, describe: Describer<S>, init: seq<Event>, event: Event)
    returns (report: Report<S>)
    requires Rising(init + [event]) && Accepts(cfg, Run(cfg, init), event)
    ensures report in Reports(cfg, step, describe, init + [event]) && report.entity == event.entity
    ensures report.at == event.available || event.available - report.at < step
  {
    var stream := init + [event];
    assert stream[..|init|] == init;
    RisingUpTo(init, event);
    LatestIsReported(cfg, step, describe, init, event.entity, event.available);
    LastReport(cfg, step, describe, stream);
    if Due(cfg, Run(cfg, init), Latest(cfg, step, init), step, event) {
      report := ReportOf(cfg, describe, Run(cfg, stream), event);
    } else {
      report :| report in Reports(cfg, step, describe, init) && report.entity == event.entity
                && report.at == Latest(cfg, step, init)[event.entity];
    }
  }

  /** Without a drop, each report shows what an unbounded correlator would show at that point. */
  lemma ReportsAreComplete<S>(cfg: Settings, describe: Describer<S>, stream: seq<Event>, n: nat)
    requires n < |stream| && Rising(stream) && cfg.window >= 0.0 && Run(cfg, stream).dropped == 0
    requires forall i | 0 <= i < |stream| :: stream[i].ts <= stream[i].available
    ensures ReportOf(cfg, describe, Run(cfg, stream[..n + 1]), stream[n]).snapshot
         == SnapshotOf(cfg, describe, History(cfg, stream[..n + 1]), 0, stream[n].entity, stream[n].available)
  {
    DroppedGrows(cfg, stream, n + 1);
    var upTo := stream[..n + 1];
    assert forall i | 0 <= i < |upTo| :: upTo[i] == stream[i];
    SnapshotIsComplete(cfg, upTo, describe, stream[n].entity, stream[n].available);
  }
}
