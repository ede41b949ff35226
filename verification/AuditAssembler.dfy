/**
 assembleAuditRecords: a bounded buffer that groups audit records by event id. It is proved against
 an unbounded reference that keeps every record of every open group.
 */
module AuditAssembler {
  import opened Wrappers
  import opened Envelope
  import opened AuditEvents

  const MAX_GROUPS := 32
  const MAX_RECORDS := 64
  const MAX_BYTES := 32 * 1024
  const TIMEOUT_MS := 30_000

  datatype LogItem = Plain(item: Item) | Audit(id: string, eventTime: string, record: AuditRecord)

  datatype Group = Group(
    id: string, eventTime: string, firstReceived: int, records: seq<AuditRecord>, bytes: nat, truncated: bool)

  datatype Emission = Passed(item: Item) | Assembled(group: Group, complete: bool, reason: string)

  // ---------------------------------------------------------------- one group

  function Fresh(id: string, eventTime: string, now: int): Group {
    Group(id, eventTime, now, [], 0, false)
  }

  function Absorb(group: Group, record: AuditRecord): Group {
    if group.bytes + |record.text| > MAX_BYTES || |group.records| >= MAX_RECORDS
    then group.(truncated := true)
    else group.(records := group.records + [record], bytes := group.bytes + |record.text|)
  }

  /** What auditItem emits for a group that the assembler calls complete or not, and why not. */
  function AuditItem(group: Group, complete: bool, reason: string): Emission {
    Assembled(group, complete && !MissesSyscall(group.records) && !MissesArguments(group.records),
              if complete && MissesSyscall(group.records) then "missing_syscall" else reason)
  }

  method Emit(group: Group, complete: bool, reason: string) returns (emission: Emission)
    ensures emission == AuditItem(group, complete, reason)
  {
    var whole, why := Decide(group.records, complete, reason);
    emission := Assembled(group, whole, why);
  }

  // ---------------------------------------------------------------- the reference

  /** An open group with everything that arrived for it. */
  datatype Pending = Pending(eventTime: string, since: int, arrived: seq<AuditRecord>)

  datatype Reason = EndOfEvent | PendingLimit | Timeout

  datatype Closing = Through(item: Item) | Closed(id: string, pending: Pending, reason: Reason)

  type Table = map<string, Pending>

  function AbsorbAll(group: Group, records: seq<AuditRecord>): Group {
    if records == [] then group
    else Absorb(AbsorbAll(group, records[..|records| - 1]), records[|records| - 1])
  }

  /** The bounded group that stands for a pending one. */
  function Collapse(id: string, p: Pending): Group {
    AbsorbAll(Fresh(id, p.eventTime, p.since), p.arrived)
  }

  function CollapseAll(table: Table): map<string, Group> {
    map id | id in table :: Collapse(id, table[id])
  }

  function Render(closing: Closing): Emission {
    match closing
    case Through(item) => Passed(item)
    case Closed(id, p, EndOfEvent) =>
      var group := Collapse(id, p);
      AuditItem(group, !group.truncated, if group.truncated then "record_limit" else "")
    case Closed(id, p, PendingLimit) => AuditItem(Collapse(id, p), false, "pending_limit")
    case Closed(id, p, Timeout) => AuditItem(Collapse(id, p), false, "end_of_event_timeout")
  }

  function RenderAll(closings: seq<Closing>): seq<Emission> {
    seq(|closings|, i requires 0 <= i < |closings| => Render(closings[i]))
  }

  predicate NeedsRoom(table: Table, item: LogItem) {
    item.Audit? && item.id !in table && |table| >= MAX_GROUPS
  }

  /** A group that may be evicted for `item`: one that has waited longest. */
  predicate IsVictim(table: Table, item: LogItem, victim: string) {
    NeedsRoom(table, item) ==>
      victim in table && forall id | id in table :: table[victim].since <= table[id].since
  }

  function Evict(table: Table, item: LogItem, victim: string): (Table, seq<Closing>) {
    if NeedsRoom(table, item) && victim in table
    then (table - {victim}, [Closed(victim, table[victim], PendingLimit)])
    else (table, [])
  }

  function Extend(table: Table, item: LogItem, now: int): Pending
    requires item.Audit?
  {
    var before := if item.id in table then table[item.id] else Pending(item.eventTime, now, []);
    before.(arrived := before.arrived + [item.record])
  }

  function Feed(table: Table, item: LogItem, now: int, victim: string): (Table, seq<Closing>) {
    match item
    case Plain(plain) => (table, [Through(plain)])
    case Audit(id, _, record) =>
      var (room, evicted) := Evict(table, item, victim);
      var extended := Extend(room, item, now);
      if record.recordType == "EOE" then (room - {id}, evicted + [Closed(id, extended, EndOfEvent)])
      else (room[id := extended], evicted)
  }

  function Then(state: (Table, seq<Closing>), item: LogItem, now: int, victim: string): (Table, seq<Closing>) {
    (Feed(state.0, item, now, victim).0, state.1 + Feed(state.0, item, now, victim).1)
  }

  function FeedAll(table: Table, items: seq<LogItem>, now: int, victims: seq<string>): (Table, seq<Closing>)
    requires |victims| == |items|
  {
    if items == [] then (table, [])
    else
      var n := |items| - 1;
      Then(FeedAll(table, items[..n], now, victims[..n]), items[n], now, victims[n])
  }

  ghost predicate ValidVictims(table: Table, items: seq<LogItem>, now: int, victims: seq<string>) {
    |victims| == |items| &&
    forall i | 0 <= i < |items| :: IsVictim(FeedAll(table, items[..i], now, victims[..i]).0, items[i], victims[i])
  }

  function Expired(table: Table, now: int): set<string> {
    set id | id in table && now - table[id].since >= TIMEOUT_MS
  }

  ghost predicate Enumerates(order: seq<string>, keys: set<string>) {
    (forall i, j | 0 <= i < j < |order| :: order[i] != order[j]) && (forall k :: k in order <==> k in keys)
  }

  function Flushed(table: Table, order: seq<string>): seq<Closing>
    requires forall id | id in order :: id in table
  {
    seq(|order|, i requires 0 <= i < |order| => Closed(order[i], table[order[i]], Timeout))
  }

  /** A whole call: feed the items, then close what has waited too long, in map order. */
  ghost predicate IsCall(
    table: Table, items: seq<LogItem>, now: int, victims: seq<string>, order: seq<string>,
    table': Table, closings: seq<Closing>)
  {
    ValidVictims(table, items, now, victims) &&
    var (fed, fedClosings) := FeedAll(table, items, now, victims);
    Enumerates(order, Expired(fed, now)) &&
    table' == fed - Expired(fed, now) && closings == fedClosings + Flushed(fed, order)
  }

  // ---------------------------------------------------------------- the bounded buffer

  predicate NonEmptyIds(items: seq<LogItem>) {
    forall i | 0 <= i < |items| && items[i].Audit? :: items[i].id != ""
  }

  lemma CollapseStep(id: string, p: Pending, record: AuditRecord)
    ensures Collapse(id, p.(arrived := p.arrived + [record])) == Absorb(Collapse(id, p), record)
  {
    assert (p.arrived + [record])[..|p.arrived|] == p.arrived;
  }

  lemma {:induction false} AbsorbKeepsHeader(group: Group, records: seq<AuditRecord>)
    ensures var g := AbsorbAll(group, records);
            g.id == group.id && g.firstReceived == group.firstReceived && g.eventTime == group.eventTime
  {
    if records != [] {
      AbsorbKeepsHeader(group, records[..|records| - 1]);
    }
  }

  lemma RoomIsSmaller(table: Table, item: LogItem, victim: string)
    requires item.Audit? && IsVictim(table, item, victim) && |table| <= MAX_GROUPS
    ensures var room := Evict(table, item, victim).0; item.id in room || |room| < MAX_GROUPS
  {
    if NeedsRoom(table, item) {
      assert (table - {victim}).Keys == table.Keys - {victim};
    }
  }

  class CursorState {
    var audit: map<string, Group>
    ghost var table: Table

    ghost predicate Valid()
      reads this
    {
      audit == CollapseAll(table) && "" !in table && |table| <= MAX_GROUPS
    }

    constructor ()
      ensures Valid() && table == map[]
    {
      audit, table := map[], map[];
    }

    /** The group that has waited longest; the empty string stands for none yet. */
    method Oldest() returns (oldest: string)
      requires Valid() && audit != map[]
      ensures oldest in table && forall id | id in table :: table[oldest].since <= table[id].since
    {
      oldest := "";
      var received := 0;
      var todo := audit.Keys;
      assert audit.Keys == table.Keys;
      while todo != {}
        invariant todo <= audit.Keys
        invariant oldest == "" <==> todo == audit.Keys
        invariant oldest != "" ==> oldest in audit && received == audit[oldest].firstReceived
        invariant oldest != "" ==> forall id | id in audit && id !in todo :: received <= audit[id].firstReceived
        decreases |todo|
      {
        var key :| key in todo;
        if oldest == "" || audit[key].firstReceived < received {
          oldest := key;
          received := audit[key].firstReceived;
        }
        todo := todo - {key};
      }
      forall id | id in table ensures audit[id].firstReceived == table[id].since {
        AbsorbKeepsHeader(Fresh(id, table[id].eventTime, table[id].since), table[id].arrived);
      }
    }

    /** Evicts the oldest group when a new one needs its place. */
    method MakeRoom(item: LogItem) returns (result: seq<Emission>, ghost victim: string)
      requires Valid() && item.Audit?
      modifies this
      ensures Valid() && IsVictim(old(table), item, victim)
      ensures table == Evict(old(table), item, victim).0
      ensures result == RenderAll(Evict(old(table), item, victim).1)
      ensures item.id in table || |table| < MAX_GROUPS
    {
      result, victim := [], "";
      assert audit.Keys == table.Keys;
      assert |audit.Keys| == |table.Keys|;
      if item.id !in audit && |audit| >= MAX_GROUPS {
        var oldest := Oldest();
        var emission := Emit(audit[oldest], false, "pending_limit");
        result := [emission];
        victim := oldest;
        RoomIsSmaller(table, item, victim);
        table := table - {oldest};
        audit := audit - {oldest};
      }
    }

    /** Adds a record to its group, which may be new. */
    method AddRecord(item: LogItem, now: int) returns (group: Group)
      requires Valid() && item.Audit? && item.id != ""
      requires item.id in table || |table| < MAX_GROUPS
      modifies this
      ensures Valid() && table == old(table)[item.id := Extend(old(table), item, now)]
      ensures group == Collapse(item.id, Extend(old(table), item, now))
    {
      var id := item.id;
      assert audit.Keys == table.Keys;
      group := if id in audit then audit[id] else Fresh(id, item.eventTime, now);
      ghost var before := if id in table then table[id] else Pending(item.eventTime, now, []);
      CollapseStep(id, before, item.record);
      group := Absorb(group, item.record);
      audit := audit[id := group];
      table := table[id := before.(arrived := before.arrived + [item.record])];
      assert table.Keys == old(table.Keys) + {id};
    }

    /** Emits and removes a group whose last record has arrived. */
    method CloseGroup(id: string, group: Group) returns (result: seq<Emission>)
      requires Valid() && id in table && group == audit[id]
      modifies this
      ensures Valid() && table == old(table) - {id}
      ensures result == RenderAll([Closed(id, old(table)[id], EndOfEvent)])
    {
      var emission := Emit(group, !group.truncated, if group.truncated then "record_limit" else "");
      result := [emission];
      audit := audit - {id};
      table := table - {id};
      SmallerTable(old(table), {id});
    }

    /** The body of the loop over the items. */
    method AddItem(item: LogItem, now: int) returns (result: seq<Emission>, ghost victim: string)
      requires Valid() && (item.Audit? ==> item.id != "")
      modifies this
      ensures Valid() && IsVictim(old(table), item, victim)
      ensures table == Feed(old(table), item, now, victim).0
      ensures result == RenderAll(Feed(old(table), item, now, victim).1)
    {
      if item.Plain? {
        return [Passed(item.item)], "";
      }
      result, victim := MakeRoom(item);
      ghost var room := table;
      var group := AddRecord(item, now);
      if item.record.recordType == "EOE" {
        var closed := CloseGroup(item.id, group);
        RenderConcat(Evict(old(table), item, victim).1, [Closed(item.id, Extend(room, item, now), EndOfEvent)]);
        result := result + closed;
        assert table == room - {item.id};
      }
    }

    method AddItems(items: seq<LogItem>, now: int) returns (result: seq<Emission>, ghost victims: seq<string>)
      requires Valid() && NonEmptyIds(items)
      modifies this
      ensures Valid() && ValidVictims(old(table), items, now, victims)
      ensures table == FeedAll(old(table), items, now, victims).0
      ensures result == RenderAll(FeedAll(old(table), items, now, victims).1)
    {
      result, victims := [], [];
      for i := 0 to |items|
        invariant Valid() && ValidVictims(old(table), items[..i], now, victims)
        invariant table == FeedAll(old(table), items[..i], now, victims).0
        invariant result == RenderAll(FeedAll(old(table), items[..i], now, victims).1)
      {
        ghost var victim; var more;
        more, victim := AddItem(items[i], now);
        FeedNext(old(table), items, now, victims, i, victim);
        victims := victims + [victim];
        result := result + more;
      }
      assert items[..|items|] == items;
    }

    /** The loop over the expired groups. */
    method FlushExpired(now: int) returns (result: seq<Emission>, ghost order: seq<string>)
      modifies this`audit
      ensures audit == old(audit) - ExpiredGroups(old(audit), now)
      ensures Enumerates(order, ExpiredGroups(old(audit), now)) && result == TimedOut(old(audit), order)
    {
      result, order := [], [];
      var todo := audit.Keys;
      ghost var groups, expired := audit, ExpiredGroups(audit, now);
      while todo != {}
        invariant todo <= groups.Keys && audit == groups - (expired - todo)
        invariant Enumerates(order, expired - todo)
        invariant forall k | k in order :: k in groups
        invariant result == TimedOut(groups, order)
        decreases |todo|
      {
        var id :| id in todo;
        ghost var done := expired - todo;
        todo := todo - {id};
        if now - audit[id].firstReceived >= TIMEOUT_MS {
          assert expired - todo == done + {id};
          FlushOneMore(groups, order, id, done);
          var emission := Emit(audit[id], false, "end_of_event_timeout");
          result := result + [emission];
          order := order + [id];
          OneGroupLess(groups, done, id);
          audit := audit - {id};
        } else {
          assert expired - todo == done;
        }
      }
      assert expired - {} == expired;
    }

    method Assemble(items: seq<LogItem>, now: int)
      returns (
        result: seq<Emission>, ghost victims: seq<string>, ghost order: seq<string>, ghost closings: seq<Closing>)
      requires Valid() && NonEmptyIds(items)
      modifies this
      ensures Valid() && IsCall(old(table), items, now, victims, order, table, closings)
      ensures result == RenderAll(closings)
    {
      result, victims := AddItems(items, now);
      ghost var fed := table;
      var flushed;
      flushed, order := FlushExpired(now);
      ExpiredGroupsCollapse(fed, now, order);
      SmallerTable(fed, Expired(fed, now));
      table := fed - Expired(fed, now);
      closings := CallClosings(old(table), items, now, victims, order, fed, table);
      result := result + flushed;
    }
  }

  lemma OneGroupLess(groups: map<string, Group>, done: set<string>, id: string)
    ensures (groups - done) - {id} == groups - (done + {id})
  {
  }

  function ExpiredGroups(groups: map<string, Group>, now: int): set<string> {
    set id | id in groups && now - groups[id].firstReceived >= TIMEOUT_MS
  }

  function TimedOut(groups: map<string, Group>, order: seq<string>): seq<Emission>
    requires forall k | k in order :: k in groups
  {
    seq(|order|, i requires 0 <= i < |order| => AuditItem(groups[order[i]], false, "end_of_event_timeout"))
  }

  lemma FlushOneMore(groups: map<string, Group>, order: seq<string>, id: string, done: set<string>)
    requires id in groups && (forall k | k in order :: k in groups)
    requires Enumerates(order, done) && id !in done
    ensures Enumerates(order + [id], done + {id}) && forall k | k in order + [id] :: k in groups
    ensures TimedOut(groups, order + [id])
            == TimedOut(groups, order) + [AuditItem(groups[id], false, "end_of_event_timeout")]
  {
  }

  /** Expiry looks the same on the bounded groups as on the reference. */
  lemma ExpiredGroupsCollapse(table: Table, now: int, order: seq<string>)
    requires Enumerates(order, ExpiredGroups(CollapseAll(table), now))
    ensures ExpiredGroups(CollapseAll(table), now) == Expired(table, now)
    ensures CollapseAll(table) - Expired(table, now) == CollapseAll(table - Expired(table, now))
    ensures TimedOut(CollapseAll(table), order) == RenderAll(Flushed(table, order))
  {
    forall id | id in table ensures CollapseAll(table)[id].firstReceived == table[id].since {
      AbsorbKeepsHeader(Fresh(id, table[id].eventTime, table[id].since), table[id].arrived);
    }
  }

  lemma CallClosings(
    table: Table, items: seq<LogItem>, now: int, victims: seq<string>, order: seq<string>, fed: Table, table': Table)
    returns (closings: seq<Closing>)
    requires ValidVictims(table, items, now, victims) && fed == FeedAll(table, items, now, victims).0
    requires Enumerates(order, Expired(fed, now)) && table' == fed - Expired(fed, now)
    ensures IsCall(table, items, now, victims, order, table', closings)
    ensures RenderAll(closings) == RenderAll(FeedAll(table, items, now, victims).1) + RenderAll(Flushed(fed, order))
  {
    closings := FeedAll(table, items, now, victims).1 + Flushed(fed, order);
    RenderConcat(FeedAll(table, items, now, victims).1, Flushed(fed, order));
  }

  lemma SmallerTable(table: Table, gone: set<string>)
    ensures |table - gone| <= |table|
  {
    assert (table - gone).Keys == table.Keys - gone;
    assert table.Keys == (table.Keys - gone) + (table.Keys * gone);
  }

  lemma FeedNext(table: Table, items: seq<LogItem>, now: int, victims: seq<string>, i: nat, victim: string)
    requires i < |items| && ValidVictims(table, items[..i], now, victims)
    requires IsVictim(FeedAll(table, items[..i], now, victims).0, items[i], victim)
    ensures ValidVictims(table, items[..i + 1], now, victims + [victim])
    ensures var (before, closings) := FeedAll(table, items[..i], now, victims);
            var (after, more) := Feed(before, items[i], now, victim);
            FeedAll(table, items[..i + 1], now, victims + [victim]) == (after, closings + more) &&
            RenderAll(closings + more) == RenderAll(closings) + RenderAll(more)
  {
    assert items[..i + 1] == items[..i] + [items[i]];
    VictimsNext(table, items[..i], now, victims, items[i], victim);
    FeedAllSnoc(table, items[..i], now, victims, items[i], victim);
    var (before, closings) := FeedAll(table, items[..i], now, victims);
    RenderConcat(closings, Feed(before, items[i], now, victim).1);
  }

  lemma RenderConcat(a: seq<Closing>, b: seq<Closing>)
    ensures RenderAll(a + b) == RenderAll(a) + RenderAll(b)
  {
  }

  lemma VictimsNext(
    table: Table, items: seq<LogItem>, now: int, victims: seq<string>, item: LogItem, victim: string)
    requires ValidVictims(table, items, now, victims)
    requires IsVictim(FeedAll(table, items, now, victims).0, item, victim)
    ensures ValidVictims(table, items + [item], now, victims + [victim])
  {
    var all, chosen := items + [item], victims + [victim];
    forall j | 0 <= j < |all|
      ensures IsVictim(FeedAll(table, all[..j], now, chosen[..j]).0, all[j], chosen[j])
    {
      assert all[..j] == items[..j] && chosen[..j] == victims[..j];
      if j == |items| {
        assert items[..j] == items && victims[..j] == victims;
      }
    }
  }

  // ---------------------------------------------------------------- bounds and truncation

  function TotalBytes(records: seq<AuditRecord>): nat {
    if records == [] then 0 else TotalBytes(records[..|records| - 1]) + |records[|records| - 1].text|
  }

  /** `kept` is `all` with some records left out, in the same order. */
  ghost predicate IsSubsequence(kept: seq<AuditRecord>, all: seq<AuditRecord>)
    decreases |all|
  {
    if all == [] then kept == []
    else IsSubsequence(kept, all[..|all| - 1]) ||
         (kept != [] && kept[|kept| - 1] == all[|all| - 1] && IsSubsequence(kept[..|kept| - 1], all[..|all| - 1]))
  }

  predicate FitsGroup(records: seq<AuditRecord>) {
    |records| <= MAX_RECORDS && TotalBytes(records) <= MAX_BYTES
  }

  /**
   A bounded group keeps at most 64 records and 32 KiB, in arrival order, and counts its bytes; it is
   marked truncated exactly when what arrived does not fit, and otherwise it is what arrived.
   */
  lemma {:induction false} GroupIsBounded(group: Group, arrived: seq<AuditRecord>)
    requires group.records == [] && group.bytes == 0 && !group.truncated
    ensures var g := AbsorbAll(group, arrived);
            && FitsGroup(g.records) && g.bytes == TotalBytes(g.records)
            && (g.truncated <==> !FitsGroup(arrived)) && (!g.truncated ==> g.records == arrived)
  {
    if arrived != [] {
      var n := |arrived| - 1;
      GroupIsBounded(group, arrived[..n]);
      AbsorbOne(AbsorbAll(group, arrived[..n]), arrived, n);
    }
  }

  lemma AbsorbOne(before: Group, arrived: seq<AuditRecord>, n: nat)
    requires |arrived| == n + 1
    requires FitsGroup(before.records) && before.bytes == TotalBytes(before.records)
    requires (before.truncated <==> !FitsGroup(arrived[..n])) && (!before.truncated ==> before.records == arrived[..n])
    ensures var g := Absorb(before, arrived[n]);
            && FitsGroup(g.records) && g.bytes == TotalBytes(g.records)
            && (g.truncated <==> !FitsGroup(arrived)) && (!g.truncated ==> g.records == arrived)
  {
    assert (before.records + [arrived[n]])[..|before.records|] == before.records;
    assert arrived == arrived[..n] + [arrived[n]];
  }

  lemma {:induction false} GroupKeepsOrder(group: Group, arrived: seq<AuditRecord>)
    requires group.records == []
    ensures IsSubsequence(AbsorbAll(group, arrived).records, arrived)
  {
    if arrived != [] {
      var n := |arrived| - 1;
      var before := AbsorbAll(group, arrived[..n]);
      GroupKeepsOrder(group, arrived[..n]);
      assert (before.records + [arrived[n]])[..|before.records|] == before.records;
    }
  }

  /** The reason shown for a closed group. */
  function ReasonOf(p: Pending, reason: Reason): string {
    match reason
    case PendingLimit => "pending_limit"
    case Timeout => "end_of_event_timeout"
    case EndOfEvent =>
      if !FitsGroup(p.arrived) then "record_limit" else if MissesSyscall(p.arrived) then "missing_syscall" else ""
  }

  /**
   An emission is complete exactly for a finished event that fits, has the system call of its execution, and, if
   that succeeded, a title or all its arguments; it then holds everything that arrived. Missing arguments are the one
   cause of incompleteness for which no reason is shown.
   */
  lemma CompleteMeansWhole(id: string, p: Pending, reason: Reason)
    ensures var emission := Render(Closed(id, p, reason));
            && emission.Assembled? && emission.group.id == id
            && (emission.complete <==>
                  reason == EndOfEvent && FitsGroup(p.arrived) &&
                  !MissesSyscall(p.arrived) && !MissesArguments(p.arrived))
            && FitsGroup(emission.group.records) && IsSubsequence(emission.group.records, p.arrived)
            && (emission.complete ==> emission.group.records == p.arrived)
            && emission.reason == ReasonOf(p, reason)
  {
    GroupIsBounded(Fresh(id, p.eventTime, p.since), p.arrived);
    GroupKeepsOrder(Fresh(id, p.eventTime, p.since), p.arrived);
    AbsorbKeepsHeader(Fresh(id, p.eventTime, p.since), p.arrived);
  }

  const SAMPLE_SYSCALL := AuditRecord("s", "SYSCALL", map["success" := "yes"])
  const SAMPLE_EXECUTION := AuditRecord("e", "EXECVE", map["argc" := "2", "a0" := "ls"])
  const SAMPLE_END := AuditRecord("", "EOE", map[])

  /** A successful execution of two arguments of which one is missing: incomplete, without a reason. */
  lemma MissingArgumentHasNoReason(id: string, since: int)
    ensures var records := [SAMPLE_SYSCALL] + [SAMPLE_EXECUTION] + [SAMPLE_END];
            var emission := Render(Closed(id, Pending("", since, records), EndOfEvent));
            emission.Assembled? && !emission.complete && emission.reason == ""
  {
    var records := [SAMPLE_SYSCALL] + [SAMPLE_EXECUTION] + [SAMPLE_END];
    SampleMissesArguments();
    SampleFits();
    assert records[0].recordType == "SYSCALL";
    CompleteMeansWhole(id, Pending("", since, records), EndOfEvent);
  }

  lemma SampleFits()
    ensures FitsGroup([SAMPLE_SYSCALL] + [SAMPLE_EXECUTION] + [SAMPLE_END])
  {
    var one, two := [SAMPLE_SYSCALL], [SAMPLE_SYSCALL] + [SAMPLE_EXECUTION];
    assert (two + [SAMPLE_END])[..2] == two && two[..1] == one && one[..0] == [];
    assert TotalBytes(one) == 1 && TotalBytes(two) == 2;
  }

  lemma SampleMissesArguments()
    ensures MissesArguments([SAMPLE_SYSCALL] + [SAMPLE_EXECUTION] + [SAMPLE_END])
  {
    var one, two := [SAMPLE_SYSCALL], [SAMPLE_SYSCALL] + [SAMPLE_EXECUTION];
    var records := two + [SAMPLE_END];
    assert records[..2] == two && two[..1] == one && one[..0] == [];
    LastValueNext([], SAMPLE_SYSCALL, "SYSCALL", "success");
    LastValueNext(one, SAMPLE_EXECUTION, "SYSCALL", "success");
    LastValueNext(two, SAMPLE_END, "SYSCALL", "success");
    LastValueNext([], SAMPLE_SYSCALL, "CONFIG_CHANGE", "enabled");
    LastValueNext(one, SAMPLE_EXECUTION, "CONFIG_CHANGE", "enabled");
    LastValueNext(two, SAMPLE_END, "CONFIG_CHANGE", "enabled");
    assert records[1].recordType == "EXECVE";
    SampleArguments(records);
  }

  lemma SampleArguments(records: seq<AuditRecord>)
    requires records == [SAMPLE_SYSCALL] + [SAMPLE_EXECUTION] + [SAMPLE_END]
    ensures ArgumentsMissing(records)
  {
    var one, two := [SAMPLE_SYSCALL], [SAMPLE_SYSCALL] + [SAMPLE_EXECUTION];
    assert records[..2] == two && two[..1] == one && one[..0] == [];
    assert Argument(two, "argc") == Some("2") && Argument(records, "argc") == Some("2");
    assert DigitsValue("2") == 2 && Atoi("2") == Some(2);
    var key := ArgumentKey(1);
    assert Decimal(1) == "1" && key == "a1";
    assert key[1] != "a0"[1] && key[1] != "argc"[1];
    assert key !in SAMPLE_EXECUTION.pairs;
    assert Argument([], key) == None && Argument(one, key) == None && Argument(two, key) == None;
    assert Argument(records, key) == None;
  }

  /** A call ends with at most 32 groups, none of them 30 seconds old. */
  lemma CallBounds(
    table: Table, items: seq<LogItem>, now: int, victims: seq<string>, order: seq<string>,
    table': Table, closings: seq<Closing>)
    requires IsCall(table, items, now, victims, order, table', closings) && |table| <= MAX_GROUPS
    ensures |table'| <= MAX_GROUPS
    ensures forall id | id in table' :: now - table'[id].since < TIMEOUT_MS
  {
    FeedAllBounds(table, items, now, victims);
    SmallerTable(FeedAll(table, items, now, victims).0, Expired(FeedAll(table, items, now, victims).0, now));
  }

  lemma FeedBounds(table: Table, item: LogItem, now: int, victim: string)
    requires IsVictim(table, item, victim) && |table| <= MAX_GROUPS
    ensures |Feed(table, item, now, victim).0| <= MAX_GROUPS
  {
    if item.Audit? {
      RoomIsSmaller(table, item, victim);
      SmallerTable(table, {victim});
      ExtendedSize(Evict(table, item, victim).0, item.id, Extend(Evict(table, item, victim).0, item, now));
    }
  }

  lemma ExtendedSize(room: Table, id: string, p: Pending)
    ensures |room - {id}| <= |room|
    ensures |room[id := p]| == if id in room then |room| else |room| + 1
  {
    SmallerTable(room, {id});
    assert room[id := p].Keys == room.Keys + {id};
  }

  lemma {:induction false} FeedAllBounds(table: Table, items: seq<LogItem>, now: int, victims: seq<string>)
    requires ValidVictims(table, items, now, victims) && |table| <= MAX_GROUPS
    ensures |FeedAll(table, items, now, victims).0| <= MAX_GROUPS
  {
    if items != [] {
      var n := |items| - 1;
      VictimsPrefix(table, items, now, victims, n);
      FeedAllBounds(table, items[..n], now, victims[..n]);
      FeedBounds(FeedAll(table, items[..n], now, victims[..n]).0, items[n], now, victims[n]);
    }
  }

  lemma VictimsPrefix(table: Table, items: seq<LogItem>, now: int, victims: seq<string>, n: nat)
    requires ValidVictims(table, items, now, victims) && n <= |items|
    ensures ValidVictims(table, items[..n], now, victims[..n])
  {
    forall i | 0 <= i < n
      ensures IsVictim(FeedAll(table, items[..n][..i], now, victims[..n][..i]).0, items[..n][i], victims[..n][i])
    {
      assert items[..n][..i] == items[..i] && victims[..n][..i] == victims[..i];
    }
  }

  // ---------------------------------------------------------------- conservation

  function OpenRecords(table: Table, id: string): seq<AuditRecord> {
    if id in table then table[id].arrived else []
  }

  function RecordOf(item: LogItem, id: string): seq<AuditRecord> {
    if item.Audit? && item.id == id then [item.record] else []
  }

  /** The records of one event in the input, in order. */
  function Arrivals(items: seq<LogItem>, id: string): seq<AuditRecord> {
    if items == [] then [] else Arrivals(items[..|items| - 1], id) + RecordOf(items[|items| - 1], id)
  }

  function ClosedIn(closing: Closing, id: string): seq<AuditRecord> {
    if closing.Closed? && closing.id == id then closing.pending.arrived else []
  }

  /** Everything that closed groups of one event had received, in order. */
  function ClosedRecords(closings: seq<Closing>, id: string): seq<AuditRecord> {
    if closings == [] then []
    else ClosedRecords(closings[..|closings| - 1], id) + ClosedIn(closings[|closings| - 1], id)
  }

  lemma {:induction false} ClosedConcat(a: seq<Closing>, b: seq<Closing>, id: string)
    ensures ClosedRecords(a + b, id) == ClosedRecords(a, id) + ClosedRecords(b, id)
  {
    if b == [] {
      assert a + b == a;
    } else {
      assert (a + b)[..|a + b| - 1] == a + b[..|b| - 1];
      ClosedConcat(a, b[..|b| - 1], id);
    }
  }

  /** Two steps of a conservation law make one. */
  lemma Chain<T>(a: seq<T>, b: seq<T>, c: seq<T>, d: seq<T>, e: seq<T>, f: seq<T>, g: seq<T>)
    requires a + b == c + d && d + e == f + g
    ensures a + (b + e) == (c + f) + g
  {
    assert a + (b + e) == (a + b) + e == c + (d + e) == c + (f + g) == (c + f) + g;
  }

  lemma ClosedOne(closing: Closing, id: string)
    ensures ClosedRecords([closing], id) == ClosedIn(closing, id) && ClosedRecords([], id) == []
  {
    assert [closing][..0] == [];
  }

  lemma FeedConserves(table: Table, item: LogItem, now: int, victim: string, id: string)
    ensures var (after, closings) := Feed(table, item, now, victim);
            OpenRecords(table, id) + RecordOf(item, id) == ClosedRecords(closings, id) + OpenRecords(after, id)
  {
    if item.Plain? {
      ClosedOne(Through(item.item), id);
    } else {
      var (room, evicted) := Evict(table, item, victim);
      EvictConserves(table, item, victim, id);
      var last := Closed(item.id, Extend(room, item, now), EndOfEvent);
      ClosedConcat(evicted, [last], id);
      ClosedOne(last, id);
    }
  }

  lemma EvictConserves(table: Table, item: LogItem, victim: string, id: string)
    ensures var (room, evicted) := Evict(table, item, victim);
            OpenRecords(table, id) == ClosedRecords(evicted, id) + OpenRecords(room, id) &&
            (ClosedRecords(evicted, id) == [] || (id !in room && (item.Audit? ==> item.id != id)))
  {
    var (room, evicted) := Evict(table, item, victim);
    if evicted != [] {
      ClosedOne(evicted[0], id);
    }
  }

  lemma {:induction false} FeedAllConserves(
    table: Table, items: seq<LogItem>, now: int, victims: seq<string>, id: string)
    requires |victims| == |items|
    ensures var (after, closings) := FeedAll(table, items, now, victims);
            OpenRecords(table, id) + Arrivals(items, id) == ClosedRecords(closings, id) + OpenRecords(after, id)
  {
    if items != [] {
      var n := |items| - 1;
      FeedAllConserves(table, items[..n], now, victims[..n], id);
      var (before, closings) := FeedAll(table, items[..n], now, victims[..n]);
      FeedConserves(before, items[n], now, victims[n], id);
      var (after, more) := Feed(before, items[n], now, victims[n]);
      ClosedConcat(closings, more, id);
      Chain(OpenRecords(table, id), Arrivals(items[..n], id), ClosedRecords(closings, id), OpenRecords(before, id),
            RecordOf(items[n], id), ClosedRecords(more, id), OpenRecords(after, id));
    }
  }

  lemma {:induction false} FlushedRecords(table: Table, order: seq<string>, id: string)
    requires (forall i, j | 0 <= i < j < |order| :: order[i] != order[j]) && forall k | k in order :: k in table
    ensures ClosedRecords(Flushed(table, order), id) == if id in order then table[id].arrived else []
  {
    if order != [] {
      var n := |order| - 1;
      assert Flushed(table, order)[..n] == Flushed(table, order[..n]);
      assert order == order[..n] + [order[n]];
      FlushedRecords(table, order[..n], id);
    }
  }

  /**
   Conservation: for every event id, the records that had been waiting and those that arrive are, in
   order and without loss or repetition, those of the groups that close and those that still wait.
   */
  lemma CallConserves(
    table: Table, items: seq<LogItem>, now: int, victims: seq<string>, order: seq<string>,
    table': Table, closings: seq<Closing>, id: string)
    requires IsCall(table, items, now, victims, order, table', closings)
    ensures OpenRecords(table, id) + Arrivals(items, id) == ClosedRecords(closings, id) + OpenRecords(table', id)
  {
    var (fed, fedClosings) := FeedAll(table, items, now, victims);
    FeedAllConserves(table, items, now, victims, id);
    ClosedConcat(fedClosings, Flushed(fed, order), id);
    FlushConserves(fed, order, now, id);
    Chain(OpenRecords(table, id), Arrivals(items, id), ClosedRecords(fedClosings, id), OpenRecords(fed, id),
          [], ClosedRecords(Flushed(fed, order), id), OpenRecords(table', id));
    assert Arrivals(items, id) + [] == Arrivals(items, id);
  }

  lemma FlushConserves(fed: Table, order: seq<string>, now: int, id: string)
    requires Enumerates(order, Expired(fed, now))
    ensures OpenRecords(fed, id) + []
         == ClosedRecords(Flushed(fed, order), id) + OpenRecords(fed - Expired(fed, now), id)
  {
    FlushedRecords(fed, order, id);
  }

  datatype Call = Call(
    items: seq<LogItem>, now: int, victims: seq<string>, order: seq<string>, after: Table, closings: seq<Closing>)

  /** A sequence of calls, each starting from the table the one before left. */
  ghost predicate AreCalls(calls: seq<Call>) {
    calls == [] ||
    var c := calls[|calls| - 1];
    AreCalls(calls[..|calls| - 1]) &&
    IsCall(FinalTable(calls[..|calls| - 1]), c.items, c.now, c.victims, c.order, c.after, c.closings)
  }

  function AllArrivals(calls: seq<Call>, id: string): seq<AuditRecord> {
    if calls == [] then [] else AllArrivals(calls[..|calls| - 1], id) + Arrivals(calls[|calls| - 1].items, id)
  }

  function AllClosed(calls: seq<Call>, id: string): seq<AuditRecord> {
    if calls == [] then [] else AllClosed(calls[..|calls| - 1], id) + ClosedRecords(calls[|calls| - 1].closings, id)
  }

  function FinalTable(calls: seq<Call>): Table {
    if calls == [] then map[] else calls[|calls| - 1].after
  }

  /** Over any number of calls, nothing is lost and nothing is counted twice. */
  lemma {:induction false} CallsConserve(calls: seq<Call>, id: string)
    requires AreCalls(calls)
    ensures AllArrivals(calls, id) == AllClosed(calls, id) + OpenRecords(FinalTable(calls), id)
    ensures |FinalTable(calls)| <= MAX_GROUPS
  {
    if calls != [] {
      var n := |calls| - 1;
      CallsConserve(calls[..n], id);
      var c := calls[n];
      var before := FinalTable(calls[..n]);
      CallConserves(before, c.items, c.now, c.victims, c.order, c.after, c.closings, id);
      Chain([], AllArrivals(calls[..n], id), AllClosed(calls[..n], id), OpenRecords(before, id),
            Arrivals(c.items, id), ClosedRecords(c.closings, id), OpenRecords(c.after, id));
      CallBounds(before, c.items, c.now, c.victims, c.order, c.after, c.closings);
    }
  }

  // ---------------------------------------------------------------- other items

  function Plains(items: seq<LogItem>): seq<Item> {
    if items == [] then []
    else Plains(items[..|items| - 1]) + if items[|items| - 1].Plain? then [items[|items| - 1].item] else []
  }

  function ThroughItems(closings: seq<Closing>): seq<Item> {
    if closings == [] then []
    else ThroughItems(closings[..|closings| - 1])
         + if closings[|closings| - 1].Through? then [closings[|closings| - 1].item] else []
  }

  lemma {:induction false} ThroughConcat(a: seq<Closing>, b: seq<Closing>)
    ensures ThroughItems(a + b) == ThroughItems(a) + ThroughItems(b)
  {
    if b == [] {
      assert a + b == a;
    } else {
      assert (a + b)[..|a + b| - 1] == a + b[..|b| - 1];
      ThroughConcat(a, b[..|b| - 1]);
    }
  }

  lemma {:induction false} NothingThrough(closings: seq<Closing>)
    requires forall i | 0 <= i < |closings| :: closings[i].Closed?
    ensures ThroughItems(closings) == []
  {
    if closings != [] {
      NothingThrough(closings[..|closings| - 1]);
    }
  }

  lemma FeedPasses(table: Table, item: LogItem, now: int, victim: string)
    ensures ThroughItems(Feed(table, item, now, victim).1) == Plains([item])
  {
    var more := Feed(table, item, now, victim).1;
    assert [item][..0] == [];
    if item.Plain? {
      assert more[..0] == [];
    } else {
      NothingThrough(more);
    }
  }

  lemma {:induction false} FeedAllPasses(table: Table, items: seq<LogItem>, now: int, victims: seq<string>)
    requires |victims| == |items|
    ensures ThroughItems(FeedAll(table, items, now, victims).1) == Plains(items)
  {
    if items != [] {
      var n := |items| - 1;
      var before := FeedAll(table, items[..n], now, victims[..n]);
      FeedAllPasses(table, items[..n], now, victims[..n]);
      ThroughConcat(before.1, Feed(before.0, items[n], now, victims[n]).1);
      FeedPasses(before.0, items[n], now, victims[n]);
      assert [items[n]][..0] == [];
    }
  }

  /** Items that are no audit records pass through in their order. */
  lemma OtherItemsKeepTheirOrder(
    table: Table, items: seq<LogItem>, now: int, victims: seq<string>, order: seq<string>,
    table': Table, closings: seq<Closing>)
    requires IsCall(table, items, now, victims, order, table', closings)
    ensures ThroughItems(closings) == Plains(items)
  {
    var (fed, fedClosings) := FeedAll(table, items, now, victims);
    FeedAllPasses(table, items, now, victims);
    ThroughConcat(fedClosings, Flushed(fed, order));
    NothingThrough(Flushed(fed, order));
  }

  // ---------------------------------------------------------------- splitting a batch

  lemma FeedAllSnoc(table: Table, items: seq<LogItem>, now: int, victims: seq<string>, item: LogItem, victim: string)
    requires |victims| == |items|
    ensures FeedAll(table, items + [item], now, victims + [victim])
            == Then(FeedAll(table, items, now, victims), item, now, victim)
  {
    assert (items + [item])[..|items|] == items && (victims + [victim])[..|items|] == victims;
  }

  lemma ThenAfter(first: seq<Closing>, state: (Table, seq<Closing>), item: LogItem, now: int, victim: string)
    ensures var next := Then(state, item, now, victim);
            Then((state.0, first + state.1), item, now, victim) == (next.0, first + next.1)
  {
    var more := Feed(state.0, item, now, victim).1;
    assert (first + state.1) + more == first + (state.1 + more);
  }

  lemma {:induction false} FeedAllConcat(
    table: Table, xs: seq<LogItem>, ys: seq<LogItem>, now: int, vx: seq<string>, vy: seq<string>)
    requires |vx| == |xs| && |vy| == |ys|
    ensures var first := FeedAll(table, xs, now, vx);
            var second := FeedAll(first.0, ys, now, vy);
            FeedAll(table, xs + ys, now, vx + vy) == (second.0, first.1 + second.1)
  {
    if ys == [] {
      assert xs + ys == xs && vx + vy == vx;
      var closings := FeedAll(table, xs, now, vx).1;
      assert closings + [] == closings;
    } else {
      var n := |ys| - 1;
      var first := FeedAll(table, xs, now, vx);
      var second := FeedAll(first.0, ys[..n], now, vy[..n]);
      FeedAllConcat(table, xs, ys[..n], now, vx, vy[..n]);
      assert xs + ys == (xs + ys[..n]) + [ys[n]] && vx + vy == (vx + vy[..n]) + [vy[n]];
      FeedAllSnoc(table, xs + ys[..n], now, vx + vy[..n], ys[n], vy[n]);
      ThenAfter(first.1, second, ys[n], now, vy[n]);
    }
  }

  /**
   Feeding a batch in two calls gives the same table and the same emissions as in one, if no group
   has expired at `now` after the first part.
   */
  lemma SplitInvariance(
    table: Table, xs: seq<LogItem>, ys: seq<LogItem>, now: int, vx: seq<string>, vy: seq<string>,
    order: seq<string>, middle: Table, first: seq<Closing>, after: Table, second: seq<Closing>)
    requires IsCall(table, xs, now, vx, [], middle, first)
    requires IsCall(middle, ys, now, vy, order, after, second)
    ensures IsCall(table, xs + ys, now, vx + vy, order, after, first + second)
  {
    NothingExpires(table, xs, now, vx, middle, first);
    SplitVictims(table, xs, ys, now, vx, vy);
    FeedAllConcat(table, xs, ys, now, vx, vy);
    SameEnding(table, xs + ys, vx + vy, middle, ys, vy, now, order, first, after, second);
  }

  /** Nothing is expired after the first part when nothing was expired before it. */
  lemma {:induction false} FeedingExpiresNothing(table: Table, items: seq<LogItem>, now: int, victims: seq<string>)
    requires |victims| == |items| && Expired(table, now) == {}
    ensures Expired(FeedAll(table, items, now, victims).0, now) == {}
  {
    if items != [] {
      var n := |items| - 1;
      FeedingExpiresNothing(table, items[..n], now, victims[..n]);
      var before := FeedAll(table, items[..n], now, victims[..n]).0;
      var after := Feed(before, items[n], now, victims[n]).0;
      forall id | id in after ensures id !in Expired(after, now) {
        assert id !in Expired(before, now);
      }
    }
  }

  /** A call that feeds to the same table ends like the other one. */
  lemma SameEnding(
    table: Table, items: seq<LogItem>, victims: seq<string>, middle: Table, ys: seq<LogItem>, vy: seq<string>,
    now: int, order: seq<string>, first: seq<Closing>, after: Table, second: seq<Closing>)
    requires IsCall(middle, ys, now, vy, order, after, second)
    requires ValidVictims(table, items, now, victims)
    requires FeedAll(table, items, now, victims).0 == FeedAll(middle, ys, now, vy).0
    requires FeedAll(table, items, now, victims).1 == first + FeedAll(middle, ys, now, vy).1
    ensures IsCall(table, items, now, victims, order, after, first + second)
  {
    var fed := FeedAll(middle, ys, now, vy);
    Regrouped(first, fed.1, Flushed(fed.0, order));
  }

  lemma Regrouped<T>(a: seq<T>, b: seq<T>, c: seq<T>)
    ensures a + (b + c) == (a + b) + c
  {
  }

  lemma NothingExpires(
    table: Table, items: seq<LogItem>, now: int, victims: seq<string>, table': Table, closings: seq<Closing>)
    requires IsCall(table, items, now, victims, [], table', closings)
    ensures (table', closings) == FeedAll(table, items, now, victims)
  {
    var fed := FeedAll(table, items, now, victims);
    assert Flushed(fed.0, []) == [] && fed.1 + [] == fed.1;
    assert forall id :: id !in Expired(fed.0, now);
    NothingRemoved(fed.0, Expired(fed.0, now));
  }

  lemma NothingRemoved(table: Table, gone: set<string>)
    requires forall id :: id !in gone
    ensures table - gone == table
  {
  }

  lemma SplitVictims(table: Table, xs: seq<LogItem>, ys: seq<LogItem>, now: int, vx: seq<string>, vy: seq<string>)
    requires ValidVictims(table, xs, now, vx) && ValidVictims(FeedAll(table, xs, now, vx).0, ys, now, vy)
    ensures ValidVictims(table, xs + ys, now, vx + vy)
  {
    forall i | 0 <= i < |xs + ys|
      ensures IsVictim(FeedAll(table, (xs + ys)[..i], now, (vx + vy)[..i]).0, (xs + ys)[i], (vx + vy)[i])
    {
      SplitVictim(table, xs, ys, now, vx, vy, i);
    }
  }

  lemma SplitVictim(
    table: Table, xs: seq<LogItem>, ys: seq<LogItem>, now: int, vx: seq<string>, vy: seq<string>, i: nat)
    requires ValidVictims(table, xs, now, vx) && ValidVictims(FeedAll(table, xs, now, vx).0, ys, now, vy)
    requires i < |xs + ys|
    ensures IsVictim(FeedAll(table, (xs + ys)[..i], now, (vx + vy)[..i]).0, (xs + ys)[i], (vx + vy)[i])
  {
    if i < |xs| {
      assert (xs + ys)[..i] == xs[..i] && (vx + vy)[..i] == vx[..i];
    } else {
      var j := i - |xs|;
      assert (xs + ys)[..i] == xs + ys[..j] && (vx + vy)[..i] == vx + vy[..j];
      FeedAllConcat(table, xs, ys[..j], now, vx, vy[..j]);
    }
  }
}
