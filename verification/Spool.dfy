/**
 The durable queue as the agent uses it: a FIFO of records with growing identifiers. Every
 operation can fail, and a failed one may leave any of the states the file operations pass through.
 */
module Spool {
  import opened Wrappers
  import opened Envelope

  /** A queued record; `payload` is None when the stored bytes do not decode as a batch. */
  datatype Record = Record(id: nat, payload: Option<Batch>)

  predicate Ordered(records: seq<Record>, bound: nat) {
    (forall i, j | 0 <= i < j < |records| :: records[i].id < records[j].id) &&
    (forall i | 0 <= i < |records| :: records[i].id < bound)
  }

  function Drop(records: seq<Record>, id: nat): seq<Record> {
    if records == [] then []
    else if records[0].id == id then Drop(records[1..], id)
    else [records[0]] + Drop(records[1..], id)
  }

  /** Where the index puts a record: before the first with a larger identifier. */
  function Insert(records: seq<Record>, record: Record): seq<Record> {
    if records == [] || record.id < records[0].id then [record] + records
    else [records[0]] + Insert(records[1..], record)
  }

  predicate Apart(records: seq<Record>, strays: map<nat, Batch>) {
    forall i | 0 <= i < |records| :: records[i].id !in strays
  }

  function DropAll(records: seq<Record>, ids: seq<nat>): seq<Record> {
    if ids == [] then records else Drop(DropAll(records, ids[..|ids| - 1]), ids[|ids| - 1])
  }

  lemma {:induction false} DropAbsent(records: seq<Record>, id: nat)
    requires forall i | 0 <= i < |records| :: records[i].id != id
    ensures Drop(records, id) == records
  {
    if records != [] {
      DropAbsent(records[1..], id);
    }
  }

  /** Dropping the first record of the tail that starts at `n`. */
  lemma {:induction false} DropAt(records: seq<Record>, n: nat, bound: nat)
    requires Ordered(records, bound) && n < |records|
    ensures Drop(records, records[n].id) == records[..n] + records[n + 1..]
  {
    if n == 0 {
      DropAbsent(records[1..], records[0].id);
    } else {
      TailOrdered(records, bound);
      DropAt(records[1..], n - 1, bound);
      AroundTail(records, n);
    }
  }

  lemma AroundTail<T>(s: seq<T>, n: nat)
    requires 0 < n < |s|
    ensures [s[0]] + (s[1..][..n - 1] + s[1..][n..]) == s[..n] + s[n + 1..]
  {
    assert s[1..][n..] == s[n + 1..];
    assert [s[0]] + s[1..][..n - 1] == s[..n];
  }

  lemma {:induction false} InsertKeepsOrder(records: seq<Record>, record: Record, bound: nat)
    requires Ordered(records, bound) && record.id < bound && forall r | r in records :: r.id != record.id
    ensures Ordered(Insert(records, record), bound)
    ensures forall r :: r in Insert(records, record) <==> r in records || r == record
  {
    if records != [] && record.id > records[0].id {
      var rest := Insert(records[1..], record);
      TailOrdered(records, bound);
      InsertKeepsOrder(records[1..], record, bound);
      forall i | 0 <= i < |rest| ensures records[0].id < rest[i].id {
        assert rest[i] in rest;
        if rest[i] != record {
          LaterIsLarger(records, bound, rest[i]);
        }
      }
      assert records == [records[0]] + records[1..];
    } else if records != [] {
      assert records[0] in records;
    }
  }

  lemma AppendKeepsOrder(records: seq<Record>, record: Record)
    requires Ordered(records, record.id)
    ensures Ordered(records + [record], record.id + 1) && Ordered(records, record.id + 1)
  {
  }

  lemma {:induction false} DropKeepsApart(records: seq<Record>, id: nat, strays: map<nat, Batch>)
    requires Apart(records, strays)
    ensures Apart(Drop(records, id), strays)
  {
    if records != [] {
      DropKeepsApart(records[1..], id, strays);
    }
  }

  lemma {:induction false} InsertKeepsApart(records: seq<Record>, record: Record, strays: map<nat, Batch>)
    requires Apart(records, strays) && record.id !in strays
    ensures Apart(Insert(records, record), strays)
  {
    if records != [] {
      InsertKeepsApart(records[1..], record, strays);
    }
  }

  predicate IsStray(strays: map<nat, Batch>, r: Record) {
    r.id in strays && r.payload == Some(strays[r.id])
  }

  lemma TailOrdered(records: seq<Record>, bound: nat)
    requires records != [] && Ordered(records, bound)
    ensures Ordered(records[1..], bound) && forall r | r in records[1..] :: r in records
  {
  }

  lemma LaterIsLarger(records: seq<Record>, bound: nat, r: Record)
    requires records != [] && Ordered(records, bound) && r in records[1..]
    ensures records[0].id < r.id
  {
    var i :| 0 <= i < |records[1..]| && records[1..][i] == r;
    assert records[i + 1] == r;
  }

  lemma {:induction false} DropKeepsOrder(records: seq<Record>, id: nat, bound: nat)
    requires Ordered(records, bound)
    ensures Ordered(Drop(records, id), bound)
    ensures forall r | r in Drop(records, id) :: r in records
  {
    if records != [] {
      var rest := Drop(records[1..], id);
      TailOrdered(records, bound);
      DropKeepsOrder(records[1..], id, bound);
      forall i | 0 <= i < |rest| ensures records[0].id < rest[i].id {
        assert rest[i] in rest;
        LaterIsLarger(records, bound, rest[i]);
      }
    }
  }

  function IdsOf(records: seq<Record>): seq<nat> {
    seq(|records|, i requires 0 <= i < |records| => records[i].id)
  }

  /** Dropping the identifiers of a tail, up to the n-th, leaves what stands before and behind. */
  lemma {:induction false} DropTail(head: seq<Record>, tail: seq<Record>, n: nat, bound: nat)
    requires Ordered(head + tail, bound) && n <= |tail|
    ensures DropAll(head + tail, IdsOf(tail)[..n]) == head + tail[n..]
  {
    if n == 0 {
      assert IdsOf(tail)[..0] == [];
    } else {
      DropTail(head, tail, n - 1, bound);
      assert IdsOf(tail)[..n][..n - 1] == IdsOf(tail)[..n - 1];
      var rest := head + tail[n - 1..];
      WithoutMiddle(head, tail, n - 1, bound);
      DropAt(rest, |head|, bound);
      assert rest[..|head|] == head && rest[|head| + 1..] == tail[n..];
    }
  }

  lemma WithoutMiddle(head: seq<Record>, tail: seq<Record>, m: nat, bound: nat)
    requires Ordered(head + tail, bound) && m <= |tail|
    ensures Ordered(head + tail[m..], bound)
  {
    var rest := head + tail[m..];
    forall i | 0 <= i < |rest| ensures rest[i] == (head + tail)[if i < |head| then i else i + m] {
    }
  }

  lemma DropHead(record: Record, rest: seq<Record>, bound: nat)
    requires Ordered([record] + rest, bound)
    ensures Drop([record] + rest, record.id) == rest
    ensures forall n | 0 <= n <= 1 ::
              DropAll([record] + rest, [record.id][..n]) == if n == 0 then [record] + rest else rest
    ensures DropAll([record] + rest, [record.id]) == rest
  {
    DropAt([record] + rest, 0, bound);
    assert ([record] + rest)[..0] + ([record] + rest)[1..] == rest;
    assert [record.id][..0] == [] && [record.id][..1] == [record.id];
  }

  /** The records that are too old, and those that are not. */
  function Old(records: seq<Record>, tooOld: set<nat>): seq<Record> {
    if records == [] then []
    else
      var last := records[|records| - 1];
      Old(records[..|records| - 1], tooOld) + if last.id in tooOld then [last] else []
  }

  function Young(records: seq<Record>, tooOld: set<nat>): seq<Record> {
    if records == [] then []
    else
      var last := records[|records| - 1];
      Young(records[..|records| - 1], tooOld) + if last.id in tooOld then [] else [last]
  }

  /** The first n records have been looked at; what was too old of the first `copied` is among the dead letters. */
  ghost predicate IsSwept(
    before: seq<Record>, letters: seq<Record>, tooOld: set<nat>, n: nat, copied: nat,
    records: seq<Record>, dead: seq<Record>)
  {
    n <= |before| && copied <= |before| &&
    records == Young(before[..n], tooOld) + before[n..] && dead == letters + Old(before[..copied], tooOld)
  }

  lemma NothingSwept(before: seq<Record>, letters: seq<Record>, tooOld: set<nat>)
    ensures IsSwept(before, letters, tooOld, 0, 0, before, letters) && Young(before[..0], tooOld) == []
  {
  }

  lemma AllSwept(
    before: seq<Record>, letters: seq<Record>, tooOld: set<nat>, records: seq<Record>, dead: seq<Record>)
    requires IsSwept(before, letters, tooOld, |before|, |before|, records, dead)
    ensures records == Young(before, tooOld) && dead == letters + Old(before, tooOld)
  {
    assert before[..|before|] == before;
  }

  lemma OneMore(records: seq<Record>, n: nat, tooOld: set<nat>)
    requires n < |records|
    ensures Old(records[..n + 1], tooOld)
         == Old(records[..n], tooOld) + if records[n].id in tooOld then [records[n]] else []
    ensures Young(records[..n + 1], tooOld)
         == Young(records[..n], tooOld) + if records[n].id in tooOld then [] else [records[n]]
  {
    assert records[..n + 1][..n] == records[..n];
  }

  lemma AroundNext<T>(young: seq<T>, s: seq<T>, n: nat)
    requires n < |s|
    ensures var all := young + s[n..];
            all[|young|] == s[n] && all == (young + [s[n]]) + s[n + 1..] &&
            all[..|young|] + all[|young| + 1..] == young + s[n + 1..]
  {
  }

  /** One record more: it stays, or it goes. */
  lemma SweptNext(
    before: seq<Record>, letters: seq<Record>, tooOld: set<nat>, n: nat, records: seq<Record>, dead: seq<Record>)
    requires n < |before| && IsSwept(before, letters, tooOld, n, n, records, dead)
    ensures var place := |Young(before[..n], tooOld)|;
            place < |records| && records[place] == before[n] &&
            if before[n].id in tooOld then
              var less, more := records[..place] + records[place + 1..], dead + [records[place]];
              IsSwept(before, letters, tooOld, n, n + 1, records, more) &&
              IsSwept(before, letters, tooOld, n + 1, n + 1, less, more) && place == |Young(before[..n + 1], tooOld)|
            else
              IsSwept(before, letters, tooOld, n + 1, n + 1, records, dead) &&
              place + 1 == |Young(before[..n + 1], tooOld)|
  {
    OneMore(before, n, tooOld);
    AroundNext(Young(before[..n], tooOld), before, n);
  }

  lemma LessKeepsValid(records: seq<Record>, n: nat, bound: nat, strays: map<nat, Batch>)
    requires n < |records| && Ordered(records, bound) && Apart(records, strays)
    ensures Ordered(records[..n] + records[n + 1..], bound) && Apart(records[..n] + records[n + 1..], strays)
  {
    var less := records[..n] + records[n + 1..];
    forall i | 0 <= i < |less| ensures less[i] == records[if i < n then i else i + 1] {
    }
  }

  class Queue {
    var records: seq<Record>
    var dead: seq<Record>
    var nextId: nat
    /** Records whose Push failed after the file had its name: on disk, but not in the index. */
    var strays: map<nat, Batch>

    ghost predicate Valid()
      reads this
    {
      Ordered(records, nextId) && Apart(records, strays) && forall id | id in strays :: id < nextId
    }

    constructor ()
      ensures Valid() && records == [] && dead == [] && strays == map[]
    {
      records, dead, nextId, strays := [], [], 0, map[];
    }

    /** A push that fails may leave its file behind; the queue does not show it until it is opened again. */
    method Push(batch: Batch) returns (id: Option<nat>)
      requires Valid()
      modifies this
      ensures Valid() && dead == old(dead)
      ensures id.None? ==> records == old(records)
      ensures id.None? ==> strays == old(strays) || strays == old(strays)[old(nextId) := batch]
      ensures id.Some? ==> records == old(records) + [Record(id.value, Some(batch))] && strays == old(strays)
      ensures id.Some? ==> id.value == old(nextId) && nextId == old(nextId) + 1
    {
      if * {
        return None;
      }
      if * {
        if * {
          strays, nextId := strays[nextId := batch], nextId + 1;
        }
        return None;
      }
      AppendKeepsOrder(records, Record(nextId, Some(batch)));
      id := Some(nextId);
      records := records + [Record(nextId, Some(batch))];
      nextId := nextId + 1;
    }

    /** Copies a record that is too old to the dead letters, then removes it. */
    method ExpireOne(place: nat) returns (ok: bool)
      requires Valid() && place < |records|
      modifies this`records, this`dead
      ensures Valid()
      ensures dead == old(dead) || dead == old(dead) + [old(records)[place]]
      ensures if ok then records == old(records)[..place] + old(records)[place + 1..] && dead != old(dead)
              else records == old(records)
    {
      if * {
        return false;
      }
      dead := dead + [records[place]];
      if * {
        return false;
      }
      LessKeepsValid(records, place, nextId, strays);
      records := records[..place] + records[place + 1..];
      return true;
    }

    /** The body of the loop over the records. */
    method ExpireNext(ghost before: seq<Record>, ghost letters: seq<Record>, tooOld: set<nat>, ghost n: nat, place: nat)
      returns (ok: bool, place': nat, ghost copied: nat)
      requires Valid() && n < |before| && place == |Young(before[..n], tooOld)|
      requires IsSwept(before, letters, tooOld, n, n, records, dead)
      modifies this`records, this`dead
      ensures Valid() && n <= copied <= n + 1
      ensures IsSwept(before, letters, tooOld, if ok then n + 1 else n, copied, records, dead)
      ensures ok ==> copied == n + 1 && place' == |Young(before[..n + 1], tooOld)|
    {
      SweptNext(before, letters, tooOld, n, records, dead);
      ok, place', copied := true, place, n + 1;
      if records[place].id !in tooOld {
        place' := place + 1;
      } else {
        ok := ExpireOne(place);
        copied := if dead == letters + Old(before[..n], tooOld) then n else n + 1;
      }
    }

    /**
     What Push and Peek do first: records that are too old go to the dead letters, one after the other. A failure stops
     after some of them, perhaps between the copy and the removal.
     */
    method Expire(tooOld: set<nat>) returns (ok: bool, ghost n: nat, ghost copied: nat)
      requires Valid()
      modifies this`records, this`dead
      ensures Valid() && n <= copied <= n + 1
      ensures IsSwept(old(records), old(dead), tooOld, n, copied, records, dead)
      ensures ok ==> records == Young(old(records), tooOld) && dead == old(dead) + Old(old(records), tooOld)
    {
      ghost var before, letters := records, dead;
      var place, todo := 0, |records|;
      n, copied := 0, 0;
      NothingSwept(before, letters, tooOld);
      while todo > 0
        invariant Valid() && 0 <= todo && n + todo == |before| && copied == n && place == |Young(before[..n], tooOld)|
        invariant IsSwept(before, letters, tooOld, n, n, records, dead)
      {
        ok, place, copied := ExpireNext(before, letters, tooOld, n, place);
        if !ok {
          return;
        }
        n, todo := n + 1, todo - 1;
      }
      AllSwept(before, letters, tooOld, records, dead);
      ok := true;
    }

    /** rebuildIndex at the start of a process: everything on disk, in the order of the identifiers. */
    method Reopen()
      requires Valid()
      modifies this`records, this`strays
      ensures Valid() && strays == map[]
      ensures forall r :: r in records <==>
                r in old(records) || (r.id in old(strays) && r.payload == Some(old(strays)[r.id]))
    {
      while strays != map[]
        invariant Valid()
        invariant forall r :: r in records || IsStray(strays, r) <==> r in old(records) || IsStray(old(strays), r)
        decreases |strays|
      {
        var id :| id in strays;
        var record := Record(id, Some(strays[id]));
        forall r | r in records ensures r.id != id {
          var i :| 0 <= i < |records| && records[i] == r;
        }
        InsertKeepsOrder(records, record, nextId);
        InsertKeepsApart(records, record, strays - {id});
        ghost var before := strays;
        records, strays := Insert(records, record), strays - {id};
        assert |strays| < |before|;
      }
    }

    method Peek(limit: nat) returns (r: Option<seq<Record>>)
      requires Valid()
      ensures r.Some? ==> r.value == records[..if limit < |records| then limit else |records|]
    {
      if * {
        return None;
      }
      return Some(records[..if limit < |records| then limit else |records|]);
    }

    /** Removes the named records one after the other; a failure stops after some of them. */
    method Ack(ids: seq<nat>) returns (ok: bool)
      requires Valid()
      modifies this`records
      ensures Valid()
      ensures ok ==> records == DropAll(old(records), ids)
      ensures !ok ==> exists n | 0 <= n <= |ids| :: records == DropAll(old(records), ids[..n])
    {
      for n := 0 to |ids|
        invariant Valid()
        invariant records == DropAll(old(records), ids[..n])
      {
        if * {
          return false;
        }
        DropKeepsOrder(records, ids[n], nextId);
        DropKeepsApart(records, ids[n], strays);
        assert ids[..n + 1][..n] == ids[..n];
        records := Drop(records, ids[n]);
      }
      assert ids[..|ids|] == ids;
      if * {
        return false;
      }
      return true;
    }

    /** Copies a record to the dead letters, then removes it; a failure may come in between. */
    method Reject(record: Record) returns (ok: bool)
      requires Valid()
      modifies this`records, this`dead
      ensures Valid()
      ensures ok ==> records == Drop(old(records), record.id) && dead == old(dead) + [record]
      ensures dead == old(dead) || dead == old(dead) + [record]
      ensures dead == old(dead) ==> !ok && records == old(records)
      ensures records == old(records) || records == Drop(old(records), record.id)
    {
      if * {
        return false;
      }
      dead := dead + [record];
      if * {
        return false;
      }
      DropKeepsOrder(records, record.id, nextId);
      DropKeepsApart(records, record.id, strays);
      records := Drop(records, record.id);
      if * {
        return false;
      }
      return true;
    }
  }
}
