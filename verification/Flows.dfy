/** Network flows as the dataset builder reads them; byte and packet counts are exact integers. */
module Flows {
  datatype Row = Row(
    capture: string, number: int, start: real, end: real, src: string, dst: string, proto: string,
    duration: real, sent: int, received: int, packetsOut: int, packetsIn: int, attack: bool, family: string)

  /** The four sums a summary shows. */
  datatype Totals = Totals(sent: int, received: int, packetsOut: int, packetsIn: int)
  {
    function Plus(row: Row, sign: int): Totals {
      Totals(sent + sign * row.sent, received + sign * row.received,
             packetsOut + sign * row.packetsOut, packetsIn + sign * row.packetsIn)
    }
  }

  /** The seven summary cells, with the display rounding applied to the sums. */
  datatype Summary = Summary(
    flows: nat, peers: nat, sent: real, received: real, packetsOut: real, packetsIn: real, zeroReply: int)

  function Sums(rows: seq<Row>): Totals {
    if rows == [] then Totals(0, 0, 0, 0) else Sums(rows[..|rows| - 1]).Plus(rows[|rows| - 1], 1)
  }

  function IsZeroReply(row: Row): int { if row.packetsIn == 0 then 1 else 0 }

  function ZeroReplies(rows: seq<Row>): int {
    if rows == [] then 0 else ZeroReplies(rows[..|rows| - 1]) + IsZeroReply(rows[|rows| - 1])
  }

  /** The distinct addresses of the rows. */
  function Peers(rows: seq<Row>): set<string> {
    (set i | 0 <= i < |rows| :: rows[i].src) + (set i | 0 <= i < |rows| :: rows[i].dst)
  }

  /** The direct recount that state_for makes over a plain list. */
  function Recount(compact: real -> real, rows: seq<Row>): Summary {
    var t := Sums(rows);
    Summary(|rows|, |Peers(rows)|, compact(t.sent as real), compact(t.received as real),
            compact(t.packetsOut as real), compact(t.packetsIn as real), ZeroReplies(rows))
  }

  lemma {:induction false} SumsFromFront(rows: seq<Row>)
    requires rows != []
    ensures Sums(rows[1..]) == Sums(rows).Plus(rows[0], -1)
    ensures ZeroReplies(rows[1..]) == ZeroReplies(rows) - IsZeroReply(rows[0])
  {
    var n := |rows| - 1;
    if n > 0 {
      assert rows[..n][1..] == rows[1..][..n - 1];
      SumsFromFront(rows[..n]);
    } else {
      assert rows[..0] == [] && rows[1..] == [];
    }
  }

  function Hits(row: Row, a: string): nat {
    (if row.src == a then 1 else 0) + if row.dst == a then 1 else 0
  }

  /** How often an address occurs as source or destination. */
  function Occurrences(rows: seq<Row>, a: string): nat {
    if rows == [] then 0 else Occurrences(rows[..|rows| - 1], a) + Hits(rows[|rows| - 1], a)
  }

  lemma {:induction false} OccurrencesFromFront(rows: seq<Row>, a: string)
    requires rows != []
    ensures Occurrences(rows, a) == Hits(rows[0], a) + Occurrences(rows[1..], a)
  {
    var n := |rows| - 1;
    if n > 0 {
      assert rows[..n][1..] == rows[1..][..n - 1];
      OccurrencesFromFront(rows[..n], a);
    } else {
      assert rows[..0] == [] && rows[1..] == [];
    }
  }

  lemma {:induction false} OccurringAddressesArePeers(rows: seq<Row>, a: string)
    ensures Occurrences(rows, a) > 0 <==> a in Peers(rows)
  {
    if rows != [] {
      var n := |rows| - 1;
      OccurringAddressesArePeers(rows[..n], a);
      if a in Peers(rows) && Hits(rows[n], a) == 0 {
        var i :| 0 <= i < |rows| && (rows[i].src == a || rows[i].dst == a);
        assert rows[..n][i] == rows[i];
      }
      if a in Peers(rows[..n]) {
        var i :| 0 <= i < n && (rows[..n][i].src == a || rows[..n][i].dst == a);
        assert rows[i] == rows[..n][i];
      }
    }
  }

  /** A sliding window with running summaries. */
  class FlowWindow {
    const compact: real -> real
    var rows: seq<Row>
    var peers: map<string, int>
    var totals: Totals
    var zeroReply: int

    /** The running values are those of the rows; the counter has no entry at zero. */
    ghost predicate Valid()
      reads this
    {
      CountsRows(peers, rows) && totals == Sums(rows) && zeroReply == ZeroReplies(rows)
    }

    constructor (compact: real -> real)
      ensures Valid() && rows == [] && this.compact == compact
    {
      this.compact := compact;
      rows, peers, totals, zeroReply := [], map[], Totals(0, 0, 0, 0), 0;
    }

    method Bump(a: string, sign: int)
      modifies this`peers
      ensures peers == Bumped(old(peers), a, sign)
    {
      peers := peers[a := (if a in peers then peers[a] else 0) + sign];
      if peers[a] == 0 {
        peers := map x | x in peers && x != a :: peers[x];
      }
    }

    method Update(row: Row, sign: int)
      modifies this`peers, this`totals, this`zeroReply
      ensures peers == Bumped(Bumped(old(peers), row.src, sign), row.dst, sign)
      ensures totals == old(totals).Plus(row, sign) && zeroReply == old(zeroReply) + sign * IsZeroReply(row)
    {
      Bump(row.src, sign);
      Bump(row.dst, sign);
      totals := totals.Plus(row, sign);
      zeroReply := zeroReply + sign * if row.packetsIn == 0 then 1 else 0;
    }

    method Append(row: Row)
      requires Valid()
      modifies this
      ensures Valid() && rows == old(rows) + [row]
    {
      ghost var before := rows;
      rows := rows + [row];
      Update(row, 1);
      assert rows[..|rows| - 1] == before;
      CountsAfterAppend(old(peers), before, row);
    }

    method PopLeft() returns (row: Row)
      requires Valid() && rows != []
      modifies this
      ensures Valid() && rows == old(rows)[1..] && row == old(rows)[0]
    {
      ghost var before := rows;
      row := rows[0];
      rows := rows[1..];
      Update(row, -1);
      SumsFromFront(before);
      CountsAfterPop(old(peers), before);
    }

    /** The O(1) summary is the recount over all rows of the window. */
    method Summarize() returns (s: Summary)
      requires Valid()
      ensures s == Recount(compact, rows)
    {
      s := Summary(|rows|, |peers|, compact(totals.sent as real), compact(totals.received as real),
                   compact(totals.packetsOut as real), compact(totals.packetsIn as real), zeroReply);
      forall a ensures a in peers.Keys <==> a in Peers(rows) {
        OccurringAddressesArePeers(rows, a);
      }
      assert peers.Keys == Peers(rows);
      assert |peers| == |peers.Keys|;
    }
  }

  function Bumped(peers: map<string, int>, a: string, sign: int): map<string, int> {
    var value := (if a in peers then peers[a] else 0) + sign;
    if value == 0 then map x | x in peers && x != a :: peers[x] else peers[a := value]
  }

  /** The counter holds how often each address occurs, and only addresses that do. */
  ghost predicate CountsRows(peers: map<string, int>, rows: seq<Row>) {
    forall a :: (a in peers <==> Occurrences(rows, a) > 0) && (a in peers ==> peers[a] == Occurrences(rows, a))
  }

  function CountAt(peers: map<string, int>, a: string): int {
    if a in peers then peers[a] else 0
  }

  lemma BumpedAt(peers: map<string, int>, a: string, sign: int, x: string)
    requires forall y :: y in peers ==> peers[y] != 0
    ensures CountAt(Bumped(peers, a, sign), x) == CountAt(peers, x) + if x == a then sign else 0
    ensures forall y :: y in Bumped(peers, a, sign) ==> Bumped(peers, a, sign)[y] != 0
  {
  }

  /** Bumping both ends of a row, which may be the same address, counts its hits. */
  lemma BumpedTwice(peers: map<string, int>, row: Row, sign: int, x: string)
    requires forall y :: y in peers ==> peers[y] != 0
    ensures CountAt(Bumped(Bumped(peers, row.src, sign), row.dst, sign), x) == CountAt(peers, x) + sign * Hits(row, x)
    ensures forall y :: y in Bumped(Bumped(peers, row.src, sign), row.dst, sign) ==>
              Bumped(Bumped(peers, row.src, sign), row.dst, sign)[y] != 0
  {
    BumpedAt(peers, row.src, sign, x);
    BumpedAt(Bumped(peers, row.src, sign), row.dst, sign, x);
  }

  lemma CountsAfterAppend(peers: map<string, int>, rows: seq<Row>, row: Row)
    requires CountsRows(peers, rows)
    ensures CountsRows(Bumped(Bumped(peers, row.src, 1), row.dst, 1), rows + [row])
  {
    assert (rows + [row])[..|rows|] == rows;
    forall x
      ensures CountAt(Bumped(Bumped(peers, row.src, 1), row.dst, 1), x) == Occurrences(rows + [row], x)
    {
      BumpedTwice(peers, row, 1, x);
    }
    BumpedTwice(peers, row, 1, "");
  }

  lemma CountsAfterPop(peers: map<string, int>, rows: seq<Row>)
    requires CountsRows(peers, rows) && rows != []
    ensures CountsRows(Bumped(Bumped(peers, rows[0].src, -1), rows[0].dst, -1), rows[1..])
  {
    forall x
      ensures CountAt(Bumped(Bumped(peers, rows[0].src, -1), rows[0].dst, -1), x) == Occurrences(rows[1..], x)
    {
      BumpedTwice(peers, rows[0], -1, x);
      OccurrencesFromFront(rows, x);
    }
    BumpedTwice(peers, rows[0], -1, "");
  }
}
