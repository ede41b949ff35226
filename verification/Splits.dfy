/** How the time blocks of a capture are divided into splits, and what that means for the emitted cases. */
module Splits {
  import opened Wrappers
  import opened Flows
  import opened CausalContext

  // ---------------------------------------------------------------- the source's computation

  /** The flows in the first k blocks. */
  function Cumulative(counts: seq<nat>, k: nat): nat
    requires k <= |counts|
  {
    if k == 0 then 0 else Cumulative(counts, k - 1) + counts[k - 1]
  }

  /** The first position, from `start` on, whose running total reaches the target; else the number of blocks. */
  function SearchSorted(counts: seq<nat>, target: real, start: nat): nat
    requires start <= |counts|
    decreases |counts| - start
  {
    if start < |counts| && Cumulative(counts, start + 1) as real < target then SearchSorted(counts, target, start + 1)
    else start
  }

  function Min(x: int, y: int): int { if x < y then x else y }

  function Max(x: int, y: int): int { if x < y then y else x }

  datatype Bounds = Bounds(validation: int, calibration: int, test: int)

  function Target(counts: seq<nat>, fraction: real): real {
    Cumulative(counts, |counts|) as real * fraction
  }

  /** Where validation, calibration and test begin; counts are those of the sorted distinct blocks. */
  function BoundsOf(counts: seq<nat>): Bounds {
    var n := |counts|;
    var a := Min(n - 3, Max(1, SearchSorted(counts, Target(counts, 0.6), 0) + 1));
    var b := Min(n - 2, Max(a + 1, SearchSorted(counts, Target(counts, 0.75), 0) + 1));
    var c := Min(n - 1, Max(b + 1, SearchSorted(counts, Target(counts, 0.85), 0) + 1));
    Bounds(a, b, c)
  }

  function SplitAt(bounds: Bounds, i: int): Split {
    if i < bounds.validation then Train
    else if i < bounds.calibration then Validation
    else if i < bounds.test then Calibration
    else KnownTest
  }

  function Place(blocks: seq<int>, block: int): (i: nat)
    requires block in blocks
    ensures i < |blocks| && blocks[i] == block
  {
    if blocks[0] == block then 0 else 1 + Place(blocks[1..], block)
  }

  function CountsOf(blocks: seq<int>, counts: map<int, nat>): (c: seq<nat>)
    requires forall b | b in blocks :: b in counts
    ensures |c| == |blocks|
  {
    if blocks == [] then []
    else
      var first := blocks[0];
      assert first in blocks && first in counts;
      [counts[first]] + CountsOf(blocks[1..], counts)
  }

  /** split_blocks on blocks that are sorted and distinct already, as the query returns them. */
  function SplitBlocks(blocks: seq<int>, counts: map<int, nat>): Result<map<int, Split>, string>
    requires forall b | b in blocks :: b in counts
  {
    if |blocks| < 8 then Failure("At least eight independent time blocks required")
    else Success(map b | b in blocks :: SplitAt(BoundsOf(CountsOf(blocks, counts)), Place(blocks, b)))
  }

  /** The blocks that hold no flow of the held-out family. */
  function KnownBlocks(blocks: seq<int>, unknown: set<int>): (known: seq<int>)
    ensures forall b :: b in known <==> b in blocks && b !in unknown
  {
    if blocks == [] then []
    else if blocks[0] in unknown then KnownBlocks(blocks[1..], unknown)
    else [blocks[0]] + KnownBlocks(blocks[1..], unknown)
  }

  /** The splits of one capture; `main` says whether this is the source that models are fitted on. */
  function AssignCapture(main: bool, blocks: seq<int>, counts: map<int, nat>, unknown: set<int>)
    : Result<map<int, Split>, string>
    requires forall b | b in blocks :: b in counts
  {
    var known := KnownBlocks(blocks, unknown);
    var mapping :=
      if !main then Success(map b | b in blocks :: ExternalTest)
      else if known == [] then Success(map[])
      else SplitBlocks(known, counts);
    if mapping.Failure? then mapping
    else Success(mapping.value + map b | b in blocks && b in unknown :: UnseenTest)
  }

  // ---------------------------------------------------------------- where the bounds fall

  /** The first k blocks hold at least the fraction of all flows. */
  predicate Reaches(counts: seq<nat>, k: nat, fraction: real)
    requires k <= |counts|
  {
    Cumulative(counts, k) as real >= Target(counts, fraction)
  }

  /** k is the least number of blocks, from lo on, that reaches the fraction, or hi if none below hi does. */
  ghost predicate IsLeast(counts: seq<nat>, lo: int, hi: int, fraction: real, k: int) {
    0 <= lo <= k <= hi <= |counts| && (k == hi || Reaches(counts, k, fraction)) &&
    forall j: nat | lo <= j < k :: !Reaches(counts, j, fraction)
  }

  lemma {:induction false} CumulativeGrows(counts: seq<nat>, j: nat, k: nat)
    requires j <= k <= |counts|
    ensures Cumulative(counts, j) <= Cumulative(counts, k)
  {
    if j < k {
      CumulativeGrows(counts, j, k - 1);
    }
  }

  lemma {:induction false} SearchFindsFirst(counts: seq<nat>, target: real, start: nat)
    requires start <= |counts|
    ensures var i := SearchSorted(counts, target, start);
            start <= i <= |counts| && (i < |counts| ==> Cumulative(counts, i + 1) as real >= target) &&
            forall k | start < k <= i :: Cumulative(counts, k) as real < target
    decreases |counts| - start
  {
    if start < |counts| && Cumulative(counts, start + 1) as real < target {
      SearchFindsFirst(counts, target, start + 1);
    }
  }

  lemma LeastFrom(counts: seq<nat>, lo: int, hi: int, fraction: real)
    requires 1 <= lo <= hi < |counts|
    ensures IsLeast(counts, lo, hi, fraction, Min(hi, Max(lo, SearchSorted(counts, Target(counts, fraction), 0) + 1)))
  {
    var target := Target(counts, fraction);
    var i := SearchSorted(counts, target, 0);
    var k := Min(hi, Max(lo, i + 1));
    SearchFindsFirst(counts, target, 0);
    forall j: nat | lo <= j < k ensures !Reaches(counts, j, fraction) {
      assert 0 < j <= i;
    }
    if k < hi {
      CumulativeGrows(counts, i + 1, k);
    }
  }

  /**
   The bounds fall where the running share first reaches 60, 75 and 85 percent, pushed apart so that
   every split gets at least one block.
   */
  lemma BoundsAreLeast(counts: seq<nat>)
    requires |counts| >= 8
    ensures var b, n := BoundsOf(counts), |counts|;
            IsLeast(counts, 1, n - 3, 0.6, b.validation) &&
            IsLeast(counts, b.validation + 1, n - 2, 0.75, b.calibration) &&
            IsLeast(counts, b.calibration + 1, n - 1, 0.85, b.test)
  {
    var b, n := BoundsOf(counts), |counts|;
    LeastFrom(counts, 1, n - 3, 0.6);
    LeastFrom(counts, b.validation + 1, n - 2, 0.75);
    LeastFrom(counts, b.calibration + 1, n - 1, 0.85);
  }

  // ---------------------------------------------------------------- the assignment of a capture

  ghost predicate Ascending(blocks: seq<int>) {
    forall i, j | 0 <= i < j < |blocks| :: blocks[i] < blocks[j]
  }

  lemma {:induction false} KnownAscending(blocks: seq<int>, unknown: set<int>)
    requires Ascending(blocks)
    ensures Ascending(KnownBlocks(blocks, unknown))
  {
    if blocks != [] {
      var rest := KnownBlocks(blocks[1..], unknown);
      KnownAscending(blocks[1..], unknown);
      forall j | 0 <= j < |rest| ensures blocks[0] < rest[j] {
        assert rest[j] in blocks[1..];
      }
    }
  }

  predicate WithinSource(split: Split) {
    split == Train || split == Validation || split == Calibration || split == KnownTest
  }

  function Rank(split: Split): int {
    if split == Train then 0 else if split == Validation then 1 else if split == Calibration then 2 else 3
  }

  /** Later blocks never get an earlier split. */
  ghost predicate Chronological(splits: map<int, Split>) {
    forall a, b | a in splits && b in splits && a < b && WithinSource(splits[a]) && WithinSource(splits[b]) ::
      Rank(splits[a]) <= Rank(splits[b])
  }

  lemma PlacesAscend(blocks: seq<int>, a: int, b: int)
    requires Ascending(blocks) && a in blocks && b in blocks && a < b
    ensures Place(blocks, a) < Place(blocks, b)
  {
    if Place(blocks, b) < Place(blocks, a) {
      assert blocks[Place(blocks, b)] < blocks[Place(blocks, a)];
    }
  }

  /** The splits of split_blocks: whole blocks in time order, ... */
  lemma SplitBlocksInOrder(blocks: seq<int>, counts: map<int, nat>)
    requires Ascending(blocks) && |blocks| >= 8 && forall b | b in blocks :: b in counts
    ensures var splits := SplitBlocks(blocks, counts).value;
            (forall b :: b in splits <==> b in blocks) && Chronological(splits) &&
            (forall b | b in splits :: WithinSource(splits[b]))
  {
    var splits := SplitBlocks(blocks, counts).value;
    BoundsAreLeast(CountsOf(blocks, counts));
    forall a, b | a in splits && b in splits && a < b ensures Rank(splits[a]) <= Rank(splits[b]) {
      PlacesAscend(blocks, a, b);
    }
  }

  /** ... none of them empty. */
  lemma NoSplitIsEmpty(blocks: seq<int>, counts: map<int, nat>, split: Split) returns (block: int)
    requires Ascending(blocks) && |blocks| >= 8 && (forall b | b in blocks :: b in counts) && WithinSource(split)
    ensures block in blocks && SplitBlocks(blocks, counts).value[block] == split
  {
    var bounds := BoundsOf(CountsOf(blocks, counts));
    BoundsAreLeast(CountsOf(blocks, counts));
    var i :=
      if split == Train then 0 else if split == Validation then bounds.validation
      else if split == Calibration then bounds.calibration else bounds.test;
    PlaceOf(blocks, i);
    block := blocks[i];
  }

  lemma PlaceOf(blocks: seq<int>, i: nat)
    requires Ascending(blocks) && i < |blocks|
    ensures Place(blocks, blocks[i]) == i
  {
  }

  /** The assignment fails only with one to seven known blocks in the main source. */
  lemma AssignmentFailsIff(main: bool, blocks: seq<int>, counts: map<int, nat>, unknown: set<int>)
    requires Ascending(blocks) && forall b | b in blocks :: b in counts
    ensures AssignCapture(main, blocks, counts, unknown).Failure?
            <==> main && 0 < |KnownBlocks(blocks, unknown)| < 8
  {
  }

  /**
   Every block of a capture gets exactly one split: unseen test if it holds a flow of the held-out family, else
   external test in another source, else its place in time.
   */
  lemma AssignmentIsTotal(main: bool, blocks: seq<int>, counts: map<int, nat>, unknown: set<int>, b: int)
    requires Ascending(blocks) && forall b | b in blocks :: b in counts
    requires AssignCapture(main, blocks, counts, unknown).Success?
    ensures var splits := AssignCapture(main, blocks, counts, unknown).value;
            (b in splits <==> b in blocks) &&
            (b in blocks ==>
               if b in unknown then splits[b] == UnseenTest
               else if main then WithinSource(splits[b])
               else splits[b] == ExternalTest)
  {
    var known := KnownBlocks(blocks, unknown);
    KnownAscending(blocks, unknown);
    if main && known != [] {
      SplitBlocksInOrder(known, counts);
    }
  }

  lemma AssignmentIsChronological(main: bool, blocks: seq<int>, counts: map<int, nat>, unknown: set<int>)
    requires Ascending(blocks) && forall b | b in blocks :: b in counts
    requires AssignCapture(main, blocks, counts, unknown).Success?
    ensures Chronological(AssignCapture(main, blocks, counts, unknown).value)
  {
    var known, splits := KnownBlocks(blocks, unknown), AssignCapture(main, blocks, counts, unknown).value;
    KnownAscending(blocks, unknown);
    if main && known != [] {
      SplitBlocksInOrder(known, counts);
      forall a | a in splits && WithinSource(splits[a])
        ensures a in known && splits[a] == SplitBlocks(known, counts).value[a]
      {
        OnlyKnownAreFitted(blocks, counts, unknown, a);
      }
    }
  }

  lemma OnlyKnownAreFitted(blocks: seq<int>, counts: map<int, nat>, unknown: set<int>, a: int)
    requires forall b | b in blocks :: b in counts
    requires |KnownBlocks(blocks, unknown)| >= 8 && a in AssignCapture(true, blocks, counts, unknown).value
    requires WithinSource(AssignCapture(true, blocks, counts, unknown).value[a])
    ensures a in KnownBlocks(blocks, unknown)
    ensures AssignCapture(true, blocks, counts, unknown).value[a]
         == SplitBlocks(KnownBlocks(blocks, unknown), counts).value[a]
  {
  }

  // ---------------------------------------------------------------- cases in time

  ghost function SplitsOf(cfg: Settings, capture: string): map<int, Split> {
    map key | key in cfg.assign && key.capture == capture :: key.block := cfg.assign[key]
  }

  /** What the queries return for one capture. */
  datatype CaptureBlocks = CaptureBlocks(blocks: seq<int>, counts: map<int, nat>, unknown: set<int>)
  {
    ghost predicate Valid() { Ascending(blocks) && forall b | b in blocks :: b in counts }

    function Assigned(main: bool): Result<map<int, Split>, string>
      requires forall b | b in blocks :: b in counts
    {
      AssignCapture(main, blocks, counts, unknown)
    }
  }

  function Keyed(splits: map<string, map<int, Split>>): map<BlockKey, Split> {
    map c, b | c in splits && b in splits[c] :: BlockKey(c, b) := splits[c][b]
  }

  /** The settings have the assignment that prepare computes, capture by capture. */
  ghost predicate Prepared(cfg: Settings, main: bool, captures: map<string, CaptureBlocks>) {
    (forall c | c in captures :: captures[c].Valid() && captures[c].Assigned(main).Success?) &&
    cfg.assign == Keyed(map c | c in captures :: captures[c].Assigned(main).value)
  }

  lemma KeyedAt(splits: map<string, map<int, Split>>, c: string, b: int)
    ensures BlockKey(c, b) in Keyed(splits) <==> c in splits && b in splits[c]
    ensures c in splits && b in splits[c] ==> Keyed(splits)[BlockKey(c, b)] == splits[c][b]
  {
  }

  lemma PreparedSplits(cfg: Settings, main: bool, captures: map<string, CaptureBlocks>, capture: string)
    requires Prepared(cfg, main, captures) && capture in captures
    ensures SplitsOf(cfg, capture) == captures[capture].Assigned(main).value
  {
    SplitsOfKeyed(cfg, map c | c in captures :: captures[c].Assigned(main).value, capture);
  }

  lemma SplitsOfKeyed(cfg: Settings, splits: map<string, map<int, Split>>, capture: string)
    requires cfg.assign == Keyed(splits) && capture in splits
    ensures SplitsOf(cfg, capture) == splits[capture]
  {
    forall b ensures b in SplitsOf(cfg, capture) <==> b in splits[capture] {
      KeyedAt(splits, capture, b);
      if b in splits[capture] {
        assert BlockKey(capture, b) in cfg.assign;
      }
    }
    forall b | b in splits[capture] ensures SplitsOf(cfg, capture)[b] == splits[capture][b] {
      KeyedAt(splits, capture, b);
      assert BlockKey(capture, b) in cfg.assign;
    }
  }

  /** The assignment covers every row whose block the queries have listed. */
  lemma PreparedCovers(cfg: Settings, main: bool, captures: map<string, CaptureBlocks>, rows: seq<Row>)
    requires cfg.Valid() && Prepared(cfg, main, captures)
    requires forall i | 0 <= i < |rows| ::
               rows[i].capture in captures && BlockOf(cfg, rows[i]).block in captures[rows[i].capture].blocks
    ensures Assigned(cfg, rows)
  {
    forall i | 0 <= i < |rows| ensures BlockOf(cfg, rows[i]) in cfg.assign {
      var key, c := BlockOf(cfg, rows[i]), captures[rows[i].capture];
      AssignmentIsTotal(main, c.blocks, c.counts, c.unknown, key.block);
      PreparedSplits(cfg, main, captures, rows[i].capture);
      assert key.block in SplitsOf(cfg, rows[i].capture);
    }
  }

  lemma PreparedIsChronological(cfg: Settings, main: bool, captures: map<string, CaptureBlocks>, capture: string)
    requires Prepared(cfg, main, captures) && capture in captures
    ensures Chronological(SplitsOf(cfg, capture))
  {
    var c := captures[capture];
    PreparedSplits(cfg, main, captures, capture);
    AssignmentIsChronological(main, c.blocks, c.counts, c.unknown);
  }

  /**
   Fitting never looks ahead: under the assignment that prepare computes, all rows that a case of an earlier split
   shows end before any row that a case of a later split of the same capture shows.
   */
  lemma EarlierSplitsEndFirst(
    cfg: Settings, main: bool, captures: map<string, CaptureBlocks>, rows: seq<Row>, m: nat, n: nat, j: nat, k: nat)
    requires cfg.Valid() && Ordered(rows) && Assigned(cfg, rows) && j <= m < |rows| && k <= n < |rows|
    requires Prepared(cfg, main, captures) && rows[m].capture in captures && rows[m].capture == rows[n].capture
    requires SplitOf(cfg, rows[m]).Some? && SplitOf(cfg, rows[n]).Some?
    requires WithinSource(SplitOf(cfg, rows[m]).value) && WithinSource(SplitOf(cfg, rows[n]).value)
    requires Rank(SplitOf(cfg, rows[m]).value) < Rank(SplitOf(cfg, rows[n]).value)
    requires Uses(cfg, rows, m, j) && Uses(cfg, rows, n, k)
    ensures rows[j].end < rows[k].end
  {
    PreparedIsChronological(cfg, main, captures, rows[m].capture);
    ChronologicalSplits(cfg, rows, m, n, j, k);
  }

  /** The same for any assignment in which later blocks never get an earlier split. */
  lemma ChronologicalSplits(cfg: Settings, rows: seq<Row>, m: nat, n: nat, j: nat, k: nat)
    requires cfg.Valid() && Ordered(rows) && Assigned(cfg, rows) && j <= m < |rows| && k <= n < |rows|
    requires rows[m].capture == rows[n].capture && Chronological(SplitsOf(cfg, rows[m].capture))
    requires SplitOf(cfg, rows[m]).Some? && SplitOf(cfg, rows[n]).Some?
    requires WithinSource(SplitOf(cfg, rows[m]).value) && WithinSource(SplitOf(cfg, rows[n]).value)
    requires Rank(SplitOf(cfg, rows[m]).value) < Rank(SplitOf(cfg, rows[n]).value)
    requires Uses(cfg, rows, m, j) && Uses(cfg, rows, n, k)
    ensures rows[j].end < rows[k].end
  {
    UsedRowInBlock(cfg, rows, m, j);
    UsedRowInBlock(cfg, rows, n, k);
    var splits, a, b := SplitsOf(cfg, rows[m].capture), BlockOf(cfg, rows[m]), BlockOf(cfg, rows[n]);
    assert a in cfg.assign && b in cfg.assign;
    assert splits[a.block] == cfg.assign[a] && splits[b.block] == cfg.assign[b];
    if rows[k].end <= rows[j].end {
      BlocksGrow(cfg, rows[k], rows[j]);
    }
  }
}
