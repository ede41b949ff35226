/**
 Reservoir sampling, and its uniformity by counting: over all choice sequences, any a rows are
 retained together in exactly the share of runs that uniform sampling without replacement gives.
 */
module Reservoirs {

  /** What `add` does to the retained rows when the random index is `index`. */
  function Place<T>(rows: seq<T>, cap: nat, row: T, index: nat): seq<T> {
    if |rows| < cap then rows + [row]
    else if index < cap && index < |rows| then rows[index := row]
    else rows
  }

  class Reservoir<T> {
    var cap: nat
    var seen: nat
    var rows: seq<T>

    ghost predicate Valid()
      reads this
    {
      |rows| == if seen < cap then seen else cap
    }

    constructor (cap: nat)
      ensures Valid() && this.cap == cap && seen == 0 && rows == []
    {
      this.cap, seen, rows := cap, 0, [];
    }

    /** Draws an index below the number of rows seen, once the reservoir is full. */
    method Add(row: T) returns (ghost index: nat)
      requires Valid()
      modifies this`seen, this`rows
      ensures Valid() && seen == old(seen) + 1 && index < seen
      ensures rows == Place(old(rows), cap, row, index)
    {
      index := 0;
      seen := seen + 1;
      if |rows| < cap {
        rows := rows + [row];
      } else {
        var drawn: nat :| drawn < seen;
        index := drawn;
        if drawn < cap {
          rows := rows[drawn := row];
        }
      }
    }
  }

  // ---------------------------------------------------------------- all runs

  /** The reservoirs, as stream positions, that row `n` can lead to: one per index drawn below n + 1. */
  function Branches(r: seq<nat>, cap: nat, n: nat): seq<seq<nat>> {
    if |r| < cap then [r + [n]]
    else seq(n + 1, index requires 0 <= index < n + 1 => Place(r, cap, n, index))
  }

  function AllBranches(runs: seq<seq<nat>>, cap: nat, n: nat): seq<seq<nat>> {
    if runs == [] then [] else AllBranches(runs[..|runs| - 1], cap, n) + Branches(runs[|runs| - 1], cap, n)
  }

  /** The reservoir after n rows, once for every sequence of draws. */
  function Runs(cap: nat, n: nat): seq<seq<nat>> {
    if n == 0 then [[]] else AllBranches(Runs(cap, n - 1), cap, n - 1)
  }

  predicate Retains(r: seq<nat>, kept: set<nat>) {
    forall x | x in kept :: x in r
  }

  /** In how many runs all rows of `kept` are retained. */
  function Count(runs: seq<seq<nat>>, kept: set<nat>): nat {
    if runs == [] then 0
    else Count(runs[..|runs| - 1], kept) + if Retains(runs[|runs| - 1], kept) then 1 else 0
  }

  // ---------------------------------------------------------------- distinct positions

  /** Distinct stream positions below n, as many as fit. */
  ghost predicate Proper(r: seq<nat>, cap: nat, n: nat) {
    |r| == (if n < cap then n else cap) &&
    (forall i | 0 <= i < |r| :: r[i] < n) && (forall i, j | 0 <= i < j < |r| :: r[i] != r[j])
  }

  lemma {:induction false} AllBranchesProper(runs: seq<seq<nat>>, cap: nat, n: nat)
    requires forall r | r in runs :: Proper(r, cap, n)
    ensures forall r | r in AllBranches(runs, cap, n) :: Proper(r, cap, n + 1)
  {
    if runs != [] {
      AllBranchesProper(runs[..|runs| - 1], cap, n);
      var last := runs[|runs| - 1];
      assert last in runs;
      forall r | r in Branches(last, cap, n) ensures Proper(r, cap, n + 1) {
      }
    }
  }

  /** The reservoir always holds min(cap, seen) distinct stream positions. */
  lemma {:induction false} RunsAreProper(cap: nat, n: nat)
    ensures forall r | r in Runs(cap, n) :: Proper(r, cap, n)
  {
    if n > 0 {
      RunsAreProper(cap, n - 1);
      AllBranchesProper(Runs(cap, n - 1), cap, n - 1);
    }
  }

  // ---------------------------------------------------------------- counting branches

  lemma {:induction false} CountConcat(a: seq<seq<nat>>, b: seq<seq<nat>>, kept: set<nat>)
    ensures Count(a + b, kept) == Count(a, kept) + Count(b, kept)
  {
    if b == [] {
      assert a + b == a;
    } else {
      assert (a + b)[..|a + b| - 1] == a + b[..|b| - 1];
      CountConcat(a, b[..|b| - 1], kept);
    }
  }

  /** The members of `kept` that stand in the first m places of r. */
  function InFirst(r: seq<nat>, kept: set<nat>, m: nat): set<nat>
    requires m <= |r|
  {
    set i | 0 <= i < m && r[i] in kept :: r[i]
  }

  lemma InFirstStep(r: seq<nat>, kept: set<nat>, m: nat)
    requires m < |r| && forall i, j | 0 <= i < j < |r| :: r[i] != r[j]
    ensures |InFirst(r, kept, m + 1)| == |InFirst(r, kept, m)| + if r[m] in kept then 1 else 0
  {
    var before, after := InFirst(r, kept, m), InFirst(r, kept, m + 1);
    if r[m] in kept {
      assert after == before + {r[m]} && r[m] !in before;
    } else {
      assert after == before;
    }
  }

  /** A draw keeps `kept` if it lands where no older row of `kept` stands, and in place if the new row is meant. */
  lemma DrawKeeps(r: seq<nat>, cap: nat, n: nat, kept: set<nat>, index: nat)
    requires Proper(r, cap, n) && |r| == cap && Retains(r, kept - {n})
    ensures Retains(Place(r, cap, n, index), kept) <==>
            (n in kept ==> index < cap) && (index < cap ==> r[index] !in kept - {n})
  {
    var placed := Place(r, cap, n, index);
    if index < cap {
      assert placed[index] == n;
      if r[index] !in kept - {n} {
        forall x | x in kept && x != n ensures x in placed {
          assert x in kept - {n};
          var i :| 0 <= i < |r| && r[i] == x;
          assert placed[i] == x;
        }
      } else {
        assert r[index] !in placed;
      }
    } else if n in kept {
      assert n !in r;
    } else {
      assert kept - {n} == kept;
    }
  }

  /**
   How many of the first m draws keep `kept`: all but those that overwrite an older row of it; only
   draws that land in the reservoir count when the new row is to be kept.
   */
  lemma {:induction false} CountDraws(r: seq<nat>, cap: nat, n: nat, kept: set<nat>, m: nat)
    requires Proper(r, cap, n) && |r| == cap && m <= n + 1 && Retains(r, kept - {n})
    ensures var k := if m < cap then m else cap;
            Count(Branches(r, cap, n)[..m], kept)
            == (if n in kept then k else m) - |InFirst(r, kept - {n}, k)|
  {
    if m == 0 {
      assert InFirst(r, kept - {n}, 0) == {};
    } else {
      CountDraws(r, cap, n, kept, m - 1);
      var b := Branches(r, cap, n);
      assert b[..m][..m - 1] == b[..m - 1] && b[..m][m - 1] == Place(r, cap, n, m - 1);
      DrawKeeps(r, cap, n, kept, m - 1);
      if m <= cap {
        InFirstStep(r, kept - {n}, m - 1);
      }
    }
  }

  lemma NothingFits(r: seq<nat>, cap: nat, n: nat, kept: set<nat>, x: nat)
    requires |r| == cap && x in kept && x != n && x !in r
    ensures forall b | b in Branches(r, cap, n) :: !Retains(b, kept)
  {
  }

  lemma {:induction false} CountNone(runs: seq<seq<nat>>, kept: set<nat>)
    requires forall r | r in runs :: !Retains(r, kept)
    ensures Count(runs, kept) == 0
  {
    if runs != [] {
      assert forall r | r in runs[..|runs| - 1] :: r in runs;
      assert runs[|runs| - 1] in runs;
      CountNone(runs[..|runs| - 1], kept);
    }
  }

  /** How many of the n + 1 next draws keep `kept`, given that its older rows are retained. */
  function Share(cap: nat, n: nat, kept: set<nat>): int {
    if n in kept then cap - |kept - {n}| else n + 1 - |kept - {n}|
  }

  lemma KeepingDraws(r: seq<nat>, cap: nat, n: nat, kept: set<nat>)
    requires Proper(r, cap, n) && |r| == cap <= n && Retains(r, kept - {n})
    ensures Count(Branches(r, cap, n), kept) == Share(cap, n, kept)
  {
    TakeAll(Branches(r, cap, n));
    AllInFirst(r, kept - {n});
    CountDraws(r, cap, n, kept, n + 1);
  }

  lemma TakeAll<T>(s: seq<T>)
    ensures s[..|s|] == s
  {
  }

  lemma LosingDraws(r: seq<nat>, cap: nat, n: nat, kept: set<nat>)
    requires |r| == cap && !Retains(r, kept - {n})
    ensures Count(Branches(r, cap, n), kept) == 0
  {
    var x :| x in kept - {n} && x !in r;
    NothingFits(r, cap, n, kept, x);
    CountNone(Branches(r, cap, n), kept);
  }

  lemma AllInFirst(r: seq<nat>, kept: set<nat>)
    requires Retains(r, kept)
    ensures InFirst(r, kept, |r|) == kept
  {
    forall x | x in kept ensures x in InFirst(r, kept, |r|) {
      assert x in r;
    }
  }

  lemma {:induction false} AllBranchTotal(runs: seq<seq<nat>>, cap: nat, n: nat)
    requires forall r | r in runs :: |r| == cap
    ensures |AllBranches(runs, cap, n)| == Times(|runs|, n + 1)
  {
    if runs != [] {
      var init, last := runs[..|runs| - 1], runs[|runs| - 1];
      assert last in runs && forall r | r in init :: r in runs;
      AllBranchTotal(init, cap, n);
    }
  }

  /** The draws after one full reservoir that keep `kept`. */
  lemma BranchCount(r: seq<nat>, cap: nat, n: nat, kept: set<nat>)
    requires Proper(r, cap, n) && |r| == cap <= n
    ensures Count(Branches(r, cap, n), kept) == if Retains(r, kept - {n}) then Share(cap, n, kept) else 0
  {
    if Retains(r, kept - {n}) {
      KeepingDraws(r, cap, n, kept);
    } else {
      LosingDraws(r, cap, n, kept);
    }
  }

  /** x times y, by adding up. */
  function Times(x: nat, y: int): int {
    if x == 0 then 0 else Times(x - 1, y) + y
  }

  lemma {:induction false} TimesIsProduct(x: nat, y: int)
    ensures Times(x, y) == x * y
  {
    if x > 0 {
      TimesIsProduct(x - 1, y);
      assert x * y == (x - 1) * y + y;
    }
  }

  ghost predicate AllFull(runs: seq<seq<nat>>, cap: nat, n: nat) {
    runs == [] ||
    (AllFull(runs[..|runs| - 1], cap, n) && Proper(runs[|runs| - 1], cap, n) && |runs[|runs| - 1]| == cap)
  }

  lemma {:induction false} ProperRunsAreFull(runs: seq<seq<nat>>, cap: nat, n: nat)
    requires cap <= n && forall r | r in runs :: Proper(r, cap, n)
    ensures AllFull(runs, cap, n)
  {
    if runs != [] {
      var init, last := runs[..|runs| - 1], runs[|runs| - 1];
      assert last in runs && forall r | r in init :: r in runs;
      ProperRunsAreFull(init, cap, n);
    }
  }

  /** The same for all runs at once. */
  lemma {:induction false} AllBranchCount(runs: seq<seq<nat>>, cap: nat, n: nat, kept: set<nat>, share: int)
    requires AllFull(runs, cap, n) && cap <= n && share == Share(cap, n, kept)
    ensures Count(AllBranches(runs, cap, n), kept) == Times(Count(runs, kept - {n}), share)
  {
    if runs != [] {
      AllBranchCount(runs[..|runs| - 1], cap, n, kept, share);
      AllBranchStep(runs, cap, n, kept, share);
    }
  }

  lemma AllBranchStep(runs: seq<seq<nat>>, cap: nat, n: nat, kept: set<nat>, share: int)
    requires runs != [] && AllFull(runs, cap, n) && cap <= n && share == Share(cap, n, kept)
    requires var init := runs[..|runs| - 1];
             Count(AllBranches(init, cap, n), kept) == Times(Count(init, kept - {n}), share)
    ensures Count(AllBranches(runs, cap, n), kept) == Times(Count(runs, kept - {n}), share)
  {
    var init, last := runs[..|runs| - 1], runs[|runs| - 1];
    OneRunMore(runs, cap, n, kept);
    AddShare(Count(AllBranches(init, cap, n), kept), Count(init, kept - {n}), Retains(last, kept - {n}), share);
  }

  lemma OneRunMore(runs: seq<seq<nat>>, cap: nat, n: nat, kept: set<nat>)
    requires runs != [] && Proper(runs[|runs| - 1], cap, n) && |runs[|runs| - 1]| == cap <= n
    ensures var init, more := runs[..|runs| - 1], Retains(runs[|runs| - 1], kept - {n});
            Count(AllBranches(runs, cap, n), kept)
            == Count(AllBranches(init, cap, n), kept) + (if more then Share(cap, n, kept) else 0) &&
            Count(runs, kept - {n}) == Count(init, kept - {n}) + if more then 1 else 0
  {
    RunsUnfold(runs, cap, n, kept);
    OneBranchMore(runs[..|runs| - 1], runs[|runs| - 1], cap, n, kept);
  }

  lemma AddShare(total: int, count: nat, more: bool, share: int)
    requires total == Times(count, share)
    ensures total + (if more then share else 0) == Times(count + if more then 1 else 0, share)
  {
  }

  lemma RunsUnfold(runs: seq<seq<nat>>, cap: nat, n: nat, kept: set<nat>)
    requires runs != []
    ensures var init, last := runs[..|runs| - 1], runs[|runs| - 1];
            AllBranches(runs, cap, n) == AllBranches(init, cap, n) + Branches(last, cap, n) &&
            Count(runs, kept - {n}) == Count(init, kept - {n}) + if Retains(last, kept - {n}) then 1 else 0
  {
  }

  lemma OneBranchMore(init: seq<seq<nat>>, last: seq<nat>, cap: nat, n: nat, kept: set<nat>)
    requires Proper(last, cap, n) && |last| == cap <= n
    ensures Count(AllBranches(init, cap, n) + Branches(last, cap, n), kept)
         == Count(AllBranches(init, cap, n), kept) + if Retains(last, kept - {n}) then Share(cap, n, kept) else 0
  {
    BranchCount(last, cap, n, kept);
    CountConcat(AllBranches(init, cap, n), Branches(last, cap, n), kept);
  }

  // ---------------------------------------------------------------- uniformity

  /** n * (n - 1) * ... with a factors. */
  function Falling(n: int, a: nat): int
    decreases a
  {
    if a == 0 then 1 else n * Falling(n - 1, a - 1)
  }

  lemma {:induction false} FallingFromBelow(n: int, a: nat)
    requires a > 0
    ensures Falling(n, a) == Falling(n, a - 1) * (n - a + 1)
    decreases a
  {
    if a > 1 {
      FallingFromBelow(n - 1, a - 1);
      assert Falling(n, a) == n * (Falling(n - 1, a - 2) * (n - a + 1));
      assert Falling(n, a - 1) == n * Falling(n - 1, a - 2);
      Associate(n, Falling(n - 1, a - 2), n - a + 1);
    }
  }

  lemma Associate(x: int, y: int, z: int)
    ensures x * (y * z) == (x * y) * z
  {
  }

  function Positions(n: nat): seq<nat> {
    seq(n, i requires 0 <= i < n => i)
  }

  lemma {:induction false} FirstRun(cap: nat, n: nat)
    requires n <= cap
    ensures Runs(cap, n) == [Positions(n)]
  {
    if n == 0 {
      assert Positions(0) == [];
    } else {
      FirstRun(cap, n - 1);
      OnlyBranch(cap, n - 1);
    }
  }

  lemma OnlyBranch(cap: nat, m: nat)
    requires m < cap
    ensures AllBranches([Positions(m)], cap, m) == [Positions(m + 1)]
  {
    var runs: seq<seq<nat>> := [Positions(m)];
    assert runs[..0] == [];
    assert Positions(m) + [m] == Positions(m + 1);
  }

  /** All positions up to the bound are retained until the reservoir is full. */
  lemma FullReservoir(cap: nat, kept: set<nat>)
    requires forall x | x in kept :: x < cap
    ensures |Runs(cap, cap)| == 1 && Count(Runs(cap, cap), kept) == 1
  {
    FirstRun(cap, cap);
    var r := Positions(cap);
    assert Runs(cap, cap)[..0] == [];
    forall x | x in kept ensures x in r {
      assert r[x] == x;
    }
  }

  /** In `count` of `total` runs, which is Falling(cap, a) / Falling(n, a) of them. */
  ghost predicate FairShare(cap: int, n: int, a: nat, count: int, total: int) {
    Falling(n, a) * count == Falling(cap, a) * total
  }

  /** The arithmetic of one more row that is not among those kept. */
  lemma OldRowStep(cap: int, n: int, a: nat, count: int, total: int, count': int, total': int)
    requires FairShare(cap, n, a, count, total)
    requires count' == count * (n + 1 - a) && total' == total * (n + 1)
    ensures FairShare(cap, n + 1, a, count', total')
  {
    if a > 0 {
      FallingFromBelow(n, a);
      Regroup(n + 1, Falling(n, a - 1), count, n + 1 - a);
    }
    Associate(Falling(cap, a), total, n + 1);
  }

  lemma Regroup(p: int, f: int, c: int, k: int)
    ensures (p * f) * (c * k) == ((f * k) * c) * p
  {
    Associate(p * f, c, k);
    Associate(p, f, c);
    Associate(p, f * c, k);
    Associate(f, c, k);
    Associate(f, k, c);
  }

  /** ... and of one that is. */
  lemma NewRowStep(cap: int, n: int, a: nat, share: int, count: int, total: int, count': int, total': int)
    requires FairShare(cap, n, a, count, total) && share == cap - a
    requires count' == count * share && total' == total * (n + 1)
    ensures FairShare(cap, n + 1, a + 1, count', total')
  {
    FallingFromBelow(cap, a + 1);
    NewRowProduct(n + 1, Falling(n, a), Falling(cap, a), share, count, total);
  }

  lemma NewRowProduct(p: int, f: int, g: int, k: int, count: int, total: int)
    requires f * count == g * total
    ensures (p * f) * (count * k) == (g * k) * (total * p)
  {
    Regroup(p, f, count, k);
    Swap(f, k, count);
    Swap(g, k, total);
    Associate(g * k, total, p);
  }

  lemma Swap(f: int, k: int, c: int)
    ensures (f * k) * c == (f * c) * k
  {
    Associate(f, k, c);
    Associate(f, c, k);
  }

  /** One more row, once the reservoir is full. */
  lemma RunsStep(cap: nat, n: nat, kept: set<nat>, share: int)
    requires cap <= n && share == Share(cap, n, kept)
    ensures |Runs(cap, n + 1)| == |Runs(cap, n)| * (n + 1)
    ensures Count(Runs(cap, n + 1), kept) == Count(Runs(cap, n), kept - {n}) * share
  {
    RunsAreProper(cap, n);
    AllBranchTotal(Runs(cap, n), cap, n);
    ProperRunsAreFull(Runs(cap, n), cap, n);
    AllBranchCount(Runs(cap, n), cap, n, kept, share);
    TimesIsProduct(|Runs(cap, n)|, n + 1);
    TimesIsProduct(Count(Runs(cap, n), kept - {n}), share);
  }

  /** The share of the runs over n rows that retain all of `kept`. */
  ghost predicate Uniform(cap: nat, n: nat, kept: set<nat>) {
    FairShare(cap, n, |kept|, Count(Runs(cap, n), kept), |Runs(cap, n)|)
  }

  lemma KeptOlderRows(cap: nat, n: nat, kept: set<nat>)
    requires cap <= n && n !in kept && Uniform(cap, n, kept)
    ensures Uniform(cap, n + 1, kept)
  {
    assert kept - {n} == kept;
    RunsStep(cap, n, kept, n + 1 - |kept|);
    OldRowStep(cap, n, |kept|, Count(Runs(cap, n), kept), |Runs(cap, n)|,
               Count(Runs(cap, n + 1), kept), |Runs(cap, n + 1)|);
  }

  lemma KeptNewRow(cap: nat, n: nat, kept: set<nat>)
    requires cap <= n && n in kept && Uniform(cap, n, kept - {n})
    ensures Uniform(cap, n + 1, kept)
  {
    var a, count, total := |kept - {n}|, Count(Runs(cap, n), kept - {n}), |Runs(cap, n)|;
    var share := cap - a;
    assert |kept| == a + 1 by {
      assert kept == (kept - {n}) + {n};
    }
    RunsStep(cap, n, kept, share);
    NewRowStep(cap, n, a, share, count, total, Count(Runs(cap, n + 1), kept), |Runs(cap, n + 1)|);
  }

  /**
   Uniformity: once n rows have passed a reservoir of size cap <= n, any a <= cap of them are all
   retained in exactly cap (cap - 1) ... / n (n - 1) ... of the runs. With a = 1 every row is retained
   in cap / n of them; with a = cap every subset of that size is equally likely.
   */
  lemma {:induction false} ReservoirIsUniform(cap: nat, n: nat, kept: set<nat>)
    requires cap <= n && forall x | x in kept :: x < n
    ensures Uniform(cap, n, kept)
    ensures Falling(n, |kept|) * Count(Runs(cap, n), kept) == Falling(cap, |kept|) * |Runs(cap, n)|
    decreases n
  {
    if n == cap {
      FullReservoir(cap, kept);
    } else {
      ReservoirIsUniform(cap, n - 1, kept - {n - 1});
      if n - 1 in kept {
        KeptNewRow(cap, n - 1, kept);
      } else {
        assert kept - {n - 1} == kept;
        KeptOlderRows(cap, n - 1, kept);
      }
    }
  }

  /** Every single row is retained in cap / n of the runs. */
  lemma EveryRowIsEquallyLikely(cap: nat, n: nat, row: nat)
    requires 0 < cap <= n && row < n
    ensures n * Count(Runs(cap, n), {row}) == cap * |Runs(cap, n)|
  {
    ReservoirIsUniform(cap, n, {row});
    assert Falling(n - 1, 0) == 1 && Falling(cap - 1, 0) == 1;
  }
}
