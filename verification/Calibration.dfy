/** The choice of a decision threshold under a bound on the false positive rate. */
module Calibration {
  import opened Wrappers

  /** A threshold with what it achieves; compared field by field, like the source's tuples. */
  datatype Choice = Choice(f1: real, negatedFpr: real, threshold: real)

  predicate Above(a: Choice, b: Choice) {
    a.f1 > b.f1 ||
    (a.f1 == b.f1 && (a.negatedFpr > b.negatedFpr || (a.negatedFpr == b.negatedFpr && a.threshold > b.threshold)))
  }

  /** How many rows of class `positive` are, or are not, at or above the threshold. */
  function Count(scores: seq<real>, labels: seq<bool>, threshold: real, positive: bool, above: bool): nat
    requires |scores| == |labels|
  {
    if scores == [] then 0
    else
      var n := |scores| - 1;
      Count(scores[..n], labels[..n], threshold, positive, above)
      + if labels[n] == positive && (scores[n] >= threshold) == above then 1 else 0
  }

  function F1(scores: seq<real>, labels: seq<bool>, threshold: real): real
    requires |scores| == |labels|
  {
    var tp, fp := Count(scores, labels, threshold, true, true), Count(scores, labels, threshold, false, true);
    var fn := Count(scores, labels, threshold, true, false);
    (2 * tp) as real / (if 2 * tp + fp + fn < 1 then 1 else 2 * tp + fp + fn) as real
  }

  function Fpr(scores: seq<real>, labels: seq<bool>, threshold: real): real
    requires |scores| == |labels| && false in labels
  {
    NegativesSplit(scores, labels, threshold);
    Count(scores, labels, threshold, false, true) as real / Negatives(labels) as real
  }

  function Negatives(labels: seq<bool>): nat {
    if labels == [] then 0
    else Negatives(labels[..|labels| - 1]) + if labels[|labels| - 1] then 0 else 1
  }

  /** Every negative row is counted once, above or below; there is one if a label says so. */
  lemma {:induction false} NegativesSplit(scores: seq<real>, labels: seq<bool>, threshold: real)
    requires |scores| == |labels|
    ensures Count(scores, labels, threshold, false, true) + Count(scores, labels, threshold, false, false)
            == Negatives(labels)
    ensures false in labels ==> Negatives(labels) > 0
  {
    if labels != [] {
      var n := |labels| - 1;
      NegativesSplit(scores[..n], labels[..n], threshold);
      assert labels == labels[..n] + [labels[n]];
    }
  }

  function ChoiceAt(scores: seq<real>, labels: seq<bool>, threshold: real): Choice
    requires |scores| == |labels| && false in labels
  {
    Choice(F1(scores, labels, threshold), -Fpr(scores, labels, threshold), threshold)
  }

  const NOTHING_FOUND: Choice := Choice(-1.0, 0.0, 0.0)

  const ABOVE_ALL: real := 1.000001

  /** The candidate thresholds: the scores and one value above all of them, in any order. */
  ghost predicate AreCandidates(thresholds: seq<real>, scores: seq<real>) {
    forall t :: t in thresholds <==> t in scores || t == ABOVE_ALL
  }

  ghost predicate BestOf(
    scores: seq<real>, labels: seq<bool>, target: real, thresholds: seq<real>, best: Choice)
    requires |scores| == |labels| && false in labels
  {
    (best == NOTHING_FOUND ||
     (best.threshold in thresholds && best == ChoiceAt(scores, labels, best.threshold) &&
      -best.negatedFpr <= target)) &&
    forall t | t in thresholds && Fpr(scores, labels, t) <= target :: !Above(ChoiceAt(scores, labels, t), best)
  }

  /** Both classes are needed. Without an admissible threshold the starting value comes back. */
  method Calibrate(scores: seq<real>, labels: seq<bool>, target: real, thresholds: seq<real>)
    returns (best: Result<Choice, string>)
    requires |scores| == |labels| && AreCandidates(thresholds, scores)
    ensures best.Success? <==> true in labels && false in labels
    ensures best.Success? ==> BestOf(scores, labels, target, thresholds, best.value)
  {
    if !(true in labels && false in labels) {
      return Failure("Calibration requires both classes");
    }
    var choice, i := NOTHING_FOUND, 0;
    while i < |thresholds|
      invariant i <= |thresholds| && BestOf(scores, labels, target, thresholds[..i], choice)
    {
      var next := i + 1;
      assert thresholds[..next] == thresholds[..i] + [thresholds[i]];
      if Fpr(scores, labels, thresholds[i]) <= target {
        var candidate := ChoiceAt(scores, labels, thresholds[i]);
        if Above(candidate, choice) {
          choice := candidate;
        }
      }
      i := next;
    }
    assert thresholds[..i] == thresholds;
    return Success(choice);
  }

  // ---------------------------------------------------------------- every threshold acts like a candidate

  ghost predicate SameRows(scores: seq<real>, t: real, u: real) {
    forall i | 0 <= i < |scores| :: scores[i] >= t <==> scores[i] >= u
  }

  lemma {:induction false} SameCount(
    scores: seq<real>, labels: seq<bool>, t: real, u: real, positive: bool, above: bool)
    requires |scores| == |labels| && SameRows(scores, t, u)
    ensures Count(scores, labels, t, positive, above) == Count(scores, labels, u, positive, above)
  {
    if scores != [] {
      var n := |scores| - 1;
      assert forall i | 0 <= i < n :: scores[..n][i] == scores[i];
      SameCount(scores[..n], labels[..n], t, u, positive, above);
    }
  }

  lemma SameMetrics(scores: seq<real>, labels: seq<bool>, t: real, u: real)
    requires |scores| == |labels| && false in labels && SameRows(scores, t, u)
    ensures F1(scores, labels, t) == F1(scores, labels, u) && Fpr(scores, labels, t) == Fpr(scores, labels, u)
  {
    SameCount(scores, labels, t, u, true, true);
    SameCount(scores, labels, t, u, false, true);
    SameCount(scores, labels, t, u, true, false);
  }

  /** The least candidate at or above u, if there is one. */
  lemma {:induction false} LeastAbove(thresholds: seq<real>, u: real) returns (c: Option<real>)
    ensures c.Some? ==> c.value in thresholds && c.value >= u
    ensures forall t | t in thresholds && t >= u :: c.Some? && c.value <= t
  {
    if thresholds == [] {
      c := None;
    } else {
      var n := |thresholds| - 1;
      assert thresholds == thresholds[..n] + [thresholds[n]];
      c := LeastAbove(thresholds[..n], u);
      if thresholds[n] >= u && (c.None? || thresholds[n] < c.value) {
        c := Some(thresholds[n]);
      }
    }
  }

  /** Any real threshold classifies like some candidate, which is no smaller unless all candidates are. */
  lemma ActsLikeCandidate(scores: seq<real>, thresholds: seq<real>, u: real) returns (c: real)
    requires AreCandidates(thresholds, scores) && forall i | 0 <= i < |scores| :: scores[i] <= 1.0
    ensures c in thresholds && SameRows(scores, u, c) && (u <= ABOVE_ALL ==> u <= c)
  {
    var least := LeastAbove(thresholds, u);
    if least.Some? {
      c := least.value;
      forall i | 0 <= i < |scores| ensures scores[i] >= u <==> scores[i] >= c {
        assert scores[i] in scores;
      }
    } else {
      c := ABOVE_ALL;
      forall i | 0 <= i < |scores| ensures scores[i] < u {
        assert scores[i] in scores;
      }
    }
  }

  /** Nothing is above the highest candidate, so it always meets a target that is not negative. */
  lemma {:induction false} NothingAbove(scores: seq<real>, labels: seq<bool>, positive: bool)
    requires |scores| == |labels| && forall i | 0 <= i < |scores| :: scores[i] <= 1.0
    ensures Count(scores, labels, ABOVE_ALL, positive, true) == 0
  {
    if scores != [] {
      NothingAbove(scores[..|scores| - 1], labels[..|scores| - 1], positive);
    }
  }

  lemma HighestIsAdmissible(scores: seq<real>, labels: seq<bool>)
    requires |scores| == |labels| && false in labels && forall i | 0 <= i < |scores| :: scores[i] <= 1.0
    ensures Fpr(scores, labels, ABOVE_ALL) == 0.0 && F1(scores, labels, ABOVE_ALL) == 0.0
  {
    NothingAbove(scores, labels, false);
    NothingAbove(scores, labels, true);
    NegativesSplit(scores, labels, ABOVE_ALL);
  }

  lemma RatesAreNotNegative(scores: seq<real>, labels: seq<bool>, t: real)
    requires |scores| == |labels| && false in labels
    ensures F1(scores, labels, t) >= 0.0 && Fpr(scores, labels, t) >= 0.0
  {
    NegativesSplit(scores, labels, t);
  }

  /** A threshold is found, and meets the target, exactly if the target is not negative. */
  lemma FoundIff(scores: seq<real>, labels: seq<bool>, target: real, thresholds: seq<real>, best: Choice)
    requires |scores| == |labels| && false in labels && forall i | 0 <= i < |scores| :: scores[i] <= 1.0
    requires AreCandidates(thresholds, scores) && BestOf(scores, labels, target, thresholds, best)
    ensures best != NOTHING_FOUND <==> target >= 0.0
    ensures target >= 0.0 ==>
              best == ChoiceAt(scores, labels, best.threshold) && Fpr(scores, labels, best.threshold) <= target
  {
    HighestIsAdmissible(scores, labels);
    if target >= 0.0 {
      assert ABOVE_ALL in thresholds;
      assert !Above(ChoiceAt(scores, labels, ABOVE_ALL), best);
    } else if best != NOTHING_FOUND {
      RatesAreNotNegative(scores, labels, best.threshold);
    }
  }

  /**
   The finite search is globally optimal: no real threshold that meets the target has a higher F1, nor an equal F1
   and a lower false positive rate; and none up to the highest candidate does as well and is larger.
   */
  lemma NoThresholdIsBetter(
    scores: seq<real>, labels: seq<bool>, target: real, thresholds: seq<real>, best: Choice, u: real)
    requires |scores| == |labels| && false in labels && forall i | 0 <= i < |scores| :: scores[i] <= 1.0
    requires AreCandidates(thresholds, scores) && BestOf(scores, labels, target, thresholds, best)
    requires Fpr(scores, labels, u) <= target
    ensures F1(scores, labels, u) <= best.f1
    ensures F1(scores, labels, u) == best.f1 ==> Fpr(scores, labels, u) >= -best.negatedFpr
    ensures F1(scores, labels, u) == best.f1 && Fpr(scores, labels, u) == -best.negatedFpr && u <= ABOVE_ALL ==>
              u <= best.threshold
  {
    var c := ActsLikeCandidate(scores, thresholds, u);
    SameMetrics(scores, labels, u, c);
    assert !Above(ChoiceAt(scores, labels, c), best);
  }
}
