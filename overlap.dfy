/**
 * The evaluation harness's overlap score: the signed length of the
 * intersection of the estimated and the ground-truth interval, as a
 * fraction of the ground-truth length. Disjoint intervals give a negative
 * score, measuring the gap between them.
 */
module Overlap {

  function Min(a: real, b: real): real {
    if a <= b then a else b
  }

  function Max(a: real, b: real): real {
    if a >= b then a else b
  }

  /** The signed overlap of [estStart, estEnd] with [gtStart, gtEnd], relative to the latter's length. */
  function EvaluateOverlap(gtStart: real, gtEnd: real, estStart: real, estEnd: real): (ratio: real)
    requires gtEnd != gtStart
    ensures gtStart < gtEnd ==> ratio <= 1.0
    ensures gtStart < gtEnd ==> (ratio == 1.0 <==> estStart <= gtStart && gtEnd <= estEnd)
    ensures gtStart < gtEnd && estStart <= estEnd ==> (ratio < 0.0 <==> estEnd < gtStart || gtEnd < estStart)
  {
    var overlap := Min(gtEnd, estEnd) - Max(gtStart, estStart);
    RatioOfPositive(overlap, gtEnd - gtStart);
    overlap / (gtEnd - gtStart)
  }

  /** How a quotient by a positive length compares with 0 and 1. */
  lemma RatioOfPositive(x: real, d: real)
    requires d != 0.0
    ensures d > 0.0 ==> (x / d <= 1.0 <==> x <= d)
    ensures d > 0.0 ==> (x / d == 1.0 <==> x == d)
    ensures d > 0.0 ==> (x / d < 0.0 <==> x < 0.0)
  {
    assert (x / d) * d == x;
    if d > 0.0 {
      if x / d <= 1.0 {
        assert (x / d) * d <= 1.0 * d;
      }
      if x <= d {
        assert x / d <= d / d;
      }
    }
  }

  /** Inside the ground truth, the score is the covered fraction of it. */
  lemma ContainedEstimateScoresItsShare(gtStart: real, gtEnd: real, estStart: real, estEnd: real)
    requires gtStart <= estStart <= estEnd <= gtEnd && gtStart < gtEnd
    ensures EvaluateOverlap(gtStart, gtEnd, estStart, estEnd) * (gtEnd - gtStart) == estEnd - estStart
  {
    var d := gtEnd - gtStart;
    var x := estEnd - estStart;
    assert EvaluateOverlap(gtStart, gtEnd, estStart, estEnd) == x / d;
    assert (x / d) * d == x;
  }

  /** After the ground truth, the score is minus the gap between the two intervals, relative to the ground truth. */
  lemma LateEstimateScoresMinusGap(gtStart: real, gtEnd: real, estStart: real, estEnd: real)
    requires gtStart < gtEnd <= estStart <= estEnd
    ensures EvaluateOverlap(gtStart, gtEnd, estStart, estEnd) * (gtEnd - gtStart) == -(estStart - gtEnd)
  {
    var d := gtEnd - gtStart;
    var x := gtEnd - estStart;
    assert EvaluateOverlap(gtStart, gtEnd, estStart, estEnd) == x / d;
    assert (x / d) * d == x;
  }

  /** Ground truth 0 s to 10 s against an estimate 20 s to 30 s scores -1. */
  lemma DisjointExample()
    ensures EvaluateOverlap(0.0, 10.0, 20.0, 30.0) == -1.0
  {
    LateEstimateScoresMinusGap(0.0, 10.0, 20.0, 30.0);
  }
}
