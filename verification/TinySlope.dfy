/**
 Counts that lie exactly on a plane with a tiny slope: over three points the slope is one in two
 thousand million, it is dropped, and the block becomes a constant.
 */
module TinySlope {
  import opened Vectors
  import opened GaussJordan
  import opened LeastSquares
  import opened BlockRelation
  import FoldingGap

  const POINTS: Mat := [[0.0], [2000000000.0], [4000000000.0]]
  const COUNTS: Vec := [0.0, 1.0, 2.0]
  const SLOPE := 0.0000000005

  lemma OnThePlane()
    ensures OnPlane(POINTS, COUNTS, [SLOPE], 0.0)
  {
    forall i | 0 <= i < 3 ensures COUNTS[i] == Plane([SLOPE], 0.0, POINTS[i]) {
      FoldingGap.Dot1([SLOPE], POINTS[i]);
    }
  }

  lemma Centroid()
    ensures Means(POINTS, 1)[0] == 2000000000.0 && Scales(POINTS, 1)[0] == 2000000000.0 && Mean(COUNTS) == 1.0
  {
    hide Sum, Spread;
    var col := Col(POINTS, 0);
    assert col == [0.0, 2000000000.0, 4000000000.0];
    FoldingGap.Sum3(col);
    FoldingGap.Sum3(COUNTS);
    FoldingGap.Spread3(col, 2000000000.0);
    assert Mean(col) == 2000000000.0;
    assert Abs(col[2] - 2000000000.0) == 2000000000.0;
  }

  lemma Separates()
    ensures AffineFit(POINTS, COUNTS, 1).dep == {}
  {
    hide Dot, Mean, Means, Scales, Solution, Comb;
    Centroid();
    var X := Design(POINTS, 1);
    var x := Col(X, 0);
    assert x[0] == -1.0 && x[1] == 0.0 && x[2] == 1.0;
    FoldingGap.Dot3(x, x);
    FoldingGap.OneColumnIsSeparable(Gram(X, 1), Comb(Centred(COUNTS), X, 1));
  }

  lemma LargestCount()
    ensures Largest(COUNTS) == 2.0
  {
    assert COUNTS[2] == 2.0;
  }

  lemma PointRange()
    ensures RangeOf(POINTS, 0) == 4000000000.0
  {
    var col := Col(POINTS, 0);
    assert col[0] == 0.0 && col[1] == 2000000000.0 && col[2] == 4000000000.0;
  }

  /** An exact plane the test does not keep: its slope is lost in a constant. */
  lemma ExactPlaneIsLost()
    ensures OnPlane(POINTS, COUNTS, [SLOPE], 0.0) && AffineFit(POINTS, COUNTS, 1).dep == {}
    ensures !Keepable(POINTS, COUNTS, [SLOPE], 0.0)
    ensures PartOf(POINTS, COUNTS, 1) == Kept([0.0], 1.0, [false])
  {
    hide Plane, Mean, AffineFit, Largest, RangeOf;
    OnThePlane();
    Separates();
    Centroid();
    LargestCount();
    PointRange();
    ExactPlaneRecovered(POINTS, COUNTS, 1, [SLOPE], 0.0);
    var f := AffineFit(POINTS, COUNTS, 1);
    assert Accepted(POINTS, COUNTS, f);
    assert !ScalesIn(POINTS, COUNTS, f, 0);
    assert Scaling(POINTS, COUNTS, f) == [false];
    assert Fill(1, 0.0) == [0.0];
  }
}
