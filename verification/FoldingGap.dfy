/**
 A three-point region on which the formula misses a count by more than the block's tolerance:
 the specification's error bound leaves out the slopes that are folded into the constant.
 */
module FoldingGap {
  import opened Vectors
  import opened GaussJordan
  import opened LeastSquares
  import opened BlockRelation
  import opened Regimes

  const POINTS: Mat := [[0.0], [1.0], [101.0]]
  const COUNTS: Vec := [0.0, 120.0, 120.0]
  const BLOCK := Block(("a.out", "work"), COUNTS)

  lemma OneColumnIsSeparable(A: Mat, b: Vec)
    requires Rect(A, 1, 1) && |b| == 1 && A[0][0] >= 1.0
    ensures Solution(A, b).1 == {}
  {
    var scale := MatScale(A);
    assert A[..0] == [] && A[0][..0] == [];
    assert MatScale([]) == 1.0;
    assert scale == RowMax(A[0], 1.0) == A[0][0];
    var e := Eliminate(A, b, 0);
    assert e.M[0] == A[0] + [b[0]];
    assert BestPivot(e.M, {}, 0, 0) == |e.M|;
    assert BestPivot(e.M, {}, 0, 1) == 0;
  }

  lemma Sum3(s: Vec)
    requires |s| == 3
    ensures Sum(s) == s[0] + s[1] + s[2]
  {
    assert Sum(s[..1]) == s[0] by {
      assert s[..1][..0] == [];
    }
    assert s[..2][..1] == s[..1];
  }

  lemma Dot3(a: Vec, b: Vec)
    requires |a| == |b| == 3
    ensures Dot(a, b) == a[0] * b[0] + a[1] * b[1] + a[2] * b[2]
  {
    assert Dot(a[..1], b[..1]) == a[0] * b[0] by {
      Dot1(a[..1], b[..1]);
    }
    assert a[..2][..1] == a[..1] && b[..2][..1] == b[..1];
    assert Dot(a[..2], b[..2]) == a[0] * b[0] + a[1] * b[1];
  }

  lemma Dot1(a: Vec, b: Vec)
    requires |a| == |b| == 1
    ensures Dot(a, b) == a[0] * b[0]
  {
    assert a[..0] == [] && b[..0] == [];
  }

  lemma Spread3(s: Vec, m: real)
    requires |s| == 3
    ensures var r := Spread(s, m);
            r == Abs(s[0] - m) || r == Abs(s[1] - m) || r == Abs(s[2] - m) || r == 0.0
  {
    assert s[..1][..0] == [];
    assert Spread(s[..1], m) == 0.0 || Spread(s[..1], m) == Abs(s[0] - m);
    assert s[..2][..1] == s[..1];
    var r := Spread(s[..2], m);
    assert r == 0.0 || r == Abs(s[0] - m) || r == Abs(s[1] - m);
  }

  lemma Centroid()
    ensures Means(POINTS, 1)[0] == 34.0 && Scales(POINTS, 1)[0] == 67.0 && Mean(COUNTS) == 80.0
  {
    hide Sum, Spread;
    var col := Col(POINTS, 0);
    assert col == [0.0, 1.0, 101.0];
    Sum3(col);
    Sum3(COUNTS);
    Spread3(col, 34.0);
    assert Mean(col) == 34.0;
    assert Abs(col[2] - 34.0) == 67.0;
  }

  lemma NormalEquation()
    ensures var X := Design(POINTS, 1);
            Gram(X, 1)[0][0] == 6734.0 / 4489.0 && Comb(Centred(COUNTS), X, 1)[0] == 4080.0 / 67.0
  {
    hide Dot, Mean, Means, Scales;
    Centroid();
    var X := Design(POINTS, 1);
    var x, z := Col(X, 0), Centred(COUNTS);
    assert x[0] == -34.0 / 67.0 && x[1] == -33.0 / 67.0 && x[2] == 1.0;
    assert z[0] == -80.0 && z[1] == 40.0 && z[2] == 40.0;
    Dot3(x, x);
    Dot3(z, x);
  }

  /** The fitted plane: slope 4080/6734 through the centroid (34, 80). */
  lemma FittedPlane()
    ensures var f := AffineFit(POINTS, COUNTS, 1);
            f.a[0] == 4080.0 / 6734.0 && f.c == 80.0 - 34.0 * (4080.0 / 6734.0)
  {
    hide Dot, Mean, Solution, Means, Scales, Gram, Comb, Design, Spread;
    var X := Design(POINTS, 1);
    var A, b := Gram(X, 1), Comb(Centred(COUNTS), X, 1);
    NormalEquation();
    OneColumnIsSeparable(A, b);
    var x := [4080.0 * 67.0 / 6734.0];
    Dot1(A[0], x);
    assert A[0][0] * x[0] == b[0];
    SolutionIsUnique(A, b, x);
    Centroid();
    var f := AffineFit(POINTS, COUNTS, 1);
    Dot1(f.a, Means(POINTS, 1));
  }

  lemma PlaneAt(i: nat)
    requires i < 3
    ensures var f := AffineFit(POINTS, COUNTS, 1);
            Plane(f.a, f.c, POINTS[i]) == 80.0 + (4080.0 / 6734.0) * (POINTS[i][0] - 34.0)
  {
    hide AffineFit, Dot;
    FittedPlane();
    Dot1(AffineFit(POINTS, COUNTS, 1).a, POINTS[i]);
  }

  /** The block passes the test, and its slope is too small to matter over the range. */
  lemma IsConstant()
    ensures var p := PartOf(POINTS, COUNTS, 1); p.Kept? && p.coef == [0.0] && p.cst == 80.0
  {
    hide Plane, Mean, Spread, Means, ScaledFit, Largest, Smallest;
    var f := AffineFit(POINTS, COUNTS, 1);
    FittedPlane();
    PlaneAt(0);
    PlaneAt(1);
    PlaneAt(2);
    LargestCount();
    assert Accepted(POINTS, COUNTS, f);
    var e := Residuals(POINTS, COUNTS, f.a, f.c);
    assert Abs(e[0] - 0.0) <= f.dev;
    PointRange();
    assert !ScalesIn(POINTS, COUNTS, f, 0);
    assert Scaling(POINTS, COUNTS, f) == [false];
    Centroid();
    assert PartOf(POINTS, COUNTS, 1) == Kept(Fill(1, 0.0), 80.0, [false]);
  }

  lemma LargestCount()
    ensures Largest(COUNTS) == 120.0
  {
    assert COUNTS[1] == 120.0;
  }

  lemma PointRange()
    ensures RangeOf(POINTS, 0) == 101.0
  {
    var col := Col(POINTS, 0);
    assert col == [0.0, 1.0, 101.0];
    assert col[0] == 0.0 && col[2] == 101.0;
  }

  /** One regular block, near its own plane everywhere, yet the formula is 80 off at a point allowed 64. */
  lemma StatedBoundFails()
    ensures Points(POINTS, 1) && Blocks([BLOCK], 3)
    ensures CountsAt(POINTS, 1, [BLOCK], RegularBlocks, 0) == 0.0
    ensures Formula(TotalsOf(POINTS, 1, [BLOCK]), POINTS[0]) == 80.0
    ensures Tolerances(POINTS, 1, [BLOCK], 0) == 64.0
  {
    hide PartOf;
    IsConstant();
    NotRuntime();
    assert [BLOCK][..0] == [];
    FormulaMeaning(POINTS, 1, [BLOCK], POINTS[0]);
    Dot1([0.0], POINTS[0]);
    assert KindOf(POINTS, 1, BLOCK).Regular?;
    assert FormulaShare(POINTS, 1, BLOCK, POINTS[0]) == 80.0;
  }

  lemma NotRuntime()
    ensures !IsRuntime(BLOCK.sym)
  {
    forall i | 0 <= i < |RUNTIME_MODULES| ensures !(RUNTIME_MODULES[i] <= "a.out") {
      assert RUNTIME_MODULES[i][0] == 'l';
    }
  }
}
