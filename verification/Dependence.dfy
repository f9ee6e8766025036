/**
 What a dependent state is: the elimination finds no pivot at all exactly for the states that are,
 over the observed points, an affine combination of earlier states that have one; and with only
 such states dependent, the fit is still the best plane there is.
 */
module Dependence {
  import opened Vectors
  import opened GaussJordan
  import opened LeastSquares

  // ---------------------------------------------------------------- sums with few terms

  lemma {:induction false} DotNone(a: Vec, x: Vec)
    requires |a| == |x| && forall j :: 0 <= j < |a| ==> a[j] == 0.0 || x[j] == 0.0
    ensures Dot(a, x) == 0.0
  {
    if a != [] {
      DotNone(a[..|a| - 1], x[..|x| - 1]);
    }
  }

  lemma {:induction false} DotOnly(a: Vec, x: Vec, i: nat)
    requires |a| == |x| && i < |a|
    requires forall j :: 0 <= j < |a| && j != i ==> a[j] == 0.0 || x[j] == 0.0
    ensures Dot(a, x) == a[i] * x[i]
  {
    var n := |a| - 1;
    if i == n {
      DotNone(a[..n], x[..n]);
    } else {
      DotOnly(a[..n], x[..n], i);
    }
  }

  lemma {:induction false} DotTwo(a: Vec, x: Vec, i: nat, k: nat)
    requires |a| == |x| && i < k < |a|
    requires forall j :: 0 <= j < |a| && j != i && j != k ==> a[j] == 0.0 || x[j] == 0.0
    ensures Dot(a, x) == a[i] * x[i] + a[k] * x[k]
  {
    var n := |a| - 1;
    if k == n {
      DotOnly(a[..n], x[..n], i);
    } else {
      DotTwo(a[..n], x[..n], i, k);
    }
  }

  lemma SquareZero(x: real)
    ensures x * x >= 0.0 && (x * x == 0.0 ==> x == 0.0)
  {
    if x != 0.0 {
      var q := 1.0 / x;
      assert q * x == 1.0;
      assert q * (x * x) == x;
    }
  }

  lemma {:induction false} DotSquareZero(a: Vec)
    requires Dot(a, a) == 0.0
    ensures forall j :: 0 <= j < |a| ==> a[j] == 0.0
  {
    if a != [] {
      var n := |a| - 1;
      DotSquareNonNegative(a[..n]);
      SquareZero(a[n]);
      DotSquareZero(a[..n]);
      assert forall j :: 0 <= j < n ==> a[..n][j] == a[j];
    }
  }

  // ---------------------------------------------------------------- the pivot of a column

  /** The size of the best pivot the elimination finds for column `c`. */
  function PivotSize(A: Mat, b: Vec, c: nat): real
    requires Rect(A, |b|, |b|) && c < |b|
  {
    var e := Eliminate(A, b, c);
    var p := BestPivot(e.M, e.used, c, |b|);
    if p < |b| then Abs(e.M[p][c]) else 0.0
  }

  lemma StepDependence(A: Mat, b: Vec, c: nat)
    requires Rect(A, |b|, |b|) && c < |b|
    ensures Eliminate(A, b, c + 1).dep ==
            Eliminate(A, b, c).dep + if PivotSize(A, b, c) <= TINY * MatScale(A) then {c} else {}
  {
    hide ClearColumn, BestPivot, MatScale;
    assert TINY * MatScale(A) >= 0.0;
  }

  /** Dependent columns stay what they are once looked at. */
  lemma {:induction false} DependentStays(A: Mat, b: Vec, c: nat, d: nat)
    requires Rect(A, |b|, |b|) && c < d <= |b|
    ensures c in Eliminate(A, b, d).dep <==> PivotSize(A, b, c) <= TINY * MatScale(A)
  {
    hide Eliminate, PivotSize, MatScale;
    StepDependence(A, b, d - 1);
    if d > c + 1 {
      DependentStays(A, b, c, d - 1);
    } else {
      EliminateReduces(A, b, c);
    }
  }

  lemma DependentIff(A: Mat, b: Vec, c: nat)
    requires Rect(A, |b|, |b|) && c < |b|
    ensures c in Solution(A, b).1 <==> PivotSize(A, b, c) <= TINY * MatScale(A)
  {
    hide Eliminate, Unknowns, PivotSize;
    DependentStays(A, b, c, |b|);
  }

  /** The columns before `c` that have a pivot. */
  lemma PivotalBefore(A: Mat, b: Vec, c: nat, p: nat)
    requires Rect(A, |b|, |b|) && c <= |b|
    ensures p in Eliminate(A, b, c).pivotRow <==> p < c && p !in Solution(A, b).1
  {
    hide Eliminate, Unknowns, PivotSize;
    EliminateReduces(A, b, c);
    if p < c {
      DependentStays(A, b, p, c);
      DependentIff(A, b, p);
    }
  }

  // ---------------------------------------------------------------- relations between columns

  /** `u` relates column `c` to earlier columns with a pivot. */
  ghost predicate Relates(A: Mat, b: Vec, c: nat, u: Vec)
    requires Rect(A, |b|, |b|) && c < |b| == |u|
  {
    && u[c] != 0.0
    && (forall j :: 0 <= j < |u| && u[j] != 0.0 ==> j == c || (j < c && j !in Solution(A, b).1))
    && forall i :: 0 <= i < |b| ==> Dot(A[i], u) == 0.0
  }

  lemma AugmentRelates(A: Mat, b: Vec, u: Vec)
    requires Rect(A, |b|, |b|) && |u| == |b|
    ensures Annihilates(Augment(A, b), u + [0.0]) <==> forall i :: 0 <= i < |b| ==> Dot(A[i], u) == 0.0
  {
    hide Dot;
    forall i | 0 <= i < |b| ensures Dot(Augment(A, b)[i], u + [0.0]) == Dot(A[i], u) {
      DotSnoc(A[i], b[i], u, 0.0);
    }
  }

  lemma SplitLast(row: Vec, u: Vec, n: nat)
    requires |row| == n + 1 && |u| == n
    ensures Dot(row, u + [0.0]) == Dot(row[..n], u)
  {
    assert row == row[..n] + [row[n]];
    DotSnoc(row[..n], row[n], u, 0.0);
  }

  /** The elimination just before column `c`, in the words of its pivots. */
  lemma BeforeColumn(A: Mat, b: Vec, c: nat)
    requires Rect(A, |b|, |b|) && c < |b|
    ensures var e, n := Eliminate(A, b, c), |b|;
            && (forall j :: j in e.pivotRow ==> j < c && e.pivotRow[j] in e.used && Unit(e.M, n, j, e.pivotRow[j]))
            && (forall r :: r in e.used ==> PivotsSome(e.pivotRow, r))
            && BestPivot(e.M, e.used, c, n) < n
  {
    hide Eliminate, Unit, PivotsSome, BestPivot;
    EliminateReduces(A, b, c);
    SomeRowIsFree(Eliminate(A, b, c), |b|, c);
  }

  /** A column related to earlier ones has nothing left to pivot on. */
  lemma RelatedHasNoPivot(A: Mat, b: Vec, c: nat, u: Vec)
    requires Rect(A, |b|, |b|) && c < |b| == |u| && Relates(A, b, c, u)
    ensures PivotSize(A, b, c) == 0.0
  {
    hide Eliminate, Unknowns, BestPivot, Dot, Unit;
    var e, n := Eliminate(A, b, c), |b|;
    BeforeColumn(A, b, c);
    AugmentRelates(A, b, u);
    EliminateKeeps(A, b, c, u + [0.0]);
    var r := BestPivot(e.M, e.used, c, n);
    var row := e.M[r][..n];
    SplitLast(e.M[r], u, n);
    forall j | 0 <= j < n && j != c ensures row[j] == 0.0 || u[j] == 0.0 {
      if u[j] != 0.0 {
        PivotalBefore(A, b, c, j);
        UnitAt(e.M, n, j, e.pivotRow[j], r);
      }
    }
    DotOnly(row, u, c);
  }

  lemma UnitAt(M: Mat, n: nat, j: nat, p: nat, r: nat)
    requires Rect(M, n, n + 1) && j < n && Unit(M, n, j, p) && r < n
    ensures M[r][j] != 0.0 <==> r == p
  {
  }

  /** A relation read off the pivot rows. */
  function RelationOf(e: Elim, n: nat, c: nat): (u: Vec)
    requires Rect(e.M, n, n + 1) && c < n
    ensures |u| == n
    ensures forall j :: 0 <= j < n ==> u[j] == RelationAt(e, n, c, j)
  {
    seq(n, j requires 0 <= j < n => RelationAt(e, n, c, j))
  }

  function RelationAt(e: Elim, n: nat, c: nat, j: nat): real
    requires Rect(e.M, n, n + 1) && c < n && j < n
  {
    if j == c then -1.0
    else if j in e.pivotRow && e.pivotRow[j] < n && e.M[e.pivotRow[j]][j] != 0.0
    then e.M[e.pivotRow[j]][c] / e.M[e.pivotRow[j]][j] else 0.0
  }

  /** Row `r` of the elimination is annihilated by the relation. */
  lemma RelationHolds(A: Mat, b: Vec, c: nat, r: nat)
    requires Rect(A, |b|, |b|) && c < |b| && r < |b| && PivotSize(A, b, c) == 0.0
    ensures Dot(Eliminate(A, b, c).M[r], RelationOf(Eliminate(A, b, c), |b|, c) + [0.0]) == 0.0
  {
    hide Eliminate, Dot, Unit, PivotsSome;
    var e, n := Eliminate(A, b, c), |b|;
    var u, row := RelationOf(e, n, c), e.M[r][..n];
    BeforeColumn(A, b, c);
    EliminateReduces(A, b, c);
    SplitLast(e.M[r], u, n);
    forall j | 0 <= j < n && j != c && !(j in e.pivotRow && e.pivotRow[j] == r) ensures row[j] == 0.0 || u[j] == 0.0 {
      if j in e.pivotRow {
        UnitAt(e.M, n, j, e.pivotRow[j], r);
      }
    }
    if r in e.used {
      var p := PivotColumn(e.pivotRow, r);
      UnitAt(e.M, n, p, r, r);
      forall j | 0 <= j < n && j != c && j != p ensures row[j] == 0.0 || u[j] == 0.0 {
        OtherColumn(e, n, c, p, j);
      }
      DotTwo(row, u, p, c);
      assert row[c] / row[p] * row[p] == row[c];
    } else {
      assert row[c] == 0.0;
      DotNone(row, u);
    }
  }

  lemma PivotColumn(pivotRow: map<nat, nat>, r: nat) returns (p: nat)
    requires PivotsSome(pivotRow, r)
    ensures p in pivotRow && pivotRow[p] == r
  {
    p :| p in pivotRow && pivotRow[p] == r;
  }

  lemma OtherColumn(e: Elim, n: nat, c: nat, p: nat, j: nat)
    requires Rect(e.M, n, n + 1) && Reduced(e, n, c) && p in e.pivotRow && j != p
    ensures !(j in e.pivotRow && e.pivotRow[j] == e.pivotRow[p])
  {
  }

  /** A column with nothing left to pivot on is related to earlier ones. */
  lemma NoPivotIsRelated(A: Mat, b: Vec, c: nat)
    requires Rect(A, |b|, |b|) && c < |b| && PivotSize(A, b, c) == 0.0
    ensures Relates(A, b, c, RelationOf(Eliminate(A, b, c), |b|, c))
  {
    hide Eliminate, Unknowns, Dot, PivotSize, Augment;
    var e, n := Eliminate(A, b, c), |b|;
    var u := RelationOf(e, n, c);
    forall r | 0 <= r < n ensures Dot(e.M[r], u + [0.0]) == 0.0 {
      RelationHolds(A, b, c, r);
    }
    EliminateKeeps(A, b, c, u + [0.0]);
    AugmentRelates(A, b, u);
    forall j | 0 <= j < n && u[j] != 0.0 ensures j == c || (j < c && j !in Solution(A, b).1) {
      if j != c {
        PivotalBefore(A, b, c, j);
      }
    }
  }

  // ---------------------------------------------------------------- relations between states

  /** The normal matrix annihilates exactly what the design matrix does. */
  lemma GramKernel(X: Mat, k: nat, u: Vec)
    requires Rect(X, |X|, k) && |u| == k
    ensures (forall p :: 0 <= p < k ==> Dot(Gram(X, k)[p], u) == 0.0) <==>
            (forall i :: 0 <= i < |X| ==> Dot(X[i], u) == 0.0)
  {
    hide Dot;
    var v := Apply(X, u);
    forall p | 0 <= p < k ensures Dot(Gram(X, k)[p], u) == Dot(v, Col(X, p)) {
      Adjoint(Col(X, p), X, u);
      DotCommutes(Col(X, p), v);
    }
    if forall p :: 0 <= p < k ==> Dot(Gram(X, k)[p], u) == 0.0 {
      forall p | 0 <= p < k ensures Comb(v, X, k)[p] == 0.0 {
        assert Dot(Gram(X, k)[p], u) == 0.0;
      }
      Adjoint(v, X, u);
      DotZero(Comb(v, X, k), u);
      DotSquareZero(v);
    }
    if forall i :: 0 <= i < |X| ==> Dot(X[i], u) == 0.0 {
      forall p | 0 <= p < k ensures Dot(Gram(X, k)[p], u) == 0.0 {
        DotZero(v, Col(X, p));
      }
    }
  }

  /** The size of the best pivot for state `j`. */
  function StatePivot(vs: Mat, ys: Vec, k: nat, j: nat): real
    requires vs != [] && Rect(vs, |ys|, k) && j < k
  {
    PivotSize(Gram(Design(vs, k), k), Comb(Centred(ys), Design(vs, k), k), j)
  }

  /** Over the points, state `j` is this affine combination of earlier states that were separated. */
  ghost predicate Combines(vs: Mat, ys: Vec, k: nat, j: nat, w: Vec, c: real)
    requires vs != [] && Rect(vs, |ys|, k) && j < k
  {
    && |w| == k
    && (forall p :: 0 <= p < k && w[p] != 0.0 ==> p < j && p !in AffineFit(vs, ys, k).dep)
    && forall i :: 0 <= i < |vs| ==> vs[i][j] == Plane(w, c, vs[i])
  }

  ghost predicate Collinear(vs: Mat, ys: Vec, k: nat, j: nat)
    requires vs != [] && Rect(vs, |ys|, k) && j < k
  {
    exists w, c :: Combines(vs, ys, k, j, w, c)
  }

  function Axis(k: nat, j: nat): (e: Vec)
    ensures |e| == k
    ensures forall p :: 0 <= p < k ==> e[p] == if p == j then 1.0 else 0.0
  {
    seq(k, p => if p == j then 1.0 else 0.0)
  }

  lemma DotAxis(k: nat, j: nat, v: Vec)
    requires j < k == |v|
    ensures Dot(Axis(k, j), v) == v[j]
  {
    DotSingle(Axis(k, j), v, j);
  }

  /** `u` relates the normal matrix's columns if and only if it does the scaled states'. */
  lemma RelatesStates(vs: Mat, ys: Vec, k: nat, j: nat, u: Vec)
    requires vs != [] && Rect(vs, |ys|, k) && j < k == |u|
    ensures var X := Design(vs, k);
            Relates(Gram(X, k), Comb(Centred(ys), X, k), j, u) <==>
            && u[j] != 0.0
            && (forall p :: 0 <= p < k && u[p] != 0.0 ==> p == j || (p < j && p !in AffineFit(vs, ys, k).dep))
            && forall i :: 0 <= i < |X| ==> Dot(X[i], u) == 0.0
  {
    hide Dot, Solution, Design, Centred, Means, Scales;
    GramKernel(Design(vs, k), k, u);
  }

  /** A plane that is 0 at every point relates the scaled states. */
  lemma FlatPlane(vs: Mat, k: nat, a: Vec, c: real, i: nat)
    requires vs != [] && Rect(vs, |vs|, k) && |a| == k && i < |vs|
    requires forall m :: 0 <= m < |vs| ==> Plane(a, c, vs[m]) == 0.0
    ensures Dot(Design(vs, k)[i], Rescale(a, Scales(vs, k))) == 0.0
  {
    hide Dot, Design, Centred, Scales, Mean, Plane;
    var zero := Fill(|vs|, 0.0);
    ExactCentred(vs, zero, k, a, c);
    ZeroCentred(|vs|);
    assert Apply(Design(vs, k), Rescale(a, Scales(vs, k)))[i] == 0.0;
  }

  lemma ZeroCentred(n: nat)
    requires n > 0
    ensures Centred(Fill(n, 0.0)) == Fill(n, 0.0)
  {
    SumFill(n, 0.0);
  }

  lemma CombinedPlane(w: Vec, c: real, j: nat, v: Vec)
    requires |w| == |v| && j < |v| && v[j] == Plane(w, c, v)
    ensures Plane(Minus(w, 1.0, Axis(|w|, j)), c, v) == 0.0
  {
    hide Dot;
    DotMinus(w, 1.0, Axis(|w|, j), v);
    DotAxis(|w|, j, v);
  }

  /** The coefficients of the relation that a combination is. */
  function Coefficients(w: Vec, j: nat, sc: Vec): (u: Vec)
    requires |w| == |sc| && j < |w|
    ensures |u| == |w|
  {
    Rescale(Minus(w, 1.0, Axis(|w|, j)), sc)
  }

  lemma CoefficientsAt(w: Vec, j: nat, sc: Vec, p: nat)
    requires |w| == |sc| && j < |w| && p < |w| && sc[p] > 0.0 && w[j] == 0.0
    ensures p == j ==> Coefficients(w, j, sc)[p] != 0.0
    ensures p != j && Coefficients(w, j, sc)[p] != 0.0 ==> w[p] != 0.0
  {
  }

  lemma CombinesRelates(vs: Mat, ys: Vec, k: nat, j: nat, w: Vec, c: real)
    requires vs != [] && Rect(vs, |ys|, k) && j < k && Combines(vs, ys, k, j, w, c)
    ensures var X := Design(vs, k);
            Relates(Gram(X, k), Comb(Centred(ys), X, k), j, Coefficients(w, j, Scales(vs, k)))
  {
    hide Plane, AffineFit, Design, Centred, Relates, Coefficients, Minus, ScaleOf, Mean;
    var sc := Scales(vs, k);
    var u := Coefficients(w, j, sc);
    forall i | 0 <= i < |vs| ensures Plane(Minus(w, 1.0, Axis(k, j)), c, vs[i]) == 0.0 {
      CombinedPlane(w, c, j, vs[i]);
    }
    forall i | 0 <= i < |vs| ensures Dot(Design(vs, k)[i], u) == 0.0 {
      FlatPlane(vs, k, Minus(w, 1.0, Axis(k, j)), c, i);
      CoefficientsAre(w, j, sc);
    }
    CoefficientsAt(w, j, sc, j);
    forall p | 0 <= p < k && u[p] != 0.0 ensures p == j || (p < j && p !in AffineFit(vs, ys, k).dep) {
      CoefficientsAt(w, j, sc, p);
    }
    RelatesStates(vs, ys, k, j, u);
  }

  lemma CoefficientsAre(w: Vec, j: nat, sc: Vec)
    requires |w| == |sc| && j < |w|
    ensures Coefficients(w, j, sc) == Rescale(Minus(w, 1.0, Axis(|w|, j)), sc)
  {
  }

  /** A relation solved for its state `j`. */
  function SolvedFor(u: Vec, j: nat, sc: Vec): (w: Vec)
    requires |u| == |sc| && j < |u| && u[j] != 0.0 && forall p :: 0 <= p < |sc| ==> sc[p] > 0.0
    ensures |w| == |u|
  {
    Minus(Axis(|u|, j), sc[j] / u[j], Unscale(u, sc))
  }

  lemma SolvedForAt(u: Vec, j: nat, sc: Vec, p: nat)
    requires |u| == |sc| && j < |u| && u[j] != 0.0 && forall q :: 0 <= q < |sc| ==> sc[q] > 0.0
    requires p < |u| && SolvedFor(u, j, sc)[p] != 0.0
    ensures p != j && u[p] != 0.0
  {
    assert sc[j] / u[j] * (u[j] / sc[j]) == 1.0 by {
      Reciprocal(u[j], sc[j]);
    }
  }

  lemma Reciprocal(x: real, y: real)
    requires x != 0.0 && y != 0.0
    ensures y / x * (x / y) == 1.0
  {
    assert y / x * (x / y) == y / x * x / y;
  }

  lemma SolvedForIs(u: Vec, j: nat, sc: Vec)
    requires |u| == |sc| && j < |u| && u[j] != 0.0 && forall p :: 0 <= p < |sc| ==> sc[p] > 0.0
    ensures SolvedFor(u, j, sc) == Minus(Axis(|u|, j), sc[j] / u[j], Unscale(u, sc))
  {
  }

  function Product(f: real, d: real): real { f * d }

  lemma SolvedPlane(a: Vec, f: real, j: nat, v: Vec, d: real)
    requires |a| == |v| && j < |v| && Dot(a, v) == d
    ensures v[j] == Plane(Minus(Axis(|a|, j), f, a), Product(f, d), v)
  {
    hide Dot, Axis;
    DotMinus(Axis(|a|, j), f, a, v);
    DotAxis(|a|, j, v);
  }

  /** A scaled relation at a point, in unscaled states. */
  lemma UnscaledAt(vs: Mat, k: nat, u: Vec, i: nat)
    requires vs != [] && Rect(vs, |vs|, k) && k == |u| && i < |vs| && Dot(Design(vs, k)[i], u) == 0.0
    ensures var a := Unscale(u, Scales(vs, k)); Dot(a, vs[i]) == Dot(a, Means(vs, k))
  {
    hide Dot, Design, Means, ScaleOf, Mean, Unscale, Rescale;
    RescaleUnscale(u, Scales(vs, k));
    PlaneScaled(vs, k, Unscale(u, Scales(vs, k)), 0.0, i);
  }

  lemma RelatesAt(vs: Mat, ys: Vec, k: nat, j: nat, u: Vec, p: nat)
    requires vs != [] && Rect(vs, |ys|, k) && j < k == |u| && p < k && p != j && u[p] != 0.0
    requires Relates(Gram(Design(vs, k), k), Comb(Centred(ys), Design(vs, k), k), j, u)
    ensures p < j && p !in AffineFit(vs, ys, k).dep
  {
    hide Dot, Solution, Design, Centred, Means, Scales, Gram, Comb;
  }

  lemma RelatesCombines(vs: Mat, ys: Vec, k: nat, j: nat, u: Vec)
    requires vs != [] && Rect(vs, |ys|, k) && j < k == |u|
    requires Relates(Gram(Design(vs, k), k), Comb(Centred(ys), Design(vs, k), k), j, u)
    ensures Collinear(vs, ys, k, j)
  {
    hide Plane, AffineFit, Design, Centred, Means, ScaleOf, Relates, Mean, SolvedFor, Dot, Product;
    RelatesStates(vs, ys, k, j, u);
    var sc := Scales(vs, k);
    var w, c := SolvedFor(u, j, sc), Product(sc[j] / u[j], Dot(Unscale(u, sc), Means(vs, k)));
    forall p: nat | p < k && w[p] != 0.0 ensures p < j && p !in AffineFit(vs, ys, k).dep {
      SolvedForAt(u, j, sc, p);
      RelatesAt(vs, ys, k, j, u, p);
    }
    forall i | 0 <= i < |vs| ensures vs[i][j] == Plane(w, c, vs[i]) {
      UnscaledAt(vs, k, u, i);
      SolvedPlane(Unscale(u, sc), sc[j] / u[j], j, vs[i], Dot(Unscale(u, sc), Means(vs, k)));
      SolvedForIs(u, j, sc);
    }
    assert Combines(vs, ys, k, j, w, c);
  }

  /** No pivot at all is left for a state exactly if it is a combination of earlier separated ones. */
  lemma CollinearIff(vs: Mat, ys: Vec, k: nat, j: nat)
    requires vs != [] && Rect(vs, |ys|, k) && j < k
    ensures StatePivot(vs, ys, k, j) == 0.0 <==> Collinear(vs, ys, k, j)
  {
    hide Relates, Combines, Solution, Eliminate, Design, Gram, Comb, Centred, PivotSize;
    var X := Design(vs, k);
    var A, b := Gram(X, k), Comb(Centred(ys), X, k);
    if Collinear(vs, ys, k, j) {
      var w, c :| Combines(vs, ys, k, j, w, c);
      CombinesRelates(vs, ys, k, j, w, c);
      CombinesSize(vs, ys, k, j, w, c);
      RelatedHasNoPivot(A, b, j, Coefficients(w, j, Scales(vs, k)));
    }
    if StatePivot(vs, ys, k, j) == 0.0 {
      NoPivotIsRelated(A, b, j);
      RelatesCombines(vs, ys, k, j, RelationOf(Eliminate(A, b, j), |b|, j));
    }
  }

  lemma CombinesSize(vs: Mat, ys: Vec, k: nat, j: nat, w: Vec, c: real)
    requires vs != [] && Rect(vs, |ys|, k) && j < k && Combines(vs, ys, k, j, w, c)
    ensures |w| == k
  {
  }

  /** Such a state is always reported. */
  lemma CollinearIsDependent(vs: Mat, ys: Vec, k: nat, j: nat)
    requires vs != [] && Rect(vs, |ys|, k) && j < k && Collinear(vs, ys, k, j)
    ensures j in AffineFit(vs, ys, k).dep
  {
    hide Collinear, Solution, Design, Gram, Comb, Centred, PivotSize, MatScale;
    CollinearIff(vs, ys, k, j);
    var X := Design(vs, k);
    DependentIff(Gram(X, k), Comb(Centred(ys), X, k), j);
  }

  // ---------------------------------------------------------------- the best plane all the same

  /** Every dependent column had no pivot at all. */
  predicate NoneTiny(A: Mat, b: Vec)
    requires Rect(A, |b|, |b|)
  {
    forall c :: 0 <= c < |b| && c in Solution(A, b).1 ==> PivotSize(A, b, c) == 0.0
  }

  /** Dependent columns so far are 0 in every row that has not been used. */
  ghost predicate FreeRowsBare(e: Elim, n: nat)
    requires Rect(e.M, n, n + 1)
  {
    forall r, d :: 0 <= r < n && r !in e.used && d in e.dep && d < n ==> e.M[r][d] == 0.0
  }

  lemma {:induction false} FreeRows(A: Mat, b: Vec, c: nat)
    requires Rect(A, |b|, |b|) && c <= |b| && NoneTiny(A, b)
    ensures FreeRowsBare(Eliminate(A, b, c), |b|)
  {
    hide NoneTiny, FreeRowsBare, Eliminate;
    if c == 0 {
      NoRows(A, b);
    } else {
      FreeRows(A, b, c - 1);
      FreeStep(A, b, c - 1);
    }
  }

  lemma NoRows(A: Mat, b: Vec)
    requires Rect(A, |b|, |b|)
    ensures FreeRowsBare(Eliminate(A, b, 0), |b|)
  {
  }

  lemma FreeStep(A: Mat, b: Vec, c: nat)
    requires Rect(A, |b|, |b|) && c < |b| && NoneTiny(A, b) && FreeRowsBare(Eliminate(A, b, c), |b|)
    ensures FreeRowsBare(Eliminate(A, b, c + 1), |b|)
  {
    hide Eliminate, Cleared, Solution, BestPivot;
    var e, n := Eliminate(A, b, c), |b|;
    DependentIff(A, b, c);
    StepIs(A, b, c);
    BeforeColumn(A, b, c);
    var piv := BestPivot(e.M, e.used, c, n);
    if Abs(e.M[piv][c]) > TINY * MatScale(A) {
      assert TINY * MatScale(A) >= 0.0;
      forall r, d | 0 <= r < n && r !in e.used + {piv} && d in e.dep && d < n
        ensures Cleared(e.M, r, piv, c)[d] == 0.0
      {
        ClearedKeepsZero(e.M, r, piv, c, d);
      }
    }
  }

  lemma StepIs(A: Mat, b: Vec, c: nat)
    requires Rect(A, |b|, |b|) && c < |b|
    ensures Eliminate(A, b, c + 1) == ColumnStep(Eliminate(A, b, c), c, |b|, MatScale(A))
  {
  }

  /** Every row of the elimination is a combination of the rows it started from. */
  lemma {:induction false} RowIsCombination(A: Mat, b: Vec, c: nat, r: nat) returns (w: Vec)
    requires Rect(A, |b|, |b|) && c <= |b| && r < |b|
    ensures |w| == |b|
    ensures forall j :: 0 <= j <= |b| ==> Eliminate(A, b, c).M[r][j] == Dot(w, Col(Augment(A, b), j))
  {
    hide Dot, Eliminate, Cleared, BestPivot, MatScale;
    var aug, n := Augment(A, b), |b|;
    if c == 0 {
      w := Axis(n, r);
      forall j | 0 <= j <= n ensures aug[r][j] == Dot(w, Col(aug, j)) {
        DotAxis(n, r, Col(aug, j));
      }
      StartIs(A, b);
    } else {
      var e := Eliminate(A, b, c - 1);
      var piv := BestPivot(e.M, e.used, c - 1, n);
      w := RowIsCombination(A, b, c - 1, r);
      StepIs(A, b, c - 1);
      if piv < n && Abs(e.M[piv][c - 1]) > TINY * MatScale(A) {
        assert TINY * MatScale(A) >= 0.0;
        var wp := RowIsCombination(A, b, c - 1, piv);
        w := ClearedCombination(e.M, r, piv, c - 1, w, wp, aug);
      }
    }
  }

  lemma StartIs(A: Mat, b: Vec)
    requires Rect(A, |b|, |b|)
    ensures Eliminate(A, b, 0) == Elim(Augment(A, b), map[], {}, {})
  {
  }

  lemma ClearedCombination(M: Mat, r: nat, piv: nat, c: nat, w: Vec, wp: Vec, aug: Mat) returns (w': Vec)
    requires r < |M| && piv < |M| && |M[r]| == |M[piv]| && c < |M[piv]| && M[piv][c] != 0.0
    requires |w| == |wp| == |aug| && Rect(aug, |aug|, |M[r]|)
    requires forall j :: 0 <= j < |M[r]| ==> M[r][j] == Dot(w, Col(aug, j)) && M[piv][j] == Dot(wp, Col(aug, j))
    ensures |w'| == |w| && forall j :: 0 <= j < |M[r]| ==> Cleared(M, r, piv, c)[j] == Dot(w', Col(aug, j))
  {
    hide Dot;
    if r != piv && M[r][c] != 0.0 {
      var f := M[r][c] / M[piv][c];
      w' := Minus(w, f, wp);
      forall j | 0 <= j < |M[r]| ensures Less(M[r][j], f, M[piv][j]) == Dot(w', Col(aug, j)) {
        DotMinus(w, f, wp, Col(aug, j));
      }
    } else {
      w' := w;
    }
  }

  lemma GramSymmetric(X: Mat, k: nat, b: Vec, j: nat)
    requires Rect(X, |X|, k) && |b| == k && j < k
    ensures Col(Augment(Gram(X, k), b), j) == Gram(X, k)[j] && Col(Augment(Gram(X, k), b), k) == b
  {
    hide Dot;
    forall i | 0 <= i < k ensures Gram(X, k)[i][j] == Gram(X, k)[j][i] {
      DotCommutes(Col(X, i), Col(X, j));
    }
  }

  /** A combination of normal equations without a left side has no right side either. */
  lemma BareCombination(X: Mat, k: nat, z: Vec, w: Vec)
    requires Rect(X, |z|, k) && |w| == k && forall j :: 0 <= j < k ==> Dot(w, Gram(X, k)[j]) == 0.0
    ensures Dot(w, Comb(z, X, k)) == 0.0
  {
    hide Dot;
    forall j | 0 <= j < k ensures Dot(Gram(X, k)[j], w) == 0.0 {
      DotCommutes(Gram(X, k)[j], w);
    }
    GramKernel(X, k, w);
    Adjoint(z, X, w);
    DotCommutes(z, Apply(X, w));
    DotZero(Apply(X, w), z);
    DotCommutes(w, Comb(z, X, k));
  }

  /** At the end a row without a pivot is 0 throughout. */
  lemma FreeRowIsZero(X: Mat, k: nat, z: Vec, r: nat)
    requires Rect(X, |z|, k) && r < k && NoneTiny(Gram(X, k), Comb(z, X, k))
    requires r !in Eliminate(Gram(X, k), Comb(z, X, k), k).used
    ensures forall j :: 0 <= j <= k ==> Eliminate(Gram(X, k), Comb(z, X, k), k).M[r][j] == 0.0
  {
    hide Dot, Eliminate, Gram, Comb, Unit, NoneTiny, Augment;
    var A, b := Gram(X, k), Comb(z, X, k);
    var e := Eliminate(A, b, k);
    EliminateReduces(A, b, k);
    FreeRows(A, b, k);
    var w := RowIsCombination(A, b, k, r);
    forall j | 0 <= j < k ensures e.M[r][j] == 0.0 && Dot(w, A[j]) == 0.0 {
      GramSymmetric(X, k, b, j);
      if j in e.pivotRow {
        UnitAt(e.M, k, j, e.pivotRow[j], r);
      }
    }
    BareCombination(X, k, z, w);
    GramSymmetric(X, k, b, 0);
  }

  lemma UnknownOf(e: Elim, n: nat, c: nat)
    requires Rect(e.M, n, n + 1) && Reduced(e, n, n) && c < n
    ensures c !in e.pivotRow ==> Unknown(e, c, n) == 0.0
    ensures c in e.pivotRow ==>
              var row := e.M[e.pivotRow[c]]; row[c] != 0.0 && Unknown(e, c, n) == row[n] / row[c]
  {
    if c in e.pivotRow {
      UnitAt(e.M, n, c, e.pivotRow[c], e.pivotRow[c]);
    }
  }

  /** A pivot row is solved, the dependent unknowns being 0. */
  lemma PivotRowDot(e: Elim, n: nat, c: nat)
    requires Rect(e.M, n, n + 1) && Reduced(e, n, n) && c in e.pivotRow
    ensures e.pivotRow[c] < n && Dot(e.M[e.pivotRow[c]], Unknowns(e, n) + [-1.0]) == 0.0
  {
    hide Dot, Unknown, Reduced;
    PivotColumnBelow(e, n, c);
    PivotRowBelow(e, n, c);
    var row, x := e.M[e.pivotRow[c]], Unknowns(e, n);
    UnknownOf(e, n, c);
    forall j | 0 <= j < n && j != c ensures row[..n][j] == 0.0 || x[j] == 0.0 {
      UnknownOf(e, n, j);
      if j in e.pivotRow {
        OtherEntry(e, n, c, j);
      }
    }
    assert row == row[..n] + [row[n]];
    DotSnoc(row[..n], row[n], x, -1.0);
    assert row[n] * -1.0 == -row[n];
    DotOnly(row[..n], x, c);
    assert row[..n][c] == row[c] && x[c] == row[n] / row[c];
    Divides(row[c], x[c], row[n]);
    assert Dot(row, x + [-1.0]) == row[c] * x[c] - row[n];
  }

  lemma PivotRowBelow(e: Elim, n: nat, c: nat)
    requires Rect(e.M, n, n + 1) && Reduced(e, n, n) && c in e.pivotRow
    ensures e.pivotRow[c] < n
  {
  }

  lemma OtherEntry(e: Elim, n: nat, c: nat, j: nat)
    requires Rect(e.M, n, n + 1) && Reduced(e, n, n) && c in e.pivotRow && e.pivotRow[c] < n
    requires j != c && j in e.pivotRow
    ensures j < n && e.M[e.pivotRow[c]][j] == 0.0
  {
    OtherColumn(e, n, n, c, j);
    UnitAt(e.M, n, j, e.pivotRow[j], e.pivotRow[c]);
  }

  lemma PivotRowHolds(A: Mat, b: Vec, r: nat)
    requires Rect(A, |b|, |b|) && r < |b| && r in Eliminate(A, b, |b|).used
    ensures Dot(Eliminate(A, b, |b|).M[r], Solution(A, b).0 + [-1.0]) == 0.0
  {
    hide Dot, Eliminate, Unknown, ColumnsOk, PivotsSome;
    var e := Eliminate(A, b, |b|);
    EliminateReduces(A, b, |b|);
    var c := PivotColumn(e.pivotRow, r);
    PivotRowDot(e, |b|, c);
  }

  /** With no dependent column but such as had no pivot at all, the answer solves the normal equations. */
  lemma NormalEquationsHold(X: Mat, k: nat, z: Vec)
    requires Rect(X, |z|, k) && NoneTiny(Gram(X, k), Comb(z, X, k))
    ensures SolvesSystem(Gram(X, k), Comb(z, X, k), Solution(Gram(X, k), Comb(z, X, k)).0)
  {
    hide Dot, Eliminate, Gram, Comb, NoneTiny, Augment, SolvesSystem, Solution;
    var A, b := Gram(X, k), Comb(z, X, k);
    var x := Solution(A, b).0;
    forall r | 0 <= r < k ensures Dot(Eliminate(A, b, k).M[r], x + [-1.0]) == 0.0 {
      if r in Eliminate(A, b, k).used {
        PivotRowHolds(A, b, r);
      } else {
        FreeRowIsZero(X, k, z, r);
        DotZero(Eliminate(A, b, k).M[r], x + [-1.0]);
      }
    }
    EliminateSolves(A, b, k, x);
    AugmentSolves(A, b, x);
  }

  /** Every reported state is a combination of earlier separated ones: none was merely close to it. */
  ghost predicate OnlyCollinear(vs: Mat, ys: Vec, k: nat)
    requires vs != [] && Rect(vs, |ys|, k)
  {
    forall j :: 0 <= j < k && j in AffineFit(vs, ys, k).dep ==> Collinear(vs, ys, k, j)
  }

  /** Then no plane has a smaller squared error than the fitted one, and its residuals are orthogonal to every state. */
  lemma DependentFitIsOptimal(vs: Mat, ys: Vec, k: nat, a: Vec, c: real)
    requires vs != [] && Rect(vs, |ys|, k) && |a| == k && OnlyCollinear(vs, ys, k)
    ensures var f := AffineFit(vs, ys, k);
            && SquaredError(vs, ys, f.a, f.c) <= SquaredError(vs, ys, a, c)
            && forall p :: 0 <= p < k ==> Comb(Residuals(vs, ys, f.a, f.c), Design(vs, k), k)[p] == 0.0
  {
    hide Collinear, Solution, Design, Gram, Comb, Centred, SquaredError, SolvesSystem, Residuals;
    var X := Design(vs, k);
    var A, b := Gram(X, k), Comb(Centred(ys), X, k);
    forall j | 0 <= j < k && j in Solution(A, b).1 ensures PivotSize(A, b, j) == 0.0 {
      assert j in AffineFit(vs, ys, k).dep;
      CollinearIff(vs, ys, k, j);
    }
    NormalEquationsHold(X, k, Centred(ys));
    SolvedIsOptimal(vs, ys, k, a, c);
    SolvedIsOrthogonal(vs, ys, k);
  }
}
