/**
 When a state is reported as dependent at all: exactly when what is left of it, after the
 combination of earlier separated states that the elimination takes off, is negligible next to
 every state.
 */
module Separation {
  import opened Vectors
  import opened GaussJordan
  import opened LeastSquares
  import opened Dependence

  // ---------------------------------------------------------------- the largest entry

  lemma {:induction false} RowMaxIs(row: Vec, m: real, x: real)
    ensures RowMax(row, m) <= x <==> m <= x && forall j :: 0 <= j < |row| ==> Abs(row[j]) <= x
  {
    if row != [] {
      var n := |row| - 1;
      RowMaxIs(row[..n], m, x);
      assert forall j :: 0 <= j < n ==> row[..n][j] == row[j];
    }
  }

  /** Every entry of the matrix, and 1, is at most `x`. */
  predicate Covered(A: Mat, x: real) {
    1.0 <= x && forall i, j :: 0 <= i < |A| && 0 <= j < |A[i]| ==> Abs(A[i][j]) <= x
  }

  lemma {:induction false} ScaleCovers(A: Mat, x: real)
    ensures MatScale(A) <= x <==> Covered(A, x)
  {
    hide RowMax, Abs;
    if A != [] {
      var n := |A| - 1;
      ScaleCovers(A[..n], x);
      RowMaxIs(A[n], MatScale(A[..n]), x);
      assert forall i :: 0 <= i < n ==> A[..n][i] == A[i];
    }
  }

  /** The scale is the least number that 1 and every entry are at most. */
  lemma ScaleIsLeast(A: Mat)
    ensures Covered(A, MatScale(A)) && forall x :: Covered(A, x) ==> MatScale(A) <= x
  {
    hide Covered;
    ScaleCovers(A, MatScale(A));
    forall x | Covered(A, x) ensures MatScale(A) <= x {
      ScaleCovers(A, x);
    }
  }

  // ---------------------------------------------------------------- what is left of a column

  /** Where the used rows vanish on `y`, no row's product with `y` was changed by clearing. */
  lemma {:induction false} UsedRowsVanish(A: Mat, b: Vec, c: nat, y: Vec)
    requires Rect(A, |b|, |b|) && c <= |b| && |y| == |b| + 1
    requires forall r :: r in Eliminate(A, b, c).used && r < |b| ==> Dot(Eliminate(A, b, c).M[r], y) == 0.0
    ensures forall r :: 0 <= r < |b| ==> Dot(Augment(A, b)[r], y) == Dot(Eliminate(A, b, c).M[r], y)
  {
    hide Eliminate, Dot, Cleared, BestPivot, MatScale, Augment;
    if c == 0 {
      StartIs(A, b);
    } else {
      var e, n := Eliminate(A, b, c - 1), |b|;
      StepIs(A, b, c - 1);
      var piv := BestPivot(e.M, e.used, c - 1, n);
      if piv < n && Abs(e.M[piv][c - 1]) > TINY * MatScale(A) {
        assert TINY * MatScale(A) >= 0.0;
        PivotVanishes(e.M, piv, c - 1, y);
        forall r | 0 <= r < n ensures Dot(Cleared(e.M, r, piv, c - 1), y) == Dot(e.M[r], y) {
          ClearedDot(e.M, r, piv, c - 1, y);
        }
      }
      UsedRowsVanish(A, b, c - 1, y);
    }
  }

  lemma PivotVanishes(M: Mat, piv: nat, c: nat, y: Vec)
    requires Rect(M, |M|, |y|) && piv < |M| && c < |y| && M[piv][c] != 0.0
    requires Dot(ClearColumn(M, piv, c, |y|)[piv], y) == 0.0
    ensures Dot(M[piv], y) == 0.0
  {
    hide Dot;
  }

  /** The relation read off before column `c`: a used row vanishes on it, any other gives its entry there. */
  lemma RelationAtRow(A: Mat, b: Vec, c: nat, r: nat)
    requires Rect(A, |b|, |b|) && c < |b| && r < |b|
    ensures var e := Eliminate(A, b, c);
            Dot(e.M[r], RelationOf(e, |b|, c) + [0.0]) == if r in e.used then 0.0 else -e.M[r][c]
  {
    hide Eliminate, Dot, Unit, PivotsSome;
    var e, n := Eliminate(A, b, c), |b|;
    var u, row := RelationOf(e, n, c), e.M[r][..n];
    BeforeColumn(A, b, c);
    EliminateReduces(A, b, c);
    SplitLast(e.M[r], u, n);
    forall j | 0 <= j < n && j != c && !(j in e.pivotRow && e.pivotRow[j] == r) ensures row[j] == 0.0 || u[j] == 0.0 {
      if j in e.pivotRow {
        UnitAt(e.M, n, j, e.pivotRow[j], r);
      }
    }
    if r in e.used {
      var p := PivotColumn(e.pivotRow, r);
      UnitAt(e.M, n, p, r, r);
      forall j | 0 <= j < n && j != c && j != p ensures row[j] == 0.0 || u[j] == 0.0 {
        OtherColumn(e, n, c, p, j);
      }
      DotTwo(row, u, p, c);
      assert row[c] / row[p] * row[p] == row[c];
    } else {
      DotOnly(row, u, c);
    }
  }

  /** The product of each row with the relation is at most `x` exactly if the best pivot is. */
  lemma PivotIsLargest(A: Mat, b: Vec, c: nat, x: real)
    requires Rect(A, |b|, |b|) && c < |b| && x >= 0.0
    ensures var u := RelationOf(Eliminate(A, b, c), |b|, c);
            PivotSize(A, b, c) <= x <==> forall r :: 0 <= r < |b| ==> Abs(Dot(A[r], u)) <= x
  {
    hide Eliminate, Dot, RelationOf;
    var e, n := Eliminate(A, b, c), |b|;
    var u := RelationOf(e, n, c);
    BeforeColumn(A, b, c);
    forall r | 0 <= r < n ensures Dot(e.M[r], u + [0.0]) == if r in e.used then 0.0 else -e.M[r][c] {
      RelationAtRow(A, b, c, r);
    }
    UsedRowsVanish(A, b, c, u + [0.0]);
    forall r | 0 <= r < n ensures Dot(A[r], u) == if r in e.used then 0.0 else -e.M[r][c] {
      DotSnoc(A[r], b[r], u, 0.0);
    }
    var p := BestPivot(e.M, e.used, c, n);
    assert Abs(Dot(A[p], u)) == Abs(e.M[p][c]);
  }

  /** A combination of column `c` and earlier separated ones that vanishes in as many rows as there are of these. */
  ghost predicate Left(A: Mat, b: Vec, c: nat, u: Vec, rows: set<nat>)
    requires Rect(A, |b|, |b|) && c < |b| == |u|
  {
    && u[c] == -1.0
    && (forall j :: 0 <= j < |u| && u[j] != 0.0 ==> j == c || (j < c && j !in Solution(A, b).1))
    && (forall r :: r in rows ==> r < |b| && Dot(A[r], u) == 0.0)
    && |rows| == |set j: nat | j < c && j !in Solution(A, b).1|
  }

  lemma SeparatedBefore(A: Mat, b: Vec, c: nat)
    requires Rect(A, |b|, |b|) && c <= |b|
    ensures |Eliminate(A, b, c).used| == |set j: nat | j < c && j !in Solution(A, b).1|
  {
    hide Eliminate, Unknowns, Unit, Solution, PivotsSome;
    var e := Eliminate(A, b, c);
    EliminateReduces(A, b, c);
    forall j: nat | j < c ensures j in e.dep <==> j in Solution(A, b).1 {
      PivotalBefore(A, b, c, j);
    }
    var some := set j: nat | j < c && j !in Solution(A, b).1;
    assert some + e.dep == Range(c);
    assert |some + e.dep| == |some| + |e.dep|;
  }

  lemma RelationIsLeft(A: Mat, b: Vec, c: nat)
    requires Rect(A, |b|, |b|) && c < |b|
    ensures Left(A, b, c, RelationOf(Eliminate(A, b, c), |b|, c), Eliminate(A, b, c).used)
  {
    hide Eliminate, Dot, Solution, PivotsSome, Unit, Range;
    var e, n := Eliminate(A, b, c), |b|;
    var u := RelationOf(e, n, c);
    BeforeColumn(A, b, c);
    UsedBelow(A, b, c);
    forall r | 0 <= r < n ensures Dot(e.M[r], u + [0.0]) == if r in e.used then 0.0 else -e.M[r][c] {
      RelationAtRow(A, b, c, r);
    }
    UsedRowsVanish(A, b, c, u + [0.0]);
    forall r | r in e.used ensures Dot(A[r], u) == 0.0 {
      DotSnoc(A[r], b[r], u, 0.0);
    }
    forall j | 0 <= j < n && u[j] != 0.0 ensures j == c || (j < c && j !in Solution(A, b).1) {
      PivotalBefore(A, b, c, j);
    }
    SeparatedBefore(A, b, c);
  }

  lemma UsedBelow(A: Mat, b: Vec, c: nat)
    requires Rect(A, |b|, |b|) && c <= |b|
    ensures forall r :: r in Eliminate(A, b, c).used ==> r < |b|
  {
    hide Eliminate, Unit, PivotsSome;
    EliminateReduces(A, b, c);
  }

  /** Every product of a row with `u` is at most a billionth of 1, or of some entry of the matrix. */
  ghost predicate Negligible(A: Mat, u: Vec)
    requires Rect(A, |u|, |u|)
  {
    forall r, x :: 0 <= r < |u| && Covered(A, x) ==> Abs(Dot(A[r], u)) <= 0.000000001 * x
  }

  /** A column is dependent if and only if what is left of it is negligible in every row. */
  lemma DependentMeans(A: Mat, b: Vec, c: nat) returns (u: Vec, rows: set<nat>)
    requires Rect(A, |b|, |b|) && c < |b|
    ensures |u| == |b| && Left(A, b, c, u, rows)
    ensures c in Solution(A, b).1 <==> Negligible(A, u)
  {
    hide Eliminate, Dot, Solution, Left, RelationOf, PivotSize, Covered, Abs;
    u, rows := RelationOf(Eliminate(A, b, c), |b|, c), Eliminate(A, b, c).used;
    RelationIsLeft(A, b, c);
    DependentIff(A, b, c);
    ScaleIsLeast(A);
    var scale := MatScale(A);
    PivotIsLargest(A, b, c, 0.000000001 * scale);
    if c in Solution(A, b).1 {
      forall r, x | 0 <= r < |u| && Covered(A, x) ensures Abs(Dot(A[r], u)) <= 0.000000001 * x {
        assert scale <= x;
      }
    }
  }

  // ---------------------------------------------------------------- said of states

  /** The scaled state `j`, less the combination of earlier separated ones; its sign is turned. */
  ghost predicate Leftover(vs: Mat, ys: Vec, k: nat, j: nat, u: Vec, rest: Vec, rows: set<nat>)
    requires vs != [] && Rect(vs, |ys|, k) && j < k
  {
    && |u| == k && u[j] == -1.0 && rest == Apply(Design(vs, k), u)
    && (forall p :: 0 <= p < k && u[p] != 0.0 ==> p == j || (p < j && p !in AffineFit(vs, ys, k).dep))
    && (forall r :: r in rows ==> r < k && Dot(Col(Design(vs, k), r), rest) == 0.0)
    && |rows| == |set p: nat | p < j && p !in AffineFit(vs, ys, k).dep|
  }

  /** 1, and the inner product of any two scaled states, is at most `x`. */
  ghost predicate Bounds(vs: Mat, k: nat, x: real)
    requires vs != [] && Rect(vs, |vs|, k)
  {
    1.0 <= x && forall p, q :: 0 <= p < k && 0 <= q < k ==>
                  Abs(Dot(Col(Design(vs, k), p), Col(Design(vs, k), q))) <= x
  }

  lemma GramBounds(vs: Mat, k: nat, x: real)
    requires vs != [] && Rect(vs, |vs|, k)
    ensures Covered(Gram(Design(vs, k), k), x) <==> Bounds(vs, k, x)
  {
    hide Dot, Design, Abs;
    var X := Design(vs, k);
    forall p, q | 0 <= p < k && 0 <= q < k ensures Gram(X, k)[p][q] == Dot(Col(X, p), Col(X, q)) {
    }
  }

  lemma GramTimes(X: Mat, k: nat, u: Vec, r: nat)
    requires Rect(X, |X|, k) && |u| == k && r < k
    ensures Dot(Gram(X, k)[r], u) == Dot(Col(X, r), Apply(X, u))
  {
    hide Dot;
    Adjoint(Col(X, r), X, u);
  }

  /**
   A state is reported as dependent if and only if what the elimination leaves of it has, with every
   scaled state, an inner product of at most a billionth of 1 or of the largest there is between two.
   */
  lemma StateIsDependentIff(vs: Mat, ys: Vec, k: nat, j: nat) returns (u: Vec, rest: Vec, rows: set<nat>)
    requires vs != [] && Rect(vs, |ys|, k) && j < k
    ensures Leftover(vs, ys, k, j, u, rest, rows)
    ensures |rest| == |vs|
    ensures j in AffineFit(vs, ys, k).dep <==>
            forall r, x :: 0 <= r < k && Bounds(vs, k, x) ==>
              Abs(Dot(Col(Design(vs, k), r), rest)) <= 0.000000001 * x
  {
    hide Dot, Design, Gram, Comb, Centred, Solution, Covered, Bounds, Abs, Scales, Means, Mean;
    var X := Design(vs, k);
    var A, b := Gram(X, k), Comb(Centred(ys), X, k);
    u, rows := DependentMeans(A, b, j);
    rest := Apply(X, u);
    var dep := AffineFit(vs, ys, k).dep;
    assert dep == Solution(A, b).1;
    assert (set p: nat | p < j && p !in dep) == (set p: nat | p < j && p !in Solution(A, b).1);
    forall r: nat | r < k ensures Dot(A[r], u) == Dot(Col(X, r), rest) {
      GramTimes(X, k, u, r);
    }
    forall x ensures Covered(A, x) <==> Bounds(vs, k, x) {
      GramBounds(vs, k, x);
    }
  }

  // ---------------------------------------------------------------- one state

  lemma {:induction false} SquareAtLeast(a: Vec, i: nat)
    requires i < |a|
    ensures Dot(a, a) >= a[i] * a[i]
  {
    var n := |a| - 1;
    DotSquareNonNegative(a[..n]);
    if i < n {
      SquareAtLeast(a[..n], i);
      SquareZero(a[n]);
    }
  }

  lemma UnitQuotient(x: real, s: real)
    requires s > 0.0 && Abs(x) == s
    ensures x / s * (x / s) == 1.0
  {
    if x == s {
      assert x / s == 1.0;
    } else {
      assert x == -1.0 * s;
      assert x / s == -1.0;
    }
  }

  /** A scaled state that is not the same everywhere is somewhere 1 or -1. */
  lemma ScaledIsLong(vs: Mat, k: nat, j: nat, h: nat)
    requires vs != [] && Rect(vs, |vs|, k) && j < k && h < |vs| && vs[h][j] != vs[0][j]
    ensures Dot(Col(Design(vs, k), j), Col(Design(vs, k), j)) >= 1.0
  {
    hide Dot, Mean, Spread;
    var col, x := Col(vs, j), Col(Design(vs, k), j);
    var m := Mean(col);
    SpreadAttained(col, m);
    assert Abs(col[h] - m) <= Spread(col, m) && Abs(col[0] - m) <= Spread(col, m);
    var i :| 0 <= i < |col| && Abs(col[i] - m) == Spread(col, m);
    assert x[i] == (col[i] - m) / Spread(col, m);
    UnitQuotient(col[i] - m, Spread(col, m));
    SquareAtLeast(x, i);
  }

  /** A single state is reported as dependent if and only if it is the same at every point. */
  lemma OneStateIff(vs: Mat, ys: Vec)
    requires vs != [] && Rect(vs, |ys|, 1)
    ensures 0 in AffineFit(vs, ys, 1).dep <==> forall i :: 0 <= i < |vs| ==> vs[i][0] == vs[0][0]
  {
    hide Dot, Design, AffineFit, Abs;
    if forall i :: 0 <= i < |vs| ==> vs[i][0] == vs[0][0] {
      SameEverywhere(vs, ys);
      CollinearIsDependent(vs, ys, 1, 0);
    } else {
      var h :| 0 <= h < |vs| && vs[h][0] != vs[0][0];
      ScaledIsLong(vs, 1, 0, h);
      LongIsSeparated(vs, ys);
    }
  }

  lemma SameEverywhere(vs: Mat, ys: Vec)
    requires vs != [] && Rect(vs, |ys|, 1) && forall i :: 0 <= i < |vs| ==> vs[i][0] == vs[0][0]
    ensures Collinear(vs, ys, 1, 0)
  {
    hide Dot, AffineFit;
    var w := Fill(1, 0.0);
    forall i | 0 <= i < |vs| ensures vs[i][0] == Plane(w, vs[0][0], vs[i]) {
      DotZero(w, vs[i]);
    }
    assert Combines(vs, ys, 1, 0, w, vs[0][0]);
  }

  lemma LongIsSeparated(vs: Mat, ys: Vec)
    requires vs != [] && Rect(vs, |ys|, 1)
    requires Dot(Col(Design(vs, 1), 0), Col(Design(vs, 1), 0)) >= 1.0
    ensures 0 !in AffineFit(vs, ys, 1).dep
  {
    hide Dot, Design, AffineFit;
    var col := Col(Design(vs, 1), 0);
    var u, rest, rows := StateIsDependentIff(vs, ys, 1, 0);
    TurnedColumn(Design(vs, 1), u);
    DotMinus(Fill(|col|, 0.0), 1.0, col, col);
    DotZero(Fill(|col|, 0.0), col);
    DotCommutes(rest, col);
    assert Bounds(vs, 1, Dot(col, col));
  }

  lemma TurnedColumn(X: Mat, u: Vec)
    requires Rect(X, |X|, 1) && |u| == 1 && u[0] == -1.0
    ensures Apply(X, u) == Minus(Fill(|X|, 0.0), 1.0, Col(X, 0))
  {
    forall i | 0 <= i < |X| ensures Apply(X, u)[i] == Minus(Fill(|X|, 0.0), 1.0, Col(X, 0))[i] {
      DotSingle(X[i], u, 0);
      assert X[i][0] * u[0] == 0.0 - 1.0 * X[i][0];
    }
  }
}
