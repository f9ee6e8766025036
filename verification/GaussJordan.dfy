/**
 Gauss-Jordan elimination with partial pivoting, as the cost derivation solves its normal
 equations.  A column whose best pivot is negligible is reported as dependent and its
 unknown set to 0.
 */
module GaussJordan {
  import opened Vectors

  type Mat = seq<Vec>

  const TINY: real := 0.000000001

  predicate Rect(M: Mat, rows: nat, cols: nat) {
    |M| == rows && forall i :: 0 <= i < rows ==> |M[i]| == cols
  }

  function Augment(A: Mat, b: Vec): (M: Mat)
    requires Rect(A, |b|, |b|)
    ensures Rect(M, |b|, |b| + 1)
    ensures forall i :: 0 <= i < |b| ==> M[i] == A[i] + [b[i]]
  {
    seq(|b|, i requires 0 <= i < |b| => A[i] + [b[i]])
  }

  /** The largest magnitude in a row prefix, at least `m`. */
  function RowMax(row: Vec, m: real): (r: real)
    ensures r >= m
    ensures forall j :: 0 <= j < |row| ==> Abs(row[j]) <= r
  {
    if row == [] then m else
      var n := |row| - 1;
      var r := RowMax(row[..n], m);
      if Abs(row[n]) > r then Abs(row[n]) else r
  }

  /** The largest magnitude in the matrix, at least 1. */
  function MatScale(A: Mat): (r: real)
    ensures r >= 1.0
  {
    if A == [] then 1.0 else RowMax(A[|A| - 1], MatScale(A[..|A| - 1]))
  }

  ghost function Range(n: nat): (s: set<nat>)
    ensures |s| == n
    ensures forall r: nat :: r in s <==> r < n
  {
    if n == 0 then {} else
      var below := Range(n - 1);
      assert n - 1 !in below;
      below + {n - 1}
  }

  // ---------------------------------------------------------------- the elimination, as a function

  datatype Elim = Elim(M: Mat, pivotRow: map<nat, nat>, used: set<nat>, dep: set<nat>)

  /** The unused row below `n` with the largest entry in column `c`, the first of them on a tie. */
  function BestPivot(M: Mat, used: set<nat>, c: nat, n: nat): (p: nat)
    requires n <= |M| && forall r :: 0 <= r < |M| ==> c < |M[r]|
    ensures p <= |M|
    ensures p < |M| ==> p < n && p !in used
    ensures (exists r :: 0 <= r < n && r !in used) ==> p < |M|
    ensures p < |M| ==> forall r :: 0 <= r < n && r !in used ==> Abs(M[r][c]) <= Abs(M[p][c])
  {
    if n == 0 then |M| else
      var p := BestPivot(M, used, c, n - 1);
      if n - 1 in used then p
      else if p < |M| && Abs(M[n - 1][c]) <= Abs(M[p][c]) then p
      else n - 1
  }

  /** Row `r` with column `c` cleared by the pivot row. */
  function Cleared(M: Mat, r: nat, piv: nat, c: nat): (row: Vec)
    requires r < |M| && piv < |M| && |M[r]| == |M[piv]| && c < |M[piv]| && M[piv][c] != 0.0
    ensures |row| == |M[r]|
  {
    if r != piv && M[r][c] != 0.0 then Minus(M[r], M[r][c] / M[piv][c], M[piv]) else M[r]
  }

  /** Every row but the pivot row cleared in column `c`. */
  function ClearColumn(M: Mat, piv: nat, c: nat, cols: nat): (N: Mat)
    requires Rect(M, |M|, cols) && piv < |M| && c < cols && M[piv][c] != 0.0
    ensures Rect(N, |M|, cols)
    ensures forall r :: 0 <= r < |M| ==> N[r] == Cleared(M, r, piv, c)
  {
    seq(|M|, r requires 0 <= r < |M| => Cleared(M, r, piv, c))
  }

  function ColumnStep(e: Elim, c: nat, n: nat, scale: real): (e': Elim)
    requires Rect(e.M, n, n + 1) && c < n && scale >= 1.0
    ensures Rect(e'.M, n, n + 1)
  {
    var piv := BestPivot(e.M, e.used, c, n);
    if piv == n || Abs(e.M[piv][c]) <= TINY * scale then e.(dep := e.dep + {c})
    else
      assert TINY * scale >= 0.0;
      Elim(ClearColumn(e.M, piv, c, n + 1), e.pivotRow[c := piv], e.used + {piv}, e.dep)
  }

  function Eliminate(A: Mat, b: Vec, c: nat): (e: Elim)
    requires Rect(A, |b|, |b|) && c <= |b|
    ensures Rect(e.M, |b|, |b| + 1)
  {
    if c == 0 then Elim(Augment(A, b), map[], {}, {})
    else ColumnStep(Eliminate(A, b, c - 1), c - 1, |b|, MatScale(A))
  }

  /** The unknown of column `c`: read off its pivot row, 0 without one. */
  function Unknown(e: Elim, c: nat, n: nat): real
    requires Rect(e.M, n, n + 1) && c < n
  {
    if c in e.pivotRow && e.pivotRow[c] < n && e.M[e.pivotRow[c]][c] != 0.0
    then e.M[e.pivotRow[c]][n] / e.M[e.pivotRow[c]][c] else 0.0
  }

  function Unknowns(e: Elim, n: nat): (x: Vec)
    requires Rect(e.M, n, n + 1)
    ensures |x| == n
    ensures forall c :: 0 <= c < n ==> x[c] == Unknown(e, c, n)
  {
    seq(n, c requires 0 <= c < n => Unknown(e, c, n))
  }

  /** Solution and dependent columns. */
  function Solution(A: Mat, b: Vec): (r: (Vec, set<nat>))
    requires Rect(A, |b|, |b|)
    ensures |r.0| == |b|
  {
    var e := Eliminate(A, b, |b|);
    (Unknowns(e, |b|), e.dep)
  }

  // ---------------------------------------------------------------- what elimination keeps

  /** Every row's inner product with `y` vanishes. */
  ghost predicate Annihilates(M: Mat, y: Vec)
    requires Rect(M, |M|, |y|)
  {
    forall r :: 0 <= r < |M| ==> Dot(M[r], y) == 0.0
  }

  /** `x` solves the augmented rows: their inner products with (x, -1) vanish. */
  ghost predicate Solves(M: Mat, x: Vec)
    requires Rect(M, |M|, |x| + 1)
  {
    Annihilates(M, x + [-1.0])
  }

  lemma ClearedDot(M: Mat, r: nat, piv: nat, c: nat, y: Vec)
    requires r < |M| && piv < |M| && |M[r]| == |M[piv]| == |y| && c < |M[piv]| && M[piv][c] != 0.0
    requires Dot(M[piv], y) == 0.0
    ensures Dot(Cleared(M, r, piv, c), y) == Dot(M[r], y)
  {
    if r != piv && M[r][c] != 0.0 {
      DotMinus(M[r], M[r][c] / M[piv][c], M[piv], y);
    }
  }

  /** Clearing a column keeps the linear relations between columns. */
  lemma ClearColumnKeeps(M: Mat, piv: nat, c: nat, y: Vec)
    requires Rect(M, |M|, |y|) && piv < |M| && c < |y| && M[piv][c] != 0.0
    ensures Annihilates(ClearColumn(M, piv, c, |y|), y) <==> Annihilates(M, y)
  {
    var N := ClearColumn(M, piv, c, |y|);
    assert N[piv] == M[piv];
    if Dot(M[piv], y) == 0.0 {
      forall r | 0 <= r < |M| ensures Dot(N[r], y) == Dot(M[r], y) {
        ClearedDot(M, r, piv, c, y);
      }
    }
  }

  lemma ColumnStepKeeps(e: Elim, c: nat, n: nat, scale: real, y: Vec)
    requires Rect(e.M, n, n + 1) && c < n && |y| == n + 1 && scale >= 1.0
    ensures Annihilates(ColumnStep(e, c, n, scale).M, y) <==> Annihilates(e.M, y)
  {
    hide Annihilates;
    var piv := BestPivot(e.M, e.used, c, n);
    if piv < n && Abs(e.M[piv][c]) > TINY * scale {
      assert e.M[piv][c] != 0.0;
      ClearColumnKeeps(e.M, piv, c, y);
    }
  }

  lemma {:induction false} EliminateKeeps(A: Mat, b: Vec, c: nat, y: Vec)
    requires Rect(A, |b|, |b|) && c <= |b| && |y| == |b| + 1
    ensures Annihilates(Eliminate(A, b, c).M, y) <==> Annihilates(Augment(A, b), y)
  {
    hide ColumnStep, Annihilates;
    if c > 0 {
      EliminateKeeps(A, b, c - 1, y);
      ColumnStepKeeps(Eliminate(A, b, c - 1), c - 1, |b|, MatScale(A), y);
    }
  }

  /** Elimination keeps the solution set, column by column. */
  lemma EliminateSolves(A: Mat, b: Vec, c: nat, x: Vec)
    requires Rect(A, |b|, |b|) && c <= |b| == |x|
    ensures Solves(Eliminate(A, b, c).M, x) <==> Solves(Augment(A, b), x)
  {
    hide Eliminate, Annihilates;
    EliminateKeeps(A, b, c, x + [-1.0]);
  }

  // ---------------------------------------------------------------- the shape it reaches

  /** Columns below `c` either pivot, each in a row of its own, or are dependent. */
  ghost predicate PivotsOk(pivotRow: map<nat, nat>, used: set<nat>, dep: set<nat>, n: nat, c: nat) {
    && (forall j :: j in pivotRow ==> j < c <= n && pivotRow[j] in used && pivotRow[j] < n)
    && (forall i, j :: i in pivotRow && j in pivotRow && i != j ==> pivotRow[i] != pivotRow[j])
    && (forall j :: 0 <= j < c ==> (j in dep <==> j !in pivotRow))
    && (forall j :: j in dep ==> j < c)
    && used <= Range(n) && |used| + |dep| == c
    && (forall r :: r in used ==> PivotsSome(pivotRow, r))
  }

  /** Row `r` is the pivot row of some column. */
  ghost predicate PivotsSome(pivotRow: map<nat, nat>, r: nat) {
    exists j :: j in pivotRow && pivotRow[j] == r
  }

  /** Column `j` is zero exactly outside row `p`. */
  ghost predicate Unit(M: Mat, n: nat, j: nat, p: nat)
    requires Rect(M, n, n + 1) && j < n
  {
    forall r :: 0 <= r < n ==> (M[r][j] != 0.0 <==> r == p)
  }

  /** Each pivot column is zero exactly outside its pivot row. */
  ghost predicate ColumnsOk(M: Mat, pivotRow: map<nat, nat>, n: nat)
    requires Rect(M, n, n + 1)
  {
    forall j :: j in pivotRow ==> j < n && Unit(M, n, j, pivotRow[j])
  }

  ghost predicate Reduced(e: Elim, n: nat, c: nat)
    requires Rect(e.M, n, n + 1)
  {
    PivotsOk(e.pivotRow, e.used, e.dep, n, c) && ColumnsOk(e.M, e.pivotRow, n)
  }

  lemma ClearedKeepsZero(M: Mat, r: nat, piv: nat, c: nat, j: nat)
    requires r < |M| && piv < |M| && |M[r]| == |M[piv]| && c < |M[piv]| && M[piv][c] != 0.0
    requires j < |M[piv]| && M[piv][j] == 0.0
    ensures Cleared(M, r, piv, c)[j] == M[r][j]
  {
  }

  lemma ClearedIsZero(M: Mat, r: nat, piv: nat, c: nat)
    requires r < |M| && piv < |M| && r != piv && |M[r]| == |M[piv]| && c < |M[piv]| && M[piv][c] != 0.0
    ensures Cleared(M, r, piv, c)[c] == 0.0
  {
    if M[r][c] != 0.0 {
      assert M[r][c] / M[piv][c] * M[piv][c] == M[r][c];
    }
  }

  /** Clearing makes its own column a unit column. */
  lemma ClearedUnit(M: Mat, n: nat, piv: nat, c: nat)
    requires Rect(M, n, n + 1) && piv < n && c < n && M[piv][c] != 0.0
    ensures Unit(ClearColumn(M, piv, c, n + 1), n, c, piv)
  {
    hide Cleared;
    forall r | 0 <= r < n && r != piv ensures Cleared(M, r, piv, c)[c] == 0.0 {
      ClearedIsZero(M, r, piv, c);
    }
    assert Cleared(M, piv, piv, c) == M[piv] by { ClearedSelf(M, piv, c); }
  }

  lemma ClearedSelf(M: Mat, piv: nat, c: nat)
    requires piv < |M| && c < |M[piv]| && M[piv][c] != 0.0
    ensures Cleared(M, piv, piv, c) == M[piv]
  {
  }

  /** Clearing keeps other unit columns. */
  lemma ClearedKeepsUnit(M: Mat, n: nat, piv: nat, c: nat, j: nat, p: nat)
    requires Rect(M, n, n + 1) && piv < n && c < n && M[piv][c] != 0.0
    requires j < n && Unit(M, n, j, p) && p != piv
    ensures Unit(ClearColumn(M, piv, c, n + 1), n, j, p)
  {
    hide Cleared;
    forall r | 0 <= r < n ensures Cleared(M, r, piv, c)[j] == M[r][j] {
      ClearedKeepsZero(M, r, piv, c, j);
    }
  }

  lemma PivotAdded(pivotRow: map<nat, nat>, used: set<nat>, dep: set<nat>, n: nat, c: nat, piv: nat)
    requires PivotsOk(pivotRow, used, dep, n, c) && c < n && piv < n && piv !in used
    ensures PivotsOk(pivotRow[c := piv], used + {piv}, dep, n, c + 1)
  {
    hide Range, PivotsSome;
    var m, used' := pivotRow[c := piv], used + {piv};
    assert |used'| == |used| + 1;
    forall r | r in used' ensures PivotsSome(m, r) {
      PivotsSomeKept(pivotRow, c, piv, r);
    }
  }

  lemma PivotsSomeKept(pivotRow: map<nat, nat>, c: nat, piv: nat, r: nat)
    requires c !in pivotRow && (r == piv || PivotsSome(pivotRow, r))
    ensures PivotsSome(pivotRow[c := piv], r)
  {
    var m := pivotRow[c := piv];
    if r == piv {
      assert c in m && m[c] == r;
    } else {
      var j :| j in pivotRow && pivotRow[j] == r;
      assert j in m && m[j] == r;
    }
  }

  lemma DependentAdded(pivotRow: map<nat, nat>, used: set<nat>, dep: set<nat>, n: nat, c: nat)
    requires PivotsOk(pivotRow, used, dep, n, c) && c < n
    ensures PivotsOk(pivotRow, used, dep + {c}, n, c + 1)
  {
    hide Range, PivotsSome;
    assert c !in dep;
    assert |dep + {c}| == |dep| + 1;
  }

  lemma PivotReduces(e: Elim, c: nat, n: nat, piv: nat)
    requires Rect(e.M, n, n + 1) && c < n && Reduced(e, n, c)
    requires piv < n && piv !in e.used && e.M[piv][c] != 0.0
    ensures Reduced(Elim(ClearColumn(e.M, piv, c, n + 1), e.pivotRow[c := piv], e.used + {piv}, e.dep), n, c + 1)
  {
    hide Unit, ClearColumn;
    var N := ClearColumn(e.M, piv, c, n + 1);
    var m := e.pivotRow[c := piv];
    PivotAdded(e.pivotRow, e.used, e.dep, n, c, piv);
    forall j | j in m ensures j < n && Unit(N, n, j, m[j]) {
      if j == c {
        ClearedUnit(e.M, n, piv, c);
      } else {
        ClearedKeepsUnit(e.M, n, piv, c, j, e.pivotRow[j]);
      }
    }
  }

  lemma ColumnStepReduces(e: Elim, c: nat, n: nat, scale: real)
    requires Rect(e.M, n, n + 1) && c < n && scale >= 1.0 && Reduced(e, n, c)
    ensures Reduced(ColumnStep(e, c, n, scale), n, c + 1)
  {
    hide PivotsOk, ColumnsOk, ClearColumn;
    var piv := BestPivot(e.M, e.used, c, n);
    if piv < n && Abs(e.M[piv][c]) > TINY * scale {
      PivotReduces(e, c, n, piv);
    } else {
      DependentAdded(e.pivotRow, e.used, e.dep, n, c);
    }
  }

  lemma NothingReduced(M: Mat, n: nat)
    requires Rect(M, n, n + 1)
    ensures Reduced(Elim(M, map[], {}, {}), n, 0)
  {
  }

  lemma {:induction false} EliminateReduces(A: Mat, b: Vec, c: nat)
    requires Rect(A, |b|, |b|) && c <= |b|
    ensures Reduced(Eliminate(A, b, c), |b|, c)
  {
    hide Reduced, ColumnStep, Augment;
    if c > 0 {
      EliminateReduces(A, b, c - 1);
      ColumnStepReduces(Eliminate(A, b, c - 1), c - 1, |b|, MatScale(A));
    } else {
      NothingReduced(Augment(A, b), |b|);
    }
  }

  lemma FullSubset(s: set<nat>, n: nat)
    requires s <= Range(n) && |s| == n
    ensures s == Range(n)
  {
    assert |Range(n) - s| == |Range(n)| - |s|;
  }

  lemma SubsetSize(a: set<nat>, b: set<nat>)
    requires a <= b
    ensures |a| <= |b|
  {
    assert |b - a| == |b| - |a|;
  }

  /** With no dependent column, every row pivots and elimination ends at a permuted diagonal. */
  lemma EndsDiagonal(e: Elim, n: nat)
    requires Rect(e.M, n, n + 1) && Reduced(e, n, n) && e.dep == {}
    ensures forall c :: 0 <= c < n ==> c in e.pivotRow && e.pivotRow[c] < n && Unit(e.M, n, c, e.pivotRow[c])
    ensures forall r :: 0 <= r < n ==> PivotsSome(e.pivotRow, r)
  {
    hide Unit, PivotsSome, Range;
    FullSubset(e.used, n);
  }

  // ---------------------------------------------------------------- the solution

  lemma DiagonalRow(row: Vec, c: nat, x: Vec)
    requires |row| == |x| + 1 && c < |x| && forall j :: 0 <= j < |x| && j != c ==> row[j] == 0.0
    ensures Dot(row, x + [-1.0]) == row[c] * x[c] - row[|x|]
  {
    hide Dot;
    var n := |x|;
    assert row == row[..n] + [row[n]];
    DotSnoc(row[..n], row[n], x, -1.0);
    DotSingle(row[..n], x, c);
    assert row[n] * -1.0 == -row[n];
  }

  /** The pivot row of column `c` is solved exactly by the unknown computed from it. */
  lemma PivotRowSolved(e: Elim, n: nat, x: Vec, c: nat)
    requires Rect(e.M, n, n + 1) && Reduced(e, n, n) && e.dep == {} && |x| == n && c < n
    ensures c in e.pivotRow && e.pivotRow[c] < n
    ensures Dot(e.M[e.pivotRow[c]], x + [-1.0]) == 0.0 <==> x[c] == Unknown(e, c, n)
  {
    hide Dot, Reduced;
    EndsDiagonal(e, n);
    var row := e.M[e.pivotRow[c]];
    assert Unit(e.M, n, c, e.pivotRow[c]);
    forall j | 0 <= j < n && j != c ensures row[j] == 0.0 {
      PivotRowsDiffer(e, n, c, j);
      assert Unit(e.M, n, j, e.pivotRow[j]);
    }
    DiagonalRow(row, c, x);
    Divides(row[c], x[c], row[n]);
  }

  lemma PivotRowsDiffer(e: Elim, n: nat, i: nat, j: nat)
    requires Rect(e.M, n, n + 1) && Reduced(e, n, n) && i in e.pivotRow && j in e.pivotRow && i != j
    ensures e.pivotRow[i] != e.pivotRow[j]
  {
  }

  /** On a permuted diagonal, a vector solves the system exactly if it is the computed one. */
  lemma DiagonalSolved(e: Elim, n: nat, x: Vec)
    requires Rect(e.M, n, n + 1) && Reduced(e, n, n) && e.dep == {} && |x| == n
    ensures Solves(e.M, x) <==> x == Unknowns(e, n)
  {
    hide Unknown, Reduced, Dot;
    var u := Unknowns(e, n);
    forall c | 0 <= c < n
      ensures c in e.pivotRow && e.pivotRow[c] < n
      ensures Dot(e.M[e.pivotRow[c]], x + [-1.0]) == 0.0 <==> x[c] == u[c]
    {
      PivotRowSolved(e, n, x, c);
    }
    EndsDiagonal(e, n);
    if x == u {
      forall r | 0 <= r < n ensures Dot(e.M[r], x + [-1.0]) == 0.0 {
        assert PivotsSome(e.pivotRow, r);
        var c :| c in e.pivotRow && e.pivotRow[c] == r;
        PivotColumnBelow(e, n, c);
      }
    }
  }

  lemma PivotColumnBelow(e: Elim, n: nat, c: nat)
    requires Rect(e.M, n, n + 1) && Reduced(e, n, n) && c in e.pivotRow
    ensures c < n
  {
  }

  lemma Divides(p: real, x: real, q: real)
    requires p != 0.0
    ensures p * x - q == 0.0 <==> x == q / p
  {
    assert q / p * p == q;
    if p * x - q == 0.0 {
      assert p * (x - q / p) == 0.0;
    }
  }

  ghost predicate SolvesSystem(A: Mat, b: Vec, x: Vec)
    requires Rect(A, |b|, |b|) && |x| == |b|
  {
    forall i :: 0 <= i < |b| ==> Dot(A[i], x) == b[i]
  }

  lemma AugmentSolves(A: Mat, b: Vec, x: Vec)
    requires Rect(A, |b|, |b|) && |x| == |b|
    ensures Solves(Augment(A, b), x) <==> SolvesSystem(A, b, x)
  {
    hide Dot;
    forall i | 0 <= i < |b| ensures Dot(Augment(A, b)[i], x + [-1.0]) == Dot(A[i], x) - b[i] {
      DotSnoc(A[i], b[i], x, -1.0);
    }
  }

  /** With no dependent column, the answer is the one and only solution of the system. */
  lemma SolutionIsUnique(A: Mat, b: Vec, x: Vec)
    requires Rect(A, |b|, |b|) && |x| == |b| && Solution(A, b).1 == {}
    ensures SolvesSystem(A, b, x) <==> x == Solution(A, b).0
  {
    hide Eliminate, Unknowns, Solves, SolvesSystem, Reduced;
    var n := |b|;
    EliminateReduces(A, b, n);
    EliminateSolves(A, b, n, x);
    AugmentSolves(A, b, x);
    DiagonalSolved(Eliminate(A, b, n), n, x);
  }

  /** Dependent columns get the value 0. */
  lemma DependentAreZero(A: Mat, b: Vec)
    requires Rect(A, |b|, |b|)
    ensures forall c :: c in Solution(A, b).1 ==> c < |b| && Solution(A, b).0[c] == 0.0
  {
    EliminateReduces(A, b, |b|);
  }

  // ---------------------------------------------------------------- dependence is a matter of the matrix

  /** The same matrix left of the last column. */
  ghost predicate SameLeft(M: Mat, N: Mat, n: nat)
    requires Rect(M, n, n + 1) && Rect(N, n, n + 1)
  {
    forall r, j :: 0 <= r < n && 0 <= j < n ==> M[r][j] == N[r][j]
  }

  lemma {:induction false} SamePivot(M: Mat, N: Mat, used: set<nat>, c: nat, m: nat, n: nat)
    requires Rect(M, n, n + 1) && Rect(N, n, n + 1) && SameLeft(M, N, n) && c < n && m <= n
    ensures BestPivot(M, used, c, m) == BestPivot(N, used, c, m)
  {
    if m > 0 {
      SamePivot(M, N, used, c, m - 1, n);
    }
  }

  lemma SameCleared(M: Mat, N: Mat, piv: nat, c: nat, n: nat)
    requires Rect(M, n, n + 1) && Rect(N, n, n + 1) && SameLeft(M, N, n) && c < n && piv < n && M[piv][c] != 0.0
    ensures SameLeft(ClearColumn(M, piv, c, n + 1), ClearColumn(N, piv, c, n + 1), n)
  {
    var M', N' := ClearColumn(M, piv, c, n + 1), ClearColumn(N, piv, c, n + 1);
    forall r, j | 0 <= r < n && 0 <= j < n ensures M'[r][j] == N'[r][j] {
      assert M[r][j] == N[r][j] && M[r][c] == N[r][c] && M[piv][j] == N[piv][j] && M[piv][c] == N[piv][c];
    }
  }

  /** Equal bookkeeping over matrices that agree left of the last column. */
  ghost predicate SameButCounts(e: Elim, e': Elim, n: nat)
    requires Rect(e.M, n, n + 1) && Rect(e'.M, n, n + 1)
  {
    e.dep == e'.dep && e.used == e'.used && e.pivotRow == e'.pivotRow && SameLeft(e.M, e'.M, n)
  }

  lemma ColumnStepIgnoresCounts(e: Elim, e': Elim, c: nat, n: nat, scale: real)
    requires Rect(e.M, n, n + 1) && Rect(e'.M, n, n + 1) && c < n && scale >= 1.0 && SameButCounts(e, e', n)
    ensures SameButCounts(ColumnStep(e, c, n, scale), ColumnStep(e', c, n, scale), n)
  {
    hide SameLeft, ClearColumn;
    SamePivot(e.M, e'.M, e.used, c, n, n);
    var piv := BestPivot(e.M, e.used, c, n);
    if piv < n {
      assert e.M[piv][c] == e'.M[piv][c] by { SameLeftAt(e.M, e'.M, n, piv, c); }
      if Abs(e.M[piv][c]) > TINY * scale {
        SameCleared(e.M, e'.M, piv, c, n);
      }
    }
  }

  lemma SameLeftAt(M: Mat, N: Mat, n: nat, r: nat, j: nat)
    requires Rect(M, n, n + 1) && Rect(N, n, n + 1) && SameLeft(M, N, n) && r < n && j < n
    ensures M[r][j] == N[r][j]
  {
  }

  lemma {:induction false} EliminateIgnoresCounts(A: Mat, b: Vec, b': Vec, c: nat)
    requires Rect(A, |b|, |b|) && |b| == |b'| && c <= |b|
    ensures SameButCounts(Eliminate(A, b, c), Eliminate(A, b', c), |b|)
  {
    hide ColumnStep;
    if c > 0 {
      hide SameButCounts;
      EliminateIgnoresCounts(A, b, b', c - 1);
      ColumnStepIgnoresCounts(Eliminate(A, b, c - 1), Eliminate(A, b', c - 1), c - 1, |b|, MatScale(A));
    }
  }

  /** Which columns are dependent does not depend on the right-hand side. */
  lemma DependenceIgnoresCounts(A: Mat, b: Vec, b': Vec)
    requires Rect(A, |b|, |b|) && |b| == |b'|
    ensures Solution(A, b).1 == Solution(A, b').1
  {
    hide Eliminate, Unknowns;
    EliminateIgnoresCounts(A, b, b', |b|);
  }

  // ---------------------------------------------------------------- the elimination, as it is written

  method MatScaleOf(M: Mat, n: nat) returns (scale: real)
    requires Rect(M, n, n + 1)
    ensures scale == MatScale(Left(M, n))
  {
    scale := 1.0;
    ghost var A := Left(M, n);
    for i := 0 to n
      invariant scale == MatScale(A[..i])
    {
      assert A[..i + 1][..i] == A[..i];
      ghost var before := scale;
      for j := 0 to n
        invariant scale == RowMax(A[i][..j], before)
      {
        assert A[i][..j + 1][..j] == A[i][..j];
        var a := if M[i][j] < 0.0 then -M[i][j] else M[i][j];
        if a > scale {
          scale := a;
        }
      }
      assert A[i][..n] == A[i];
    }
    assert A[..n] == A;
  }

  function Left(M: Mat, n: nat): (A: Mat)
    requires Rect(M, n, n + 1)
    ensures Rect(A, n, n)
    ensures forall i :: 0 <= i < n ==> A[i] == M[i][..n]
  {
    seq(n, i requires 0 <= i < n => M[i][..n])
  }

  method FindPivot(M: Mat, used: set<nat>, c: nat, n: nat) returns (piv: nat)
    requires Rect(M, n, n + 1) && c < n
    ensures piv == BestPivot(M, used, c, n)
  {
    piv := n;
    for r := 0 to n
      invariant piv == BestPivot(M, used, c, r)
    {
      if r !in used {
        if piv == n || Abs(M[r][c]) > Abs(M[piv][c]) {
          piv := r;
        }
      }
    }
  }

  method ClearRows(M0: Mat, piv: nat, c: nat, n: nat) returns (M: Mat)
    requires Rect(M0, n, n + 1) && piv < n && c < n && M0[piv][c] != 0.0
    ensures M == ClearColumn(M0, piv, c, n + 1)
  {
    M := M0;
    for r := 0 to n
      invariant Rect(M, n, n + 1)
      invariant forall i :: 0 <= i < n ==> M[i] == if i < r then Cleared(M0, i, piv, c) else M0[i]
    {
      if r != piv && M[r][c] != 0.0 {
        var f := M[r][c] / M[piv][c];
        M := M[r := seq(n + 1, j requires 0 <= j < n + 1 => Less(M[r][j], f, M[piv][j]))];
      }
    }
  }

  /** One column of the elimination. */
  method EliminateColumn(M0: Mat, pivotRow0: map<nat, nat>, used0: set<nat>, dep0: set<nat>,
                         c: nat, n: nat, scale: real)
    returns (M: Mat, pivotRow: map<nat, nat>, used: set<nat>, dep: set<nat>)
    requires Rect(M0, n, n + 1) && c < n && scale >= 1.0 && Reduced(Elim(M0, pivotRow0, used0, dep0), n, c)
    ensures Elim(M, pivotRow, used, dep) == ColumnStep(Elim(M0, pivotRow0, used0, dep0), c, n, scale)
  {
    hide Reduced, ClearColumn;
    M, pivotRow, used, dep := M0, pivotRow0, used0, dep0;
    var piv := FindPivot(M, used, c, n);
    SomeRowIsFree(Elim(M, pivotRow, used, dep), n, c);
    if Abs(M[piv][c]) <= TINY * scale {
      dep := dep + {c};
      return;
    }
    used := used + {piv};
    pivotRow := pivotRow[c := piv];
    M := ClearRows(M, piv, c, n);
  }

  method ReadOff(M: Mat, pivotRow: map<nat, nat>, ghost e: Elim, n: nat) returns (x: Vec)
    requires Rect(M, n, n + 1) && e.M == M && e.pivotRow == pivotRow && Reduced(e, n, n)
    ensures x == Unknowns(e, n)
  {
    x := Fill(n, 0.0);
    for c := 0 to n
      invariant |x| == n
      invariant forall j :: 0 <= j < n ==> x[j] == if j < c then Unknown(e, j, n) else 0.0
    {
      if c in pivotRow {
        var r := pivotRow[c];
        assert Unit(M, n, c, r) && r < n;
        x := x[c := M[r][n] / M[r][c]];
      }
    }
  }

  method Solve(A: Mat, b: Vec) returns (x: Vec, dep: set<nat>)
    requires Rect(A, |b|, |b|)
    ensures (x, dep) == Solution(A, b)
    ensures dep == {} ==> SolvesSystem(A, b, x) && forall y: Vec :: |y| == |b| && SolvesSystem(A, b, y) ==> y == x
    ensures forall c :: c in dep ==> c < |b| && x[c] == 0.0
  {
    hide Reduced, ColumnStep, SolvesSystem, Unknown;
    var n := |b|;
    var M := Augment(A, b);
    var scale := MatScaleOf(M, n);
    assert Left(M, n) == A;
    var pivotRow: map<nat, nat>, used: set<nat>;
    pivotRow, used, dep := map[], {}, {};
    for c := 0 to n
      invariant Rect(M, n, n + 1) && Elim(M, pivotRow, used, dep) == Eliminate(A, b, c)
    {
      EliminateReduces(A, b, c);
      M, pivotRow, used, dep := EliminateColumn(M, pivotRow, used, dep, c, n, scale);
    }
    EliminateReduces(A, b, n);
    x := ReadOff(M, pivotRow, Eliminate(A, b, n), n);
    DependentAreZero(A, b);
    if dep == {} {
      forall y: Vec | |y| == |b| ensures SolvesSystem(A, b, y) <==> y == x {
        SolutionIsUnique(A, b, y);
      }
    }
  }

  /** Fewer rows than columns have been used, so a pivot candidate remains. */
  lemma SomeRowIsFree(e: Elim, n: nat, c: nat)
    requires Rect(e.M, n, n + 1) && Reduced(e, n, c) && c < n
    ensures BestPivot(e.M, e.used, c, n) < n
  {
    hide Range, PivotsSome;
    if forall r :: 0 <= r < n ==> r in e.used {
      SubsetSize(Range(n), e.used);
    }
  }
}
