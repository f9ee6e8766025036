/**
 The relation test on one basic block: its counts follow a plane in the declared states, are
 constant, or are irregular; and what a block that passes adds to the cost formula.
 */
module BlockRelation {
  import opened Vectors
  import opened GaussJordan
  import opened LeastSquares

  const REL_TOL := 0.05
  const ABS_TOL := 64.0
  const EXACT := 0.000000001

  /** Deviation allowed at a point where the block ran `y` instructions. */
  function Tol(y: real): (t: real)
    ensures t >= ABS_TOL && t >= REL_TOL * y && (t == ABS_TOL || t == REL_TOL * y)
  {
    if REL_TOL * y > ABS_TOL then REL_TOL * y else ABS_TOL
  }

  function Largest(s: Vec): (m: real)
    requires s != []
    ensures forall i :: 0 <= i < |s| ==> s[i] <= m
    ensures exists i :: 0 <= i < |s| && s[i] == m
  {
    var n := |s| - 1;
    if n == 0 then s[0] else
      var m := Largest(s[..n]);
      var i :| 0 <= i < n && s[..n][i] == m;
      assert s[i] == m;
      if s[n] > m then s[n] else m
  }

  function Smallest(s: Vec): (m: real)
    requires s != []
    ensures forall i :: 0 <= i < |s| ==> s[i] >= m
    ensures exists i :: 0 <= i < |s| && s[i] == m
  {
    var n := |s| - 1;
    if n == 0 then s[0] else
      var m := Smallest(s[..n]);
      var i :| 0 <= i < n && s[..n][i] == m;
      assert s[i] == m;
      if s[n] < m then s[n] else m
  }

  /** The observed range of state `j`. */
  function RangeOf(vs: Mat, j: nat): real
    requires vs != [] && forall i :: 0 <= i < |vs| ==> j < |vs[i]|
  {
    Largest(Col(vs, j)) - Smallest(Col(vs, j))
  }

  predicate Follows(vs: Mat, ys: Vec, a: Vec, c: real)
    requires Rect(vs, |ys|, |a|)
  {
    forall i :: 0 <= i < |ys| ==> Abs(ys[i] - Plane(a, c, vs[i])) <= Tol(ys[i])
  }

  /** The plane holds at every point, and its intercept is not far below zero. */
  predicate Accepted(vs: Mat, ys: Vec, f: Fit)
    requires vs != [] && Rect(vs, |ys|, |f.a|)
  {
    Follows(vs, ys, f.a, f.c) && f.c >= -Tol(Largest(ys))
  }

  /** How much slope `a` can move a count over a range. */
  function Reach(a: real, range: real): real {
    Abs(a) * range
  }

  predicate IsExact(ys: Vec, dev: real)
    requires ys != []
  {
    dev <= EXACT * (if Largest(ys) > 1.0 then Largest(ys) else 1.0)
  }

  /** The slope of state `j` matters over the observed range, or is exact. */
  predicate ScalesIn(vs: Mat, ys: Vec, f: Fit, j: nat)
    requires vs != [] && Rect(vs, |ys|, |f.a|) && j < |f.a|
  {
    Reach(f.a[j], RangeOf(vs, j)) > Tol(Largest(ys)) || (IsExact(ys, f.dev) && Abs(f.a[j]) > EXACT)
  }

  function Scaling(vs: Mat, ys: Vec, f: Fit): (mask: seq<bool>)
    requires vs != [] && Rect(vs, |ys|, |f.a|)
    ensures |mask| == |f.a|
    ensures forall j :: 0 <= j < |mask| ==> mask[j] == ScalesIn(vs, ys, f, j)
  {
    seq(|f.a|, j requires 0 <= j < |f.a| => ScalesIn(vs, ys, f, j))
  }

  /** The slopes of the states selected by `mask`; the others are 0. */
  function Masked(a: Vec, mask: seq<bool>): (r: Vec)
    requires |a| == |mask|
    ensures |r| == |a|
    ensures forall j :: 0 <= j < |a| ==> r[j] == if mask[j] then a[j] else 0.0
  {
    seq(|a|, j requires 0 <= j < |a| => if mask[j] then a[j] else 0.0)
  }

  function Dropped(a: Vec, mask: seq<bool>): (r: Vec)
    requires |a| == |mask|
    ensures |r| == |a|
    ensures forall j :: 0 <= j < |a| ==> r[j] == if mask[j] then 0.0 else a[j]
  {
    seq(|a|, j requires 0 <= j < |a| => if mask[j] then 0.0 else a[j])
  }

  /** What the test says of a block. `mask` is where it scales: nowhere for a constant block. */
  datatype Part = Kept(coef: Vec, cst: real, mask: seq<bool>) | Irregular

  function PartOf(vs: Mat, ys: Vec, k: nat): (p: Part)
    requires vs != [] && Rect(vs, |ys|, k)
    ensures p.Kept? ==> |p.coef| == |p.mask| == k
  {
    var f := AffineFit(vs, ys, k);
    if !Accepted(vs, ys, f) then Irregular
    else
      var mask := Scaling(vs, ys, f);
      if true in mask
      then Kept(Masked(f.a, mask), f.c + Dot(Dropped(f.a, mask), Means(vs, k)), mask)
      else Kept(Fill(k, 0.0), Mean(ys), mask)
  }

  // ---------------------------------------------------------------- both kept cases are one

  lemma DotParts(a: Vec, mask: seq<bool>, v: Vec)
    requires |a| == |mask| == |v|
    ensures Dot(Masked(a, mask), v) == Dot(a, v) - Dot(Dropped(a, mask), v)
  {
    hide Dot;
    var r := Minus(a, 1.0, Dropped(a, mask));
    assert Masked(a, mask) == r;
    DotMinus(a, 1.0, Dropped(a, mask), v);
  }

  /** A kept block's plane is the fitted one with the other slopes held at their mean. */
  lemma KeptIsFolded(vs: Mat, ys: Vec, k: nat)
    requires vs != [] && Rect(vs, |ys|, k) && PartOf(vs, ys, k).Kept?
    ensures var f, p := AffineFit(vs, ys, k), PartOf(vs, ys, k);
            && p.mask == Scaling(vs, ys, f)
            && p.coef == Masked(f.a, p.mask)
            && p.cst == f.c + Dot(Dropped(f.a, p.mask), Means(vs, k))
  {
    hide Dot, Mean, Accepted, ScalesIn, ScaledFit;
    var f, p := AffineFit(vs, ys, k), PartOf(vs, ys, k);
    if true !in p.mask {
      forall j | 0 <= j < k ensures !p.mask[j] {
        assert p.mask[j] in p.mask;
      }
      assert Masked(f.a, p.mask) == Fill(k, 0.0);
      assert Dropped(f.a, p.mask) == f.a;
    }
  }

  // ---------------------------------------------------------------- a kept block keeps its counts

  /** The values of a plane over the points. */
  function Fitted(vs: Mat, a: Vec, c: real): (r: Vec)
    requires Rect(vs, |vs|, |a|)
    ensures |r| == |vs|
    ensures forall i :: 0 <= i < |vs| ==> r[i] == Plane(a, c, vs[i])
  {
    seq(|vs|, i requires 0 <= i < |vs| => Plane(a, c, vs[i]))
  }

  /** The values of a plane sum to as many times its value at the centroid. */
  lemma FittedSum(vs: Mat, k: nat, a: Vec, c: real)
    requires vs != [] && Rect(vs, |vs|, k) && |a| == k
    ensures Sum(Fitted(vs, a, c)) == |vs| as real * (Dot(a, Means(vs, k)) + c)
  {
    hide Dot, Sum, Mean;
    var n := |vs| as real;
    var ones, g, r := Fill(|vs|, 1.0), Apply(vs, a), Minus(Apply(vs, a), -1.0, Fill(|vs|, c));
    forall i | 0 <= i < |vs| ensures Fitted(vs, a, c)[i] == r[i] {
      DotCommutes(a, vs[i]);
      LessNegated(g[i], 1.0, c);
    }
    assert Fitted(vs, a, c) == r;
    SumMinus(g, -1.0, Fill(|vs|, c));
    SumFill(|vs|, c);
    DotOnes(g);
    DotCommutes(g, ones);
    Adjoint(ones, vs, a);
    ColumnSums(vs, k, a);
  }

  lemma ColumnSums(vs: Mat, k: nat, a: Vec)
    requires vs != [] && Rect(vs, |vs|, k) && |a| == k
    ensures Dot(Comb(Fill(|vs|, 1.0), vs, k), a) == |vs| as real * Dot(a, Means(vs, k))
  {
    hide Dot, Sum;
    var n, ones := |vs| as real, Fill(|vs|, 1.0);
    var w, zero := Comb(ones, vs, k), Fill(k, 0.0);
    var r := Minus(zero, -n, Means(vs, k));
    forall p | 0 <= p < k ensures w[p] == r[p] {
      DotCommutes(ones, Col(vs, p));
      DotOnes(Col(vs, p));
      LessNegated(0.0, n, Means(vs, k)[p]);
      MeanTimes(Sum(Col(vs, p)), n);
    }
    assert w == r;
    DotMinus(zero, -n, Means(vs, k), a);
    DotZero(zero, a);
    DotCommutes(a, Means(vs, k));
    LessNegated(0.0, n, Dot(Means(vs, k), a));
  }

  /** Folding, constant or not, keeps the block's total over the points. */
  lemma KeptConserves(vs: Mat, ys: Vec, k: nat)
    requires vs != [] && Rect(vs, |ys|, k) && PartOf(vs, ys, k).Kept?
    ensures var p := PartOf(vs, ys, k); Sum(Fitted(vs, p.coef, p.cst)) == Sum(ys)
  {
    hide Dot, Sum, Accepted, ScalesIn, ScaledFit, PartOf;
    var f, p := AffineFit(vs, ys, k), PartOf(vs, ys, k);
    KeptIsFolded(vs, ys, k);
    DotParts(f.a, p.mask, Means(vs, k));
    FittedSum(vs, k, p.coef, p.cst);
    MeanTimes(Sum(ys), |ys| as real);
  }

  // ---------------------------------------------------------------- how far a kept block is from its counts

  lemma WithinRange(vs: Mat, k: nat, j: nat, i: nat)
    requires vs != [] && Rect(vs, |vs|, k) && j < k && i < |vs|
    ensures Abs(vs[i][j] - Means(vs, k)[j]) <= RangeOf(vs, j)
  {
    hide Sum;
    var col := Col(vs, j);
    assert col[i] == vs[i][j];
    MeanBetween(col, Smallest(col), Largest(col));
  }

  lemma MeanBetween(s: Vec, lo: real, hi: real)
    requires s != [] && forall i :: 0 <= i < |s| ==> lo <= s[i] <= hi
    ensures lo <= Mean(s) <= hi
  {
    SumBetween(s, lo, hi);
    var n := |s| as real;
    assert n * lo / n == lo && n * hi / n == hi;
    QuotientLe(n * lo, Sum(s), n);
    QuotientLe(Sum(s), n * hi, n);
  }

  lemma QuotientLe(x: real, y: real, n: real)
    requires n > 0.0 && x <= y
    ensures x / n <= y / n
  {
  }

  lemma {:induction false} SumBetween(s: Vec, lo: real, hi: real)
    requires forall i :: 0 <= i < |s| ==> lo <= s[i] <= hi
    ensures |s| as real * lo <= Sum(s) <= |s| as real * hi
  {
    if s != [] {
      var n := |s| - 1;
      SumBetween(s[..n], lo, hi);
      assert (n + 1) as real * lo == n as real * lo + lo && (n + 1) as real * hi == n as real * hi + hi;
    }
  }

  /** What folding a plane's other slopes moves it by at `v`. */
  function Folded(a: Vec, mask: seq<bool>, mx: Vec, v: Vec): real
    requires |a| == |mask| == |mx| == |v|
  {
    Dot(Dropped(a, mask), v) - Dot(Dropped(a, mask), mx)
  }

  /** How far slope `d` moves a plane between its mean `m` and `v`. */
  function Move(d: real, v: real, m: real): real {
    d * (v - m)
  }

  function Times(n: nat, t: real): real {
    n as real * t
  }

  lemma {:induction false} DotDifferenceBound(d: Vec, v: Vec, mx: Vec, t: real)
    requires |d| == |v| == |mx| && t >= 0.0
    requires forall j :: 0 <= j < |d| ==> Abs(Move(d[j], v[j], mx[j])) <= t
    ensures Abs(Dot(d, v) - Dot(d, mx)) <= Times(|d|, t)
  {
    hide Dot, Move, Times, Abs;
    if d == [] {
      DotZero(d, v);
      DotZero(d, mx);
      assert Times(0, t) == 0.0 by { DifferenceNone(t); }
      assert Abs(0.0) == 0.0;
    } else {
      var n := |d| - 1;
      DotDifferenceBound(d[..n], v[..n], mx[..n], t);
      DotLast(d, v);
      DotLast(d, mx);
      DifferenceStep(Dot(d[..n], v[..n]), Dot(d[..n], mx[..n]), n, d[n], v[n], mx[n], t);
    }
  }

  lemma DifferenceNone(t: real)
    ensures Times(0, t) == 0.0
  {
  }

  lemma DifferenceStep(x: real, y: real, n: nat, d: real, v: real, m: real, t: real)
    requires Abs(x - y) <= Times(n, t) && Abs(Move(d, v, m)) <= t
    ensures Abs((x + d * v) - (y + d * m)) <= Times(n + 1, t)
  {
    assert d * v - d * m == Move(d, v, m);
    assert Times(n + 1, t) == Times(n, t) + t;
  }

  lemma SmallSlope(a: real, v: real, m: real, r: real, t: real)
    requires Abs(v - m) <= r && Reach(a, r) <= t
    ensures Abs(Move(a, v, m)) <= t
  {
    var x := v - m;
    assert Abs(a * x) == Abs(a) * Abs(x);
    assert Abs(a) * Abs(x) <= Abs(a) * r;
  }

  /** Each folded slope moves the plane by at most the tolerance of the block's largest count. */
  lemma FoldedBound(vs: Mat, ys: Vec, k: nat, i: nat)
    requires vs != [] && Rect(vs, |ys|, k) && i < |ys|
    ensures var f := AffineFit(vs, ys, k);
            Abs(Folded(f.a, Scaling(vs, ys, f), Means(vs, k), vs[i])) <= Times(k, Tol(Largest(ys)))
  {
    hide AffineFit, Dot, Tol, Largest, Means, Move, Times, Abs, ScalesIn;
    var f := AffineFit(vs, ys, k);
    var mask, mx := Scaling(vs, ys, f), Means(vs, k);
    var d := Dropped(f.a, mask);
    forall j | 0 <= j < k ensures Abs(Move(d[j], vs[i][j], mx[j])) <= Tol(Largest(ys)) {
      FoldedTerm(vs, ys, k, f, i, j);
    }
    DotDifferenceBound(d, vs[i], mx, Tol(Largest(ys)));
  }

  lemma FoldedTerm(vs: Mat, ys: Vec, k: nat, f: Fit, i: nat, j: nat)
    requires vs != [] && Rect(vs, |ys|, k) && |f.a| == k && i < |ys| && j < k
    ensures Abs(Move(Dropped(f.a, Scaling(vs, ys, f))[j], vs[i][j], Means(vs, k)[j])) <= Tol(Largest(ys))
  {
    hide RangeOf, Mean, Tol, Largest, IsExact, Move, Reach, Abs, EXACT, Means;
    var m := Means(vs, k)[j];
    if ScalesIn(vs, ys, f, j) {
      ZeroMove(vs[i][j], m);
    } else {
      WithinRange(vs, k, j, i);
      SmallSlope(f.a[j], vs[i][j], m, RangeOf(vs, j), Tol(Largest(ys)));
    }
  }

  lemma ZeroMove(v: real, m: real)
    ensures Abs(Move(0.0, v, m)) == 0.0
  {
  }

  /** A kept block's error is exactly the fit's residual plus what folding moved. */
  lemma KeptError(vs: Mat, ys: Vec, k: nat, i: nat)
    requires vs != [] && Rect(vs, |ys|, k) && PartOf(vs, ys, k).Kept? && i < |ys|
    ensures var f, p := AffineFit(vs, ys, k), PartOf(vs, ys, k);
            ys[i] - Plane(p.coef, p.cst, vs[i])
            == (ys[i] - Plane(f.a, f.c, vs[i])) + Folded(f.a, p.mask, Means(vs, k), vs[i])
  {
    hide Dot, PartOf, AffineFit, Means, Scaling;
    var f, p := AffineFit(vs, ys, k), PartOf(vs, ys, k);
    KeptIsFolded(vs, ys, k);
    DotParts(f.a, p.mask, vs[i]);
  }

  /** What a block may be off by at point `i`: its tolerance there, and one more for each state. */
  function Allowed(ys: Vec, k: nat, i: nat): real
    requires i < |ys|
  {
    Tol(ys[i]) + Times(k, Tol(Largest(ys)))
  }

  lemma KeptErrorBound(vs: Mat, ys: Vec, k: nat, i: nat)
    requires vs != [] && Rect(vs, |ys|, k) && PartOf(vs, ys, k).Kept? && i < |ys|
    ensures var p := PartOf(vs, ys, k); Abs(ys[i] - Plane(p.coef, p.cst, vs[i])) <= Allowed(ys, k, i)
  {
    hide Dot, AffineFit, Means, Folded, Plane, Largest, Tol, Times, Scaling, Abs;
    var f, p := AffineFit(vs, ys, k), PartOf(vs, ys, k);
    KeptError(vs, ys, k, i);
    FoldedBound(vs, ys, k, i);
    KeptIsFolded(vs, ys, k);
    AcceptedAt(vs, ys, f, i);
    Triangle(ys[i] - Plane(f.a, f.c, vs[i]), Folded(f.a, p.mask, Means(vs, k), vs[i]));
  }

  lemma Triangle(x: real, y: real)
    ensures Abs(x + y) <= Abs(x) + Abs(y)
  {
  }

  lemma AcceptedAt(vs: Mat, ys: Vec, f: Fit, i: nat)
    requires vs != [] && Rect(vs, |ys|, |f.a|) && i < |ys| && Accepted(vs, ys, f)
    ensures Abs(ys[i] - Plane(f.a, f.c, vs[i])) <= Tol(ys[i])
  {
    hide Plane, Tol, Abs;
  }

  /** Nothing folded: no slope that is not 0 was dropped. */
  predicate NothingFolded(a: Vec, mask: seq<bool>)
    requires |a| == |mask|
  {
    forall j :: 0 <= j < |a| ==> mask[j] || a[j] == 0.0
  }

  /** With nothing folded, the block is within its tolerance at every point. */
  lemma UnfoldedErrorBound(vs: Mat, ys: Vec, k: nat, i: nat)
    requires vs != [] && Rect(vs, |ys|, k) && PartOf(vs, ys, k).Kept? && i < |ys|
    requires NothingFolded(AffineFit(vs, ys, k).a, PartOf(vs, ys, k).mask)
    ensures var p := PartOf(vs, ys, k); Abs(ys[i] - Plane(p.coef, p.cst, vs[i])) <= Tol(ys[i])
  {
    hide Dot, AffineFit, Means, Scaling, Plane, Largest;
    var f, p := AffineFit(vs, ys, k), PartOf(vs, ys, k);
    KeptError(vs, ys, k, i);
    DotZero(Dropped(f.a, p.mask), vs[i]);
    DotZero(Dropped(f.a, p.mask), Means(vs, k));
    assert Accepted(vs, ys, f);
  }

  // ---------------------------------------------------------------- when a kept block is within its tolerance

  predicate ScalesSomewhere(vs: Mat, ys: Vec, k: nat)
    requires vs != [] && Rect(vs, |ys|, k)
  {
    true in Scaling(vs, ys, AffineFit(vs, ys, k))
  }

  /** How far a kept block is off at point `i`: from its mean, or by residual and folding. */
  function KeptMiss(vs: Mat, ys: Vec, k: nat, i: nat): real
    requires vs != [] && Rect(vs, |ys|, k) && i < |ys|
  {
    var f := AffineFit(vs, ys, k);
    if ScalesSomewhere(vs, ys, k)
    then (ys[i] - Plane(f.a, f.c, vs[i])) + Folded(f.a, Scaling(vs, ys, f), Means(vs, k), vs[i])
    else ys[i] - Mean(ys)
  }

  predicate Within(vs: Mat, ys: Vec, k: nat, i: nat)
    requires vs != [] && Rect(vs, |ys|, k) && PartOf(vs, ys, k).Kept? && i < |ys|
  {
    var p := PartOf(vs, ys, k);
    Abs(ys[i] - Plane(p.coef, p.cst, vs[i])) <= Tol(ys[i])
  }

  lemma KeptMissIs(vs: Mat, ys: Vec, k: nat, i: nat)
    requires vs != [] && Rect(vs, |ys|, k) && PartOf(vs, ys, k).Kept? && i < |ys|
    ensures var p := PartOf(vs, ys, k); ys[i] - Plane(p.coef, p.cst, vs[i]) == KeptMiss(vs, ys, k, i)
  {
    hide Dot, AffineFit, Means, Mean, Scaling, Folded, Accepted;
    KeptError(vs, ys, k, i);
    KeptIsFolded(vs, ys, k);
    if !ScalesSomewhere(vs, ys, k) {
      DotZero(Fill(k, 0.0), vs[i]);
    }
  }

  /** A kept block that scales nowhere is within its tolerance exactly where its count is close to its mean. */
  lemma ConstantWithin(vs: Mat, ys: Vec, k: nat, i: nat)
    requires vs != [] && Rect(vs, |ys|, k) && PartOf(vs, ys, k).Kept? && !ScalesSomewhere(vs, ys, k) && i < |ys|
    ensures Within(vs, ys, k, i) <==> Abs(ys[i] - Mean(ys)) <= Tol(ys[i])
  {
    hide PartOf, AffineFit, Mean, ScalesSomewhere, Plane, Tol;
    KeptMissIs(vs, ys, k, i);
  }

  /** One that scales is, exactly where residual and folding together are small. */
  lemma ScalingWithin(vs: Mat, ys: Vec, k: nat, i: nat)
    requires vs != [] && Rect(vs, |ys|, k) && PartOf(vs, ys, k).Kept? && ScalesSomewhere(vs, ys, k) && i < |ys|
    ensures var f := AffineFit(vs, ys, k);
            Within(vs, ys, k, i) <==>
            Abs((ys[i] - Plane(f.a, f.c, vs[i])) + Folded(f.a, Scaling(vs, ys, f), Means(vs, k), vs[i])) <= Tol(ys[i])
  {
    hide PartOf, AffineFit, Means, ScalesSomewhere, Plane, Tol, Scaling, Folded;
    KeptMissIs(vs, ys, k, i);
  }

  // ---------------------------------------------------------------- exact blocks

  /** The conditions under which the test keeps an exact plane as it is. */
  predicate Keepable(vs: Mat, ys: Vec, a: Vec, c: real)
    requires vs != [] && Rect(vs, |ys|, |a|)
  {
    && c >= -Tol(Largest(ys))
    && (forall j :: 0 <= j < |a| ==> a[j] == 0.0 || Abs(a[j]) > EXACT || Reach(a[j], RangeOf(vs, j)) > Tol(Largest(ys)))
  }

  predicate OnPlane(vs: Mat, ys: Vec, a: Vec, c: real)
    requires Rect(vs, |ys|, |a|)
  {
    forall i :: 0 <= i < |ys| ==> ys[i] == Plane(a, c, vs[i])
  }

  /**
   Counts on a plane, with every state separable: the block adds exactly that plane to the
   formula if and only if the intercept is not far below zero and no slope is both tiny and idle.
   */
  lemma ExactRecovery(vs: Mat, ys: Vec, k: nat, a: Vec, c: real)
    requires vs != [] && Rect(vs, |ys|, k) && |a| == k && AffineFit(vs, ys, k).dep == {}
    requires OnPlane(vs, ys, a, c)
    ensures var p := PartOf(vs, ys, k);
            (p.Kept? && p.coef == a && p.cst == c) <==> Keepable(vs, ys, a, c)
  {
    hide AffineFit, Dot, RangeOf, Mean, Plane, Tol, Reach;
    var f, p := AffineFit(vs, ys, k), PartOf(vs, ys, k);
    ExactPlaneRecovered(vs, ys, k, a, c);
    assert Follows(vs, ys, a, c);
    assert Accepted(vs, ys, f) <==> c >= -Tol(Largest(ys));
    if p.Kept? {
      KeptIsFolded(vs, ys, k);
      ExactMask(vs, ys, f, p.mask);
      if Keepable(vs, ys, a, c) {
        assert p.coef == a;
        DotZero(Dropped(a, p.mask), Means(vs, k));
      }
    }
  }

  lemma ExactMask(vs: Mat, ys: Vec, f: Fit, mask: seq<bool>)
    requires vs != [] && Rect(vs, |ys|, |f.a|) && f.dev == 0.0 && mask == Scaling(vs, ys, f)
    requires f.c >= -Tol(Largest(ys))
    ensures Keepable(vs, ys, f.a, f.c) <==> forall j :: 0 <= j < |f.a| ==> mask[j] || f.a[j] == 0.0
  {
    hide RangeOf, Tol, Reach;
  }
}
