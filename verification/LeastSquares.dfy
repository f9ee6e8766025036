/**
 Least-squares planes through (state point, count) pairs, fitted on centred and scaled
 variables, over exact reals.
 */
module LeastSquares {
  import opened Vectors
  import opened GaussJordan

  function Col(X: Mat, p: nat): (c: Vec)
    requires forall i :: 0 <= i < |X| ==> p < |X[i]|
    ensures |c| == |X|
    ensures forall i :: 0 <= i < |X| ==> c[i] == X[i][p]
  {
    seq(|X|, i requires 0 <= i < |X| => X[i][p])
  }

  function Mean(s: Vec): real
    requires s != []
  {
    Sum(s) / |s| as real
  }

  function Means(vs: Mat, k: nat): (m: Vec)
    requires vs != [] && Rect(vs, |vs|, k)
    ensures |m| == k
    ensures forall j :: 0 <= j < k ==> m[j] == Mean(Col(vs, j))
  {
    seq(k, j requires 0 <= j < k => Mean(Col(vs, j)))
  }

  /** The largest distance of an entry from `m`, at least 0. */
  function Spread(s: Vec, m: real): (r: real)
    ensures r >= 0.0
    ensures forall i :: 0 <= i < |s| ==> Abs(s[i] - m) <= r
  {
    if s == [] then 0.0 else
      var n := |s| - 1;
      var r := Spread(s[..n], m);
      if Abs(s[n] - m) > r then Abs(s[n] - m) else r
  }

  /** The spread is attained, unless it is 0. */
  lemma {:induction false} SpreadAttained(s: Vec, m: real)
    ensures Spread(s, m) == 0.0 || exists i :: 0 <= i < |s| && Abs(s[i] - m) == Spread(s, m)
  {
    if s != [] {
      var n := |s| - 1;
      SpreadAttained(s[..n], m);
      if Spread(s, m) != 0.0 && Abs(s[n] - m) != Spread(s, m) {
        var i :| 0 <= i < n && Abs(s[..n][i] - m) == Spread(s, m);
        assert Abs(s[i] - m) == Spread(s, m);
      }
    }
  }

  /** A constant column is scaled by 1. */
  function ScaleOf(s: Vec, m: real): (r: real)
    ensures r > 0.0
  {
    if Spread(s, m) == 0.0 then 1.0 else Spread(s, m)
  }

  function Scales(vs: Mat, k: nat): (sc: Vec)
    requires vs != [] && Rect(vs, |vs|, k)
    ensures |sc| == k
    ensures forall j :: 0 <= j < k ==> sc[j] == ScaleOf(Col(vs, j), Mean(Col(vs, j)))
    ensures forall j :: 0 <= j < k ==> sc[j] > 0.0
  {
    seq(k, j requires 0 <= j < k => ScaleOf(Col(vs, j), Mean(Col(vs, j))))
  }

  function Centre(v: real, m: real, s: real): real
    requires s > 0.0
  {
    (v - m) / s
  }

  function CentreRow(v: Vec, mx: Vec, sc: Vec): (r: Vec)
    requires |v| == |mx| == |sc| && forall j :: 0 <= j < |sc| ==> sc[j] > 0.0
    ensures |r| == |v|
    ensures forall j :: 0 <= j < |v| ==> r[j] == Centre(v[j], mx[j], sc[j])
  {
    seq(|v|, j requires 0 <= j < |v| => Centre(v[j], mx[j], sc[j]))
  }

  /** The design matrix: centred, scaled states. */
  function Design(vs: Mat, k: nat): (X: Mat)
    requires vs != [] && Rect(vs, |vs|, k)
    ensures Rect(X, |vs|, k)
    ensures forall i :: 0 <= i < |vs| ==> X[i] == CentreRow(vs[i], Means(vs, k), Scales(vs, k))
  {
    seq(|vs|, i requires 0 <= i < |vs| => CentreRow(vs[i], Means(vs, k), Scales(vs, k)))
  }

  /** Inner products of `e` with the columns. */
  function Comb(e: Vec, X: Mat, k: nat): (r: Vec)
    requires Rect(X, |e|, k)
    ensures |r| == k
    ensures forall p :: 0 <= p < k ==> r[p] == Dot(e, Col(X, p))
  {
    seq(k, p requires 0 <= p < k => Dot(e, Col(X, p)))
  }

  /** The normal matrix. */
  function Gram(X: Mat, k: nat): (A: Mat)
    requires Rect(X, |X|, k)
    ensures Rect(A, k, k)
    ensures forall p :: 0 <= p < k ==> A[p] == Comb(Col(X, p), X, k)
  {
    seq(k, p requires 0 <= p < k => Comb(Col(X, p), X, k))
  }

  function Centred(ys: Vec): (z: Vec)
    requires ys != []
    ensures |z| == |ys|
  {
    Minus(ys, 1.0, Fill(|ys|, Mean(ys)))
  }

  function Unscale(x: Vec, sc: Vec): (a: Vec)
    requires |x| == |sc| && forall j :: 0 <= j < |sc| ==> sc[j] > 0.0
    ensures |a| == |x|
    ensures forall j :: 0 <= j < |x| ==> a[j] == x[j] / sc[j]
  {
    seq(|x|, j requires 0 <= j < |x| => x[j] / sc[j])
  }

  function Plane(a: Vec, c: real, v: Vec): real
    requires |a| == |v|
  {
    Dot(a, v) + c
  }

  function Residuals(vs: Mat, ys: Vec, a: Vec, c: real): (e: Vec)
    requires Rect(vs, |ys|, |a|)
    ensures |e| == |ys|
    ensures forall i :: 0 <= i < |ys| ==> e[i] == ys[i] - Plane(a, c, vs[i])
  {
    seq(|ys|, i requires 0 <= i < |ys| => ys[i] - Plane(a, c, vs[i]))
  }

  function SquaredError(vs: Mat, ys: Vec, a: Vec, c: real): real
    requires Rect(vs, |ys|, |a|)
  {
    Dot(Residuals(vs, ys, a, c), Residuals(vs, ys, a, c))
  }

  /** Coefficients, intercept, worst deviation, and the states that cannot be separated. */
  datatype Fit = Fit(a: Vec, c: real, dev: real, dep: set<nat>)

  /** The solution on scaled variables. */
  function ScaledFit(vs: Mat, ys: Vec, k: nat): (r: (Vec, set<nat>))
    requires vs != [] && Rect(vs, |ys|, k)
    ensures |r.0| == k
  {
    var X := Design(vs, k);
    Solution(Gram(X, k), Comb(Centred(ys), X, k))
  }

  function AffineFit(vs: Mat, ys: Vec, k: nat): (f: Fit)
    requires vs != [] && Rect(vs, |ys|, k)
    ensures |f.a| == k
  {
    var (x, dep) := ScaledFit(vs, ys, k);
    var a := Unscale(x, Scales(vs, k));
    var c := Mean(ys) - Dot(a, Means(vs, k));
    Fit(a, c, Spread(Residuals(vs, ys, a, c), 0.0), dep)
  }

  /** The fit as it is computed: the elimination on scaled variables, taken back to the states. */
  method FitPlane(vs: Mat, ys: Vec, k: nat) returns (f: Fit)
    requires vs != [] && Rect(vs, |ys|, k)
    ensures f == AffineFit(vs, ys, k)
  {
    hide Solution, Design, Gram, Comb, Centred, Mean, Means, Scales, Spread, Dot;
    var mx, my, sc := Means(vs, k), Mean(ys), Scales(vs, k);
    var X := Design(vs, k);
    var x, dep := Solve(Gram(X, k), Comb(Centred(ys), X, k));
    var a := Unscale(x, sc);
    var c := my - Dot(a, mx);
    f := Fit(a, c, Spread(Residuals(vs, ys, a, c), 0.0), dep);
  }

  // ---------------------------------------------------------------- sums over points and over states

  function Apply(X: Mat, x: Vec): (r: Vec)
    requires Rect(X, |X|, |x|)
    ensures |r| == |X|
    ensures forall i :: 0 <= i < |X| ==> r[i] == Dot(X[i], x)
  {
    seq(|X|, i requires 0 <= i < |X| => Dot(X[i], x))
  }

  lemma CombSnoc(e: Vec, X: Mat, k: nat)
    requires Rect(X, |e|, k) && e != []
    ensures var n := |e| - 1; Comb(e, X, k) == Minus(Comb(e[..n], X[..n], k), -e[n], X[n])
  {
    hide Less;
    var n := |e| - 1;
    var r := Minus(Comb(e[..n], X[..n], k), -e[n], X[n]);
    forall p | 0 <= p < k ensures Comb(e, X, k)[p] == r[p] {
      assert Col(X, p)[..n] == Col(X[..n], p);
      LessNegated(Comb(e[..n], X[..n], k)[p], e[n], X[n][p]);
    }
  }

  lemma LessNegated(a: real, f: real, b: real)
    ensures Less(a, -f, b) == a + f * b
  {
  }

  lemma DotLast(a: Vec, b: Vec)
    requires |a| == |b| > 0
    ensures var n := |a| - 1; Dot(a, b) == Dot(a[..n], b[..n]) + a[n] * b[n]
  {
  }

  /** Taking inner products with columns is adjoint to applying the matrix. */
  lemma {:induction false} Adjoint(e: Vec, X: Mat, x: Vec)
    requires Rect(X, |e|, |x|)
    ensures Dot(Comb(e, X, |x|), x) == Dot(e, Apply(X, x))
    decreases |e|, 1
  {
    hide Less, Minus;
    if e == [] {
      DotZero(Comb(e, X, |x|), x);
    } else {
      AdjointExtend(e, X, x);
    }
  }

  lemma AdjointExtend(e: Vec, X: Mat, x: Vec)
    requires Rect(X, |e|, |x|) && e != []
    ensures Dot(Comb(e, X, |x|), x) == Dot(e, Apply(X, x))
    decreases |e|, 0
  {
    hide Less, Minus, Dot;
    var n := |e| - 1;
    Adjoint(e[..n], X[..n], x);
    CombSnoc(e, X, |x|);
    AdjointStep(Comb(e[..n], X[..n], |x|), e[n], X[n], x);
    assert Apply(X, x)[..n] == Apply(X[..n], x);
    DotLast(e, Apply(X, x));
  }

  lemma AdjointStep(w: Vec, y: real, row: Vec, x: Vec)
    requires |w| == |row| == |x|
    ensures Dot(Minus(w, -y, row), x) == Dot(w, x) + y * Dot(row, x)
  {
    hide Dot, Less;
    DotMinus(w, -y, row, x);
    LessNegated(Dot(w, x), y, Dot(row, x));
  }

  /** The columns of the design matrix sum to 0. */
  lemma ColumnSumsToZero(vs: Mat, k: nat, p: nat)
    requires vs != [] && Rect(vs, |vs|, k) && p < k
    ensures Sum(Col(Design(vs, k), p)) == 0.0
  {
    hide Sum, Spread, ScaleOf;
    var col := Col(vs, p);
    var m, s := Mean(col), Scales(vs, k)[p];
    SumCentred(col, Col(Design(vs, k), p), m, s);
    MeanTimes(Sum(col), |col| as real);
  }

  lemma MeanTimes(t: real, n: real)
    requires n > 0.0
    ensures t - n * (t / n) == 0.0
  {
  }

  lemma {:induction false} SumCentred(col: Vec, x: Vec, m: real, s: real)
    requires |col| == |x| && s > 0.0 && forall i :: 0 <= i < |col| ==> x[i] == Centre(col[i], m, s)
    ensures Sum(x) == (Sum(col) - |col| as real * m) / s
  {
    if col != [] {
      var n := |col| - 1;
      SumCentred(col[..n], x[..n], m, s);
      AddQuotients(Sum(col[..n]), n as real, col[n], m, s);
    }
  }

  lemma AddQuotients(t: real, n: real, v: real, m: real, s: real)
    requires s > 0.0
    ensures (t - n * m) / s + Centre(v, m, s) == (t + v - (n + 1.0) * m) / s
  {
    var a, b := t - n * m, v - m;
    assert a / s + b / s == (a + b) / s;
    assert (n + 1.0) * m == n * m + m;
  }

  lemma SumIsMean(ys: Vec)
    requires ys != []
    ensures Sum(Centred(ys)) == 0.0
  {
    var n := |ys|;
    SumMinus(ys, 1.0, Fill(n, Mean(ys)));
    SumFill(n, Mean(ys));
    assert n as real * Mean(ys) == Sum(ys);
  }

  /** Whatever the coefficients, the fitted values of the scaled part sum to 0. */
  lemma AppliedSumsToZero(vs: Mat, x: Vec)
    requires vs != [] && Rect(vs, |vs|, |x|)
    ensures Sum(Apply(Design(vs, |x|), x)) == 0.0
  {
    hide Sum, Dot;
    var X, n := Design(vs, |x|), |vs|;
    var ones := Fill(n, 1.0);
    var g := Apply(X, x);
    DotOnes(g);
    DotCommutes(g, ones);
    Adjoint(ones, X, x);
    forall p | 0 <= p < |x| ensures Comb(ones, X, |x|)[p] == 0.0 {
      DotCommutes(ones, Col(X, p));
      DotOnes(Col(X, p));
      ColumnSumsToZero(vs, |x|, p);
    }
    DotZero(Comb(ones, X, |x|), x);
  }

  // ---------------------------------------------------------------- planes in either coordinates

  lemma {:induction false} DotSplit(a: Vec, v: Vec, b: Vec, x: Vec, m: Vec)
    requires |a| == |v| == |b| == |x| == |m|
    requires forall j :: 0 <= j < |a| ==> a[j] * v[j] == b[j] * x[j] + a[j] * m[j]
    ensures Dot(a, v) == Dot(x, b) + Dot(a, m)
  {
    if a != [] {
      var n := |a| - 1;
      DotSplit(a[..n], v[..n], b[..n], x[..n], m[..n]);
      assert x[n] * b[n] == b[n] * x[n];
    }
  }

  function Rescale(a: Vec, sc: Vec): (b: Vec)
    requires |a| == |sc|
    ensures |b| == |a|
    ensures forall j :: 0 <= j < |a| ==> b[j] == a[j] * sc[j]
  {
    seq(|a|, j requires 0 <= j < |a| => a[j] * sc[j])
  }

  lemma CentreTerm(a: real, v: real, m: real, s: real)
    requires s > 0.0
    ensures a * v == (a * s) * Centre(v, m, s) + a * m
  {
    var x := Centre(v, m, s);
    assert s * x == v - m;
    assert (a * s) * x == a * (s * x);
    assert a * (v - m) == a * v - a * m;
  }

  /** A plane over states is a plane over scaled states through its value at the centroid. */
  lemma PlaneScaled(vs: Mat, k: nat, a: Vec, c: real, i: nat)
    requires vs != [] && Rect(vs, |vs|, k) && |a| == k && i < |vs|
    ensures Plane(a, c, vs[i])
         == Dot(Design(vs, k)[i], Rescale(a, Scales(vs, k))) + (Dot(a, Means(vs, k)) + c)
  {
    hide Dot, Means, Scales, Centre;
    RowScaled(a, vs[i], Means(vs, k), Scales(vs, k));
  }

  lemma RowScaled(a: Vec, v: Vec, mx: Vec, sc: Vec)
    requires |a| == |v| == |mx| == |sc| && forall j :: 0 <= j < |sc| ==> sc[j] > 0.0
    ensures Dot(a, v) == Dot(CentreRow(v, mx, sc), Rescale(a, sc)) + Dot(a, mx)
  {
    hide Dot, Centre;
    var b, x := Rescale(a, sc), CentreRow(v, mx, sc);
    forall j | 0 <= j < |a| ensures a[j] * v[j] == b[j] * x[j] + a[j] * mx[j] {
      CentreTerm(a[j], v[j], mx[j], sc[j]);
    }
    DotSplit(a, v, b, x, mx);
  }

  lemma RescaleUnscale(x: Vec, sc: Vec)
    requires |x| == |sc| && forall j :: 0 <= j < |sc| ==> sc[j] > 0.0
    ensures Rescale(Unscale(x, sc), sc) == x
  {
    forall j | 0 <= j < |x| ensures Rescale(Unscale(x, sc), sc)[j] == x[j] {
      assert x[j] / sc[j] * sc[j] == x[j];
    }
  }

  // ---------------------------------------------------------------- the residuals of the fit

  /** On scaled variables the residuals are the centred counts minus the solution's values. */
  lemma FitResiduals(vs: Mat, ys: Vec, k: nat)
    requires vs != [] && Rect(vs, |ys|, k)
    ensures var f := AffineFit(vs, ys, k);
            Residuals(vs, ys, f.a, f.c) == Minus(Centred(ys), 1.0, Apply(Design(vs, k), ScaledFit(vs, ys, k).0))
  {
    hide Dot, Solution, ScaledFit, Sum, Mean;
    var f, x := AffineFit(vs, ys, k), ScaledFit(vs, ys, k).0;
    var r := Minus(Centred(ys), 1.0, Apply(Design(vs, k), x));
    RescaleUnscale(x, Scales(vs, k));
    forall i | 0 <= i < |ys| ensures Residuals(vs, ys, f.a, f.c)[i] == r[i] {
      PlaneScaled(vs, k, f.a, f.c, i);
    }
  }

  /** The plane passes through the centroid, dependent states or not: residuals sum to 0. */
  lemma ResidualsSumToZero(vs: Mat, ys: Vec, k: nat)
    requires vs != [] && Rect(vs, |ys|, k)
    ensures var f := AffineFit(vs, ys, k); Sum(Residuals(vs, ys, f.a, f.c)) == 0.0
  {
    hide Sum, Dot, AffineFit, ScaledFit;
    var x := ScaledFit(vs, ys, k).0;
    FitResiduals(vs, ys, k);
    SumMinus(Centred(ys), 1.0, Apply(Design(vs, k), x));
    SumIsMean(ys);
    AppliedSumsToZero(vs, x);
  }

  /** The scaled solution meets the normal equations. */
  ghost predicate NormalSolved(vs: Mat, ys: Vec, k: nat)
    requires vs != [] && Rect(vs, |ys|, k)
  {
    SolvesSystem(Gram(Design(vs, k), k), Comb(Centred(ys), Design(vs, k), k), ScaledFit(vs, ys, k).0)
  }

  lemma SeparableIsSolved(vs: Mat, ys: Vec, k: nat)
    requires vs != [] && Rect(vs, |ys|, k) && AffineFit(vs, ys, k).dep == {}
    ensures NormalSolved(vs, ys, k)
  {
    hide SolvesSystem, Solution;
    var X := Design(vs, k);
    SolutionIsUnique(Gram(X, k), Comb(Centred(ys), X, k), ScaledFit(vs, ys, k).0);
  }

  lemma SolvedIsOrthogonal(vs: Mat, ys: Vec, k: nat)
    requires vs != [] && Rect(vs, |ys|, k) && NormalSolved(vs, ys, k)
    ensures var f := AffineFit(vs, ys, k);
            forall p :: 0 <= p < k ==> Comb(Residuals(vs, ys, f.a, f.c), Design(vs, k), k)[p] == 0.0
  {
    var f, X := AffineFit(vs, ys, k), Design(vs, k);
    var x, z := ScaledFit(vs, ys, k).0, Centred(ys);
    FitResiduals(vs, ys, k);
    var e := Residuals(vs, ys, f.a, f.c);
    forall p | 0 <= p < k ensures Comb(e, X, k)[p] == 0.0 {
      OrthogonalTo(X, k, z, x, p);
    }
  }

  /** With no dependent state, the residuals are orthogonal to every state. */
  lemma ResidualsOrthogonal(vs: Mat, ys: Vec, k: nat)
    requires vs != [] && Rect(vs, |ys|, k) && AffineFit(vs, ys, k).dep == {}
    ensures var f := AffineFit(vs, ys, k);
            forall p :: 0 <= p < k ==> Comb(Residuals(vs, ys, f.a, f.c), Design(vs, k), k)[p] == 0.0
  {
    hide NormalSolved;
    SeparableIsSolved(vs, ys, k);
    SolvedIsOrthogonal(vs, ys, k);
  }

  lemma OrthogonalTo(X: Mat, k: nat, z: Vec, x: Vec, p: nat)
    requires Rect(X, |z|, k) && |x| == k && p < k
    requires Dot(Gram(X, k)[p], x) == Comb(z, X, k)[p]
    ensures Comb(Minus(z, 1.0, Apply(X, x)), X, k)[p] == 0.0
  {
    hide Dot;
    var col := Col(X, p);
    DotMinus(z, 1.0, Apply(X, x), col);
    DotCommutes(Apply(X, x), col);
    Adjoint(col, X, x);
  }

  // ---------------------------------------------------------------- optimality

  lemma {:induction false} DotBothMinus(e: Vec, d: Vec)
    requires |e| == |d| && Dot(e, d) == 0.0
    ensures Dot(Minus(e, 1.0, d), Minus(e, 1.0, d)) == Dot(e, e) + Dot(d, d)
  {
    hide Dot;
    var m := Minus(e, 1.0, d);
    DotMinus(e, 1.0, d, m);
    DotCommutes(e, m);
    DotCommutes(d, m);
    DotMinus(e, 1.0, d, e);
    DotMinus(e, 1.0, d, d);
    DotCommutes(e, d);
  }

  /** How far another plane is from the fitted one, at each point. */
  function Offsets(X: Mat, x: Vec, x': Vec, g: real): (d: Vec)
    requires |x| == |x'| && Rect(X, |X|, |x|)
    ensures |d| == |X|
  {
    Minus(Apply(X, Minus(x', 1.0, x)), -1.0, Fill(|X|, g))
  }

  lemma OffsetAt(X: Mat, x: Vec, x': Vec, g: real, i: nat)
    requires |x| == |x'| && Rect(X, |X|, |x|) && i < |X|
    ensures Offsets(X, x, x', g)[i] == Dot(X[i], x') - Dot(X[i], x) + g
  {
    hide Dot;
    DotCommutes(X[i], Minus(x', 1.0, x));
    DotMinus(x', 1.0, x, X[i]);
    DotCommutes(x', X[i]);
    DotCommutes(x, X[i]);
  }

  lemma OtherResiduals(vs: Mat, ys: Vec, k: nat, a: Vec, c: real)
    requires vs != [] && Rect(vs, |ys|, k) && |a| == k
    ensures var f := AffineFit(vs, ys, k);
            var g := Dot(a, Means(vs, k)) + c - Mean(ys);
            Residuals(vs, ys, a, c) ==
            Minus(Residuals(vs, ys, f.a, f.c), 1.0,
                  Offsets(Design(vs, k), ScaledFit(vs, ys, k).0, Rescale(a, Scales(vs, k)), g))
  {
    hide Dot, AffineFit, ScaledFit, Mean, Offsets, Means, Scales, Design;
    FitResiduals(vs, ys, k);
    var f, x, X := AffineFit(vs, ys, k), ScaledFit(vs, ys, k).0, Design(vs, k);
    var x' := Rescale(a, Scales(vs, k));
    var g := Dot(a, Means(vs, k)) + c - Mean(ys);
    var r := Minus(Residuals(vs, ys, f.a, f.c), 1.0, Offsets(X, x, x', g));
    forall i | 0 <= i < |ys| ensures Residuals(vs, ys, a, c)[i] == r[i] {
      PlaneScaled(vs, k, a, c, i);
      OffsetAt(X, x, x', g, i);
    }
  }

  lemma OffsetsOrthogonal(X: Mat, e: Vec, x: Vec, x': Vec, g: real)
    requires |x| == |x'| && Rect(X, |e|, |x|) && Sum(e) == 0.0
    requires forall p :: 0 <= p < |x| ==> Comb(e, X, |x|)[p] == 0.0
    ensures Dot(e, Offsets(X, x, x', g)) == 0.0
  {
    hide Dot, Sum;
    var w := Minus(x', 1.0, x);
    Adjoint(e, X, w);
    DotZero(Comb(e, X, |x|), w);
    var d := Offsets(X, x, x', g);
    DotCommutes(e, d);
    DotMinus(Apply(X, w), -1.0, Fill(|X|, g), e);
    DotCommutes(Apply(X, w), e);
    DotFill(e, g);
    DotCommutes(Fill(|X|, g), e);
  }

  lemma {:induction false} DotFill(e: Vec, g: real)
    ensures Dot(e, Fill(|e|, g)) == g * Sum(e)
  {
    if e != [] {
      var n := |e| - 1;
      DotFill(e[..n], g);
      assert Fill(|e|, g)[..n] == Fill(n, g);
      assert g * Sum(e[..n]) + e[n] * g == g * (Sum(e[..n]) + e[n]);
    }
  }

  lemma SolvedIsOptimal(vs: Mat, ys: Vec, k: nat, a: Vec, c: real)
    requires vs != [] && Rect(vs, |ys|, k) && |a| == k && NormalSolved(vs, ys, k)
    ensures var f := AffineFit(vs, ys, k);
            SquaredError(vs, ys, f.a, f.c) <= SquaredError(vs, ys, a, c)
  {
    hide Dot, Sum, AffineFit, ScaledFit, Offsets, NormalSolved;
    var f, x, X := AffineFit(vs, ys, k), ScaledFit(vs, ys, k).0, Design(vs, k);
    var e := Residuals(vs, ys, f.a, f.c);
    var g := Dot(a, Means(vs, k)) + c - Mean(ys);
    var d := Offsets(X, x, Rescale(a, Scales(vs, k)), g);
    ResidualsSumToZero(vs, ys, k);
    SolvedIsOrthogonal(vs, ys, k);
    OffsetsOrthogonal(X, e, x, Rescale(a, Scales(vs, k)), g);
    OtherResiduals(vs, ys, k, a, c);
    DotBothMinus(e, d);
    DotSquareNonNegative(d);
  }

  /** With no dependent state, no plane at all has a smaller squared error than the fitted one. */
  lemma FitIsOptimal(vs: Mat, ys: Vec, k: nat, a: Vec, c: real)
    requires vs != [] && Rect(vs, |ys|, k) && |a| == k && AffineFit(vs, ys, k).dep == {}
    ensures var f := AffineFit(vs, ys, k);
            SquaredError(vs, ys, f.a, f.c) <= SquaredError(vs, ys, a, c)
  {
    hide NormalSolved, AffineFit;
    SeparableIsSolved(vs, ys, k);
    SolvedIsOptimal(vs, ys, k, a, c);
  }

  /** Which states are dependent is decided by the points alone. */
  lemma DependenceIsOfThePoints(vs: Mat, ys: Vec, ys': Vec, k: nat)
    requires vs != [] && Rect(vs, |ys|, k) && |ys'| == |ys|
    ensures AffineFit(vs, ys, k).dep == AffineFit(vs, ys', k).dep
  {
    hide Solution;
    var X := Design(vs, k);
    DependenceIgnoresCounts(Gram(X, k), Comb(Centred(ys), X, k), Comb(Centred(ys'), X, k));
  }

  // ---------------------------------------------------------------- exact planes are recovered

  /** Counts that lie on a plane are fitted by that plane, if no state is dependent. */
  lemma ExactPlaneRecovered(vs: Mat, ys: Vec, k: nat, a: Vec, c: real)
    requires vs != [] && Rect(vs, |ys|, k) && |a| == k && AffineFit(vs, ys, k).dep == {}
    requires forall i :: 0 <= i < |ys| ==> ys[i] == Plane(a, c, vs[i])
    ensures var f := AffineFit(vs, ys, k); f.a == a && f.c == c && f.dev == 0.0
  {
    hide Dot, Mean, Solution, Spread, Means, Scales, Design, Gram, Comb, Centred, Rescale, Unscale;
    var X, x := Design(vs, k), Rescale(a, Scales(vs, k));
    var A, b := Gram(X, k), Comb(Centred(ys), X, k);
    ExactCentred(vs, ys, k, a, c);
    ExactSolves(X, k, Centred(ys), x);
    SolutionIsUnique(A, b, x);
    UnscaleRescale(a, Scales(vs, k));
    ZeroSpread(Residuals(vs, ys, a, c));
  }

  lemma {:induction false} ZeroSpread(e: Vec)
    requires forall i :: 0 <= i < |e| ==> e[i] == 0.0
    ensures Spread(e, 0.0) == 0.0
  {
    if e != [] {
      ZeroSpread(e[..|e| - 1]);
    }
  }

  lemma UnscaleRescale(a: Vec, sc: Vec)
    requires |a| == |sc| && forall j :: 0 <= j < |sc| ==> sc[j] > 0.0
    ensures Unscale(Rescale(a, sc), sc) == a
  {
    forall j | 0 <= j < |a| ensures Unscale(Rescale(a, sc), sc)[j] == a[j] {
      assert a[j] * sc[j] / sc[j] == a[j];
    }
  }

  /** Counts on a plane: their mean is the plane's value at the centroid, and what remains is linear. */
  lemma ExactCentred(vs: Mat, ys: Vec, k: nat, a: Vec, c: real)
    requires vs != [] && Rect(vs, |ys|, k) && |a| == k
    requires forall i :: 0 <= i < |ys| ==> ys[i] == Plane(a, c, vs[i])
    ensures Mean(ys) == Dot(a, Means(vs, k)) + c
    ensures Centred(ys) == Apply(Design(vs, k), Rescale(a, Scales(vs, k)))
  {
    hide Dot, Sum;
    var X, x, m := Design(vs, k), Rescale(a, Scales(vs, k)), Dot(a, Means(vs, k)) + c;
    var g := Apply(X, x);
    forall i | 0 <= i < |ys| ensures ys[i] == g[i] + m {
      PlaneScaled(vs, k, a, c, i);
    }
    AppliedSumsToZero(vs, x);
    ShiftedMean(ys, g, m);
  }

  /** Adding a constant to numbers that sum to 0 makes it their mean. */
  lemma ShiftedMean(ys: Vec, g: Vec, m: real)
    requires ys != [] && |ys| == |g| && Sum(g) == 0.0
    requires forall i :: 0 <= i < |ys| ==> ys[i] == g[i] + m
    ensures Mean(ys) == m && Centred(ys) == g
  {
    hide Sum;
    var n := |ys|;
    var r := Minus(g, -1.0, Fill(n, m));
    forall i | 0 <= i < n ensures ys[i] == r[i] {
      LessNegated(g[i], 1.0, m);
    }
    assert ys == r;
    SumMinus(g, -1.0, Fill(n, m));
    SumFill(n, m);
    assert n as real * m / n as real == m;
    forall i | 0 <= i < n ensures Centred(ys)[i] == g[i] {
    }
  }

  lemma ExactSolves(X: Mat, k: nat, z: Vec, x: Vec)
    requires Rect(X, |z|, k) && |x| == k && z == Apply(X, x)
    ensures SolvesSystem(Gram(X, k), Comb(z, X, k), x)
  {
    hide Dot;
    forall p | 0 <= p < k ensures Dot(Gram(X, k)[p], x) == Comb(z, X, k)[p] {
      Adjoint(Col(X, p), X, x);
      DotCommutes(Col(X, p), z);
    }
  }
}
