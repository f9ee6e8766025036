/** Finite real vectors: sums, inner products, and the linear facts least squares needs. */
module Vectors {
  type Vec = seq<real>

  function Sum(s: Vec): real {
    if s == [] then 0.0 else Sum(s[..|s| - 1]) + s[|s| - 1]
  }

  function Dot(a: Vec, b: Vec): real
    requires |a| == |b|
  {
    if a == [] then 0.0 else
      var n := |a| - 1;
      Dot(a[..n], b[..n]) + a[n] * b[n]
  }

  function Less(a: real, f: real, b: real): real { a - f * b }

  /** a - f * b */
  function Minus(a: Vec, f: real, b: Vec): (r: Vec)
    requires |a| == |b|
    ensures |r| == |a|
    ensures forall j :: 0 <= j < |r| ==> r[j] == Less(a[j], f, b[j])
  {
    seq(|a|, j requires 0 <= j < |a| => Less(a[j], f, b[j]))
  }

  lemma MinusFront(a: Vec, f: real, b: Vec)
    requires |a| == |b| > 0
    ensures Minus(a, f, b)[..|a| - 1] == Minus(a[..|a| - 1], f, b[..|a| - 1])
  {
    hide Less;
  }

  function Fill(n: nat, x: real): (r: Vec)
    ensures |r| == n
    ensures forall j :: 0 <= j < n ==> r[j] == x
  {
    seq(n, _ => x)
  }

  function Abs(x: real): (r: real)
    ensures r >= 0.0 && r >= x && r >= -x && (r == x || r == -x)
  {
    if x < 0.0 then -x else x
  }

  lemma Distribute(a: real, f: real, b: real, x: real)
    ensures (a - f * b) * x == a * x - f * (b * x)
  {
  }

  lemma {:induction false} DotMinus(a: Vec, f: real, b: Vec, x: Vec)
    requires |a| == |b| == |x|
    ensures Dot(Minus(a, f, b), x) == Dot(a, x) - f * Dot(b, x)
  {
    if a != [] {
      var n := |a| - 1;
      DotMinus(a[..n], f, b[..n], x[..n]);
      MinusFront(a, f, b);
      Distribute(a[n], f, b[n], x[n]);
      assert f * (Dot(b[..n], x[..n]) + b[n] * x[n]) == f * Dot(b[..n], x[..n]) + f * (b[n] * x[n]);
    }
  }

  lemma {:induction false} DotCommutes(a: Vec, b: Vec)
    requires |a| == |b|
    ensures Dot(a, b) == Dot(b, a)
  {
    if a != [] {
      DotCommutes(a[..|a| - 1], b[..|b| - 1]);
    }
  }

  lemma {:induction false} DotZero(a: Vec, x: Vec)
    requires |a| == |x| && forall j :: 0 <= j < |a| ==> a[j] == 0.0
    ensures Dot(a, x) == 0.0
  {
    if a != [] {
      DotZero(a[..|a| - 1], x[..|x| - 1]);
    }
  }

  /** Only position `i` matters when the products elsewhere vanish. */
  lemma {:induction false} DotSingle(a: Vec, x: Vec, i: nat)
    requires |a| == |x| && i < |a|
    requires forall j :: 0 <= j < |a| && j != i ==> a[j] == 0.0
    ensures Dot(a, x) == a[i] * x[i]
  {
    var n := |a| - 1;
    if i == n {
      DotZero(a[..n], x[..n]);
    } else {
      DotSingle(a[..n], x[..n], i);
    }
  }

  lemma DotSnoc(a: Vec, p: real, b: Vec, q: real)
    requires |a| == |b|
    ensures Dot(a + [p], b + [q]) == Dot(a, b) + p * q
  {
    assert (a + [p])[..|a|] == a && (b + [q])[..|b|] == b;
  }

  lemma {:induction false} DotSquareNonNegative(a: Vec)
    ensures Dot(a, a) >= 0.0
  {
    if a != [] {
      DotSquareNonNegative(a[..|a| - 1]);
    }
  }

  lemma {:induction false} DotOnes(a: Vec)
    ensures Dot(a, Fill(|a|, 1.0)) == Sum(a)
  {
    if a != [] {
      DotOnes(a[..|a| - 1]);
      assert Fill(|a|, 1.0)[..|a| - 1] == Fill(|a| - 1, 1.0);
    }
  }

  lemma {:induction false} SumMinus(a: Vec, f: real, b: Vec)
    requires |a| == |b|
    ensures Sum(Minus(a, f, b)) == Sum(a) - f * Sum(b)
  {
    if a != [] {
      var n := |a| - 1;
      SumMinus(a[..n], f, b[..n]);
      MinusFront(a, f, b);
      assert f * (Sum(b[..n]) + b[n]) == f * Sum(b[..n]) + f * b[n];
    }
  }

  lemma {:induction false} SumFill(n: nat, x: real)
    ensures Sum(Fill(n, x)) == n as real * x
  {
    if n > 0 {
      SumFill(n - 1, x);
      assert Fill(n, x)[..n - 1] == Fill(n - 1, x);
      assert (n - 1) as real * x + x == n as real * x;
    }
  }

  lemma SumSnoc(a: Vec, x: real)
    ensures Sum(a + [x]) == Sum(a) + x
  {
    assert (a + [x])[..|a|] == a;
  }
}
