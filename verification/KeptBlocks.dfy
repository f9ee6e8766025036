/**
 Which blocks a regime keeps, said on the points and the counts alone; and what is kept, counted
 and charged for each of them.
 */
module KeptBlocks {
  import opened Vectors
  import opened GaussJordan
  import opened LeastSquares
  import opened RealMaps
  import opened BlockRelation
  import opened Regimes

  // ---------------------------------------------------------------- one block

  /** How far the count at point `i` is from a plane. */
  function Residual(vs: Mat, ys: Vec, a: Vec, c: real, i: nat): real
    requires Rect(vs, |ys|, |a|) && i < |ys|
  {
    ys[i] - (Dot(a, vs[i]) + c)
  }

  /** Every count within 64 of the plane, or within a twentieth of itself. */
  predicate Near(vs: Mat, ys: Vec, a: Vec, c: real)
    requires Rect(vs, |ys|, |a|)
  {
    forall i :: 0 <= i < |ys| ==>
      || -64.0 <= Residual(vs, ys, a, c, i) <= 64.0
      || -(ys[i] / 20.0) <= Residual(vs, ys, a, c, i) <= ys[i] / 20.0
  }

  /** An intercept no further below zero than 64, or than a twentieth of some count. */
  predicate NotFarBelow(ys: Vec, c: real) {
    c >= -64.0 || exists i :: 0 <= i < |ys| && c >= -(ys[i] / 20.0)
  }

  lemma NearIff(vs: Mat, ys: Vec, a: Vec, c: real)
    requires Rect(vs, |ys|, |a|)
    ensures Follows(vs, ys, a, c) <==> Near(vs, ys, a, c)
  {
    hide Dot;
    forall i | 0 <= i < |ys|
      ensures Abs(ys[i] - Plane(a, c, vs[i])) <= Tol(ys[i]) <==>
              (|| -64.0 <= Residual(vs, ys, a, c, i) <= 64.0
               || -(ys[i] / 20.0) <= Residual(vs, ys, a, c, i) <= ys[i] / 20.0)
    {
    }
    if Follows(vs, ys, a, c) {
      forall i | 0 <= i < |ys|
        ensures || -64.0 <= Residual(vs, ys, a, c, i) <= 64.0
                || -(ys[i] / 20.0) <= Residual(vs, ys, a, c, i) <= ys[i] / 20.0
      {
        assert Abs(ys[i] - Plane(a, c, vs[i])) <= Tol(ys[i]);
      }
    }
    if Near(vs, ys, a, c) {
      forall i | 0 <= i < |ys| ensures Abs(ys[i] - Plane(a, c, vs[i])) <= Tol(ys[i]) {
        assert || -64.0 <= Residual(vs, ys, a, c, i) <= 64.0
               || -(ys[i] / 20.0) <= Residual(vs, ys, a, c, i) <= ys[i] / 20.0;
      }
    }
  }

  lemma NotFarBelowIff(ys: Vec, c: real)
    requires ys != []
    ensures c >= -Tol(Largest(ys)) <==> NotFarBelow(ys, c)
  {
    var i :| 0 <= i < |ys| && ys[i] == Largest(ys);
    if c >= -(Largest(ys) / 20.0) {
      assert c >= -(ys[i] / 20.0);
    }
  }

  /**
   A block is kept if and only if each count is within 64, or within a twentieth of itself, of the
   fitted plane, and the plane's intercept is not further below zero than 64 or than a twentieth
   of the largest count.
   */
  lemma KeptIff(vs: Mat, ys: Vec, k: nat)
    requires vs != [] && Rect(vs, |ys|, k)
    ensures var f := AffineFit(vs, ys, k); PartOf(vs, ys, k).Kept? <==> Near(vs, ys, f.a, f.c) && NotFarBelow(ys, f.c)
  {
    hide AffineFit, Follows, Near, NotFarBelow, Scaling, Mean, Means, Dot, Tol;
    var f := AffineFit(vs, ys, k);
    NearIff(vs, ys, f.a, f.c);
    NotFarBelowIff(ys, f.c);
  }

  /** How much a slope of `a`, up or down, moves a count over a distance. */
  function Shift(a: real, d: real): real {
    if a < 0.0 then -(a * d) else a * d
  }

  /** Between some two points state `j` moves the count by more than 64 and than a twentieth of any count. */
  predicate Moves(vs: Mat, ys: Vec, a: Vec, j: nat)
    requires Rect(vs, |ys|, |a|) && j < |a|
  {
    exists i, h :: 0 <= i < |vs| && 0 <= h < |vs| && MovesBetween(vs, ys, a, j, i, h)
  }

  predicate MovesBetween(vs: Mat, ys: Vec, a: Vec, j: nat, i: nat, h: nat)
    requires Rect(vs, |ys|, |a|) && j < |a| && i < |vs| && h < |vs|
  {
    var d := Shift(a[j], vs[i][j] - vs[h][j]);
    d > 64.0 && forall m :: 0 <= m < |ys| ==> d > ys[m] / 20.0
  }

  /** The plane is off nowhere by more than a billionth, or than a billionth of some count. */
  predicate Exactly(vs: Mat, ys: Vec, a: Vec, c: real)
    requires Rect(vs, |ys|, |a|)
  {
    forall i :: 0 <= i < |ys| ==>
      || Abs(Residual(vs, ys, a, c, i)) <= 0.000000001
      || exists m :: 0 <= m < |ys| && Abs(Residual(vs, ys, a, c, i)) <= 0.000000001 * ys[m]
  }

  lemma ShiftIsReach(a: real, r: real, s: real)
    requires r <= s
    ensures Shift(a, s) == Reach(a, s)
    ensures Shift(a, r) <= Shift(a, s)
  {
  }

  lemma OverRange(vs: Mat, j: nat, i: nat, h: nat)
    requires vs != [] && (forall m :: 0 <= m < |vs| ==> j < |vs[m]|) && i < |vs| && h < |vs|
    ensures vs[i][j] - vs[h][j] <= RangeOf(vs, j)
  {
    hide Largest, Smallest;
    var col := Col(vs, j);
    assert col[i] <= Largest(col) && Smallest(col) <= col[h];
  }

  lemma WholeRange(vs: Mat, j: nat) returns (i: nat, h: nat)
    requires vs != [] && forall m :: 0 <= m < |vs| ==> j < |vs[m]|
    ensures i < |vs| && h < |vs| && vs[i][j] - vs[h][j] == RangeOf(vs, j)
  {
    hide Largest, Smallest;
    var col := Col(vs, j);
    i :| 0 <= i < |col| && col[i] == Largest(col);
    h :| 0 <= h < |col| && col[h] == Smallest(col);
  }

  lemma OverTol(ys: Vec, d: real)
    requires ys != []
    ensures d > Tol(Largest(ys)) <==> d > 64.0 && forall m :: 0 <= m < |ys| ==> d > ys[m] / 20.0
  {
    hide Largest;
    var top :| 0 <= top < |ys| && ys[top] == Largest(ys);
  }

  lemma MovesIff(vs: Mat, ys: Vec, a: Vec, j: nat)
    requires vs != [] && Rect(vs, |ys|, |a|) && j < |a|
    ensures Moves(vs, ys, a, j) <==> Reach(a[j], RangeOf(vs, j)) > Tol(Largest(ys))
  {
    hide Reach, Shift, RangeOf, Tol, Largest;
    var range := RangeOf(vs, j);
    ShiftIsReach(a[j], range, range);
    if Moves(vs, ys, a, j) {
      var i, h :| 0 <= i < |vs| && 0 <= h < |vs| && MovesBetween(vs, ys, a, j, i, h);
      OverTol(ys, Shift(a[j], vs[i][j] - vs[h][j]));
      OverRange(vs, j, i, h);
      ShiftIsReach(a[j], vs[i][j] - vs[h][j], range);
    }
    if Reach(a[j], range) > Tol(Largest(ys)) {
      var i, h := WholeRange(vs, j);
      OverTol(ys, Shift(a[j], range));
      assert MovesBetween(vs, ys, a, j, i, h);
    }
  }

  lemma ExactlyIff(vs: Mat, ys: Vec, a: Vec, c: real)
    requires vs != [] && Rect(vs, |ys|, |a|)
    ensures IsExact(ys, Spread(Residuals(vs, ys, a, c), 0.0)) <==> Exactly(vs, ys, a, c)
  {
    hide Spread, Largest, Dot;
    var e := Residuals(vs, ys, a, c);
    var dev := Spread(e, 0.0);
    var top :| 0 <= top < |ys| && ys[top] == Largest(ys);
    forall i | 0 <= i < |ys| ensures e[i] == Residual(vs, ys, a, c, i) {
    }
    SpreadAttained(e, 0.0);
    if IsExact(ys, dev) {
      forall i | 0 <= i < |ys|
        ensures || Abs(Residual(vs, ys, a, c, i)) <= 0.000000001
                || exists m :: 0 <= m < |ys| && Abs(Residual(vs, ys, a, c, i)) <= 0.000000001 * ys[m]
      {
        assert Abs(e[i] - 0.0) <= dev;
        assert dev <= 0.000000001 || dev <= 0.000000001 * ys[top];
      }
    }
    if Exactly(vs, ys, a, c) && dev != 0.0 {
      var i :| 0 <= i < |e| && Abs(e[i] - 0.0) == dev;
      assert Abs(Residual(vs, ys, a, c, i)) == dev;
      if !(dev <= 0.000000001) {
        var m :| 0 <= m < |ys| && Abs(Residual(vs, ys, a, c, i)) <= 0.000000001 * ys[m];
        assert ys[m] <= Largest(ys);
      }
    }
  }

  /**
   A kept block's slope in a state is the fitted one if that slope matters between two of the
   points, or is more than a billionth and the plane exact; it is 0 otherwise. Over the points it
   still sums to the counts.
   */
  lemma SlopeIff(vs: Mat, ys: Vec, k: nat, j: nat)
    requires vs != [] && Rect(vs, |ys|, k) && j < k && PartOf(vs, ys, k).Kept?
    ensures var f, p := AffineFit(vs, ys, k), PartOf(vs, ys, k);
            && (p.mask[j] <==> Moves(vs, ys, f.a, j) ||
                               (Exactly(vs, ys, f.a, f.c) && !(-0.000000001 <= f.a[j] <= 0.000000001)))
            && p.coef[j] == if p.mask[j] then f.a[j] else 0.0
  {
    hide PartOf, Moves, Exactly, Reach, RangeOf, Tol, Largest, IsExact, Dot, Spread, Means, Unscale, ScaledFit, Mean;
    var f, p := AffineFit(vs, ys, k), PartOf(vs, ys, k);
    KeptIsFolded(vs, ys, k);
    assert p.mask[j] == ScalesIn(vs, ys, f, j);
    assert f.dev == Spread(Residuals(vs, ys, f.a, f.c), 0.0);
    hide AffineFit, Scaling;
    MovesIff(vs, ys, f.a, j);
    ExactlyIff(vs, ys, f.a, f.c);
    BillionthIff(f.a[j]);
  }

  lemma BillionthIff(a: real)
    ensures Abs(a) > EXACT <==> !(-0.000000001 <= a <= 0.000000001)
  {
  }

  // ---------------------------------------------------------------- a whole regime

  /** The module is one of the threading runtimes. */
  predicate InRuntime(sym: Sym) {
    "libgomp" <= sym.0 || "libiomp" <= sym.0 || "libomp" <= sym.0 || "libtbb" <= sym.0
  }

  lemma RuntimeIff(sym: Sym)
    ensures IsRuntime(sym) <==> InRuntime(sym)
  {
    assert RUNTIME_MODULES[0] == "libgomp" && RUNTIME_MODULES[1] == "libiomp";
    assert RUNTIME_MODULES[2] == "libomp" && RUNTIME_MODULES[3] == "libtbb";
  }

  predicate Keeps(vs: Mat, ys: Vec, k: nat)
    requires vs != [] && Rect(vs, |ys|, k)
  {
    var f := AffineFit(vs, ys, k);
    Near(vs, ys, f.a, f.c) && NotFarBelow(ys, f.c)
  }

  /** The block's counts stay out of the formula and are not waiting either. */
  predicate StaysOut(vs: Mat, k: nat, b: Block)
    requires Points(vs, k) && |b.ys| == |vs|
  {
    !InRuntime(b.sym) && !Keeps(vs, b.ys, k)
  }

  predicate Joins(vs: Mat, k: nat, b: Block)
    requires Points(vs, k) && |b.ys| == |vs|
  {
    !InRuntime(b.sym) && Keeps(vs, b.ys, k)
  }

  lemma KindIs(vs: Mat, k: nat, b: Block)
    requires Points(vs, k) && |b.ys| == |vs|
    ensures KindOf(vs, k, b).Waiting? <==> InRuntime(b.sym)
    ensures KindOf(vs, k, b).Irregularity? <==> StaysOut(vs, k, b)
    ensures KindOf(vs, k, b).Regular? <==> Joins(vs, k, b)
    ensures KindOf(vs, k, b).Regular? ==> KindOf(vs, k, b).part == PartOf(vs, b.ys, k)
  {
    hide IsRuntime, InRuntime, PartOf, AffineFit, Near, NotFarBelow;
    RuntimeIff(b.sym);
    KeptIff(vs, b.ys, k);
  }

  function IrregularSum(vs: Mat, k: nat, bs: seq<Block>, i: nat): real
    requires Points(vs, k) && Blocks(bs, |vs|) && i < |vs|
  {
    if bs == [] then 0.0 else
      var m := |bs| - 1;
      IrregularSum(vs, k, bs[..m], i) + if StaysOut(vs, k, bs[m]) then bs[m].ys[i] else 0.0
  }

  function WaitingSum(vs: Mat, bs: seq<Block>, i: nat): real
    requires Blocks(bs, |vs|) && i < |vs|
  {
    if bs == [] then 0.0 else
      var m := |bs| - 1;
      WaitingSum(vs, bs[..m], i) + if InRuntime(bs[m].sym) then bs[m].ys[i] else 0.0
  }

  function KeptSum(vs: Mat, k: nat, bs: seq<Block>, i: nat): real
    requires Points(vs, k) && Blocks(bs, |vs|) && i < |vs|
  {
    if bs == [] then 0.0 else
      var m := |bs| - 1;
      KeptSum(vs, k, bs[..m], i) + if Joins(vs, k, bs[m]) then bs[m].ys[i] else 0.0
  }

  lemma CountIs(vs: Mat, k: nat, b: Block, i: nat)
    requires Points(vs, k) && |b.ys| == |vs| && i < |vs|
    ensures CountOf(vs, k, b, IrregularBlocks, i) == if StaysOut(vs, k, b) then b.ys[i] else 0.0
    ensures CountOf(vs, k, b, WaitingBlocks, i) == if InRuntime(b.sym) then b.ys[i] else 0.0
    ensures CountOf(vs, k, b, RegularBlocks, i) == if Joins(vs, k, b) then b.ys[i] else 0.0
  {
    hide KindOf, StaysOut, Joins, InRuntime;
    KindIs(vs, k, b);
  }

  lemma {:induction false} SumsAre(vs: Mat, k: nat, bs: seq<Block>, i: nat)
    requires Points(vs, k) && Blocks(bs, |vs|) && i < |vs|
    ensures CountsAt(vs, k, bs, IrregularBlocks, i) == IrregularSum(vs, k, bs, i)
    ensures CountsAt(vs, k, bs, WaitingBlocks, i) == WaitingSum(vs, bs, i)
    ensures CountsAt(vs, k, bs, RegularBlocks, i) == KeptSum(vs, k, bs, i)
  {
    hide CountOf, StaysOut, Joins, InRuntime;
    if bs != [] {
      SumsAre(vs, k, bs[..|bs| - 1], i);
      CountIs(vs, k, bs[|bs| - 1], i);
    }
  }

  /** The plane a block adds. */
  function PlaneOf(vs: Mat, k: nat, b: Block, v: Vec): real
    requires Points(vs, k) && |b.ys| == |vs| && |v| == k
  {
    var p := PartOf(vs, b.ys, k);
    if p.Kept? then Dot(p.coef, v) + p.cst else 0.0
  }

  function KeptPlanes(vs: Mat, k: nat, bs: seq<Block>, v: Vec): real
    requires Points(vs, k) && Blocks(bs, |vs|) && |v| == k
  {
    if bs == [] then 0.0 else
      var m := |bs| - 1;
      KeptPlanes(vs, k, bs[..m], v) + if Joins(vs, k, bs[m]) then PlaneOf(vs, k, bs[m], v) else 0.0
  }

  lemma {:induction false} PlanesAre(vs: Mat, k: nat, bs: seq<Block>, v: Vec)
    requires Points(vs, k) && Blocks(bs, |vs|) && |v| == k
    ensures FormulaShares(vs, k, bs, v) == KeptPlanes(vs, k, bs, v)
  {
    hide KindOf, StaysOut, Joins, Dot, PartOf;
    if bs != [] {
      PlanesAre(vs, k, bs[..|bs| - 1], v);
      KindIs(vs, k, bs[|bs| - 1]);
    }
  }

  /**
   Outside the runtimes, the irregular table holds at each observed point the counts of exactly
   the blocks that fail the test there is on points and counts, and the formula is the sum of the
   planes of those that pass it; the waiting table holds the runtimes' counts.
   */
  lemma TablesIff(vs: Mat, k: nat, bs: seq<Block>, i: nat)
    requires Points(vs, k) && Blocks(bs, |vs|) && i < |vs|
    ensures Get(TotalsOf(vs, k, bs).irr, vs[i]) == IrregularSum(vs, k, bs, i)
    ensures Get(TotalsOf(vs, k, bs).wait, vs[i]) == WaitingSum(vs, bs, i)
    ensures forall v :: |v| == k ==> Formula(TotalsOf(vs, k, bs), v) == KeptPlanes(vs, k, bs, v)
  {
    hide TotalsOf, CountsAt, IrregularSum, WaitingSum, KeptSum, KeptPlanes, FormulaShares, Formula, Get;
    TablesMeaning(vs, k, bs, i);
    SumsAre(vs, k, bs, i);
    forall v: Vec | |v| == k ensures Formula(TotalsOf(vs, k, bs), v) == KeptPlanes(vs, k, bs, v) {
      FormulaMeaning(vs, k, bs, v);
      PlanesAre(vs, k, bs, v);
    }
  }

  // ---------------------------------------------------------------- how many blocks of each kind

  /** How many blocks stay out, join with a slope, and join without one. */
  function Numbers(vs: Mat, k: nat, bs: seq<Block>): (r: (nat, nat, nat))
    requires Points(vs, k) && Blocks(bs, |vs|)
  {
    if bs == [] then (0, 0, 0) else
      var m := |bs| - 1;
      var (out, affine, constant) := Numbers(vs, k, bs[..m]);
      if StaysOut(vs, k, bs[m]) then (out + 1, affine, constant)
      else if !Joins(vs, k, bs[m]) then (out, affine, constant)
      else if ScalesSomewhere(vs, bs[m].ys, k) then (out, affine + 1, constant)
      else (out, affine, constant + 1)
  }

  lemma OneMore(t: Totals, vs: Mat, k: nat, b: Block)
    requires Points(vs, k) && |b.ys| == |vs| && HasStates(t, k)
    ensures var t' := AddBlock(t, vs, k, b);
            && t'.nIrr == t.nIrr + (if StaysOut(vs, k, b) then 1 else 0)
            && t'.nAffine == t.nAffine + (if Joins(vs, k, b) && ScalesSomewhere(vs, b.ys, k) then 1 else 0)
            && t'.nConst == t.nConst + (if Joins(vs, k, b) && !ScalesSomewhere(vs, b.ys, k) then 1 else 0)
            && t'.dep == t.dep + (if InRuntime(b.sym) then {} else AffineFit(vs, b.ys, k).dep)
  {
    hide IsRuntime, InRuntime, PartOf, AffineFit, StaysOut, Joins, Mean, Bump, AddAll, ChargeSlopes, Plus, Scaling;
    KindIs(vs, k, b);
    if PartOf(vs, b.ys, k).Kept? {
      KeptIsFolded(vs, b.ys, k);
    }
  }

  /** The numbers of irregular, scaling and constant blocks are those of the blocks the test says that of. */
  lemma {:induction false} NumbersAre(vs: Mat, k: nat, bs: seq<Block>)
    requires Points(vs, k) && Blocks(bs, |vs|)
    ensures var t := TotalsOf(vs, k, bs); (t.nIrr, t.nAffine, t.nConst) == Numbers(vs, k, bs)
  {
    hide AddBlock, StaysOut, Joins, InRuntime, ScalesSomewhere, AffineFit;
    if bs != [] {
      var m := |bs| - 1;
      NumbersAre(vs, k, bs[..m]);
      OneMore(TotalsOf(vs, k, bs[..m]), vs, k, bs[m]);
      KindIs(vs, k, bs[m]);
    }
  }

  /** A state is reported dependent exactly if it is so in the fit of some block outside the runtimes. */
  lemma {:induction false} DependentAre(vs: Mat, k: nat, bs: seq<Block>, j: nat)
    requires Points(vs, k) && Blocks(bs, |vs|)
    ensures j in TotalsOf(vs, k, bs).dep <==>
            exists m :: 0 <= m < |bs| && !InRuntime(bs[m].sym) && j in AffineFit(vs, bs[m].ys, k).dep
  {
    hide AddBlock, StaysOut, Joins, InRuntime, ScalesSomewhere, AffineFit;
    if bs != [] {
      var n := |bs| - 1;
      var front := bs[..n];
      DependentAre(vs, k, front, j);
      OneMore(TotalsOf(vs, k, front), vs, k, bs[n]);
      if m :| 0 <= m < n && !InRuntime(front[m].sym) && j in AffineFit(vs, front[m].ys, k).dep {
        assert bs[m] == front[m];
      }
      if m :| 0 <= m < n && !InRuntime(bs[m].sym) && j in AffineFit(vs, bs[m].ys, k).dep {
        assert bs[m] == front[m];
      }
    }
  }

  // ---------------------------------------------------------------- what is charged to one function

  function BlocksIn(bs: seq<Block>, sym: Sym): (r: seq<Block>)
    ensures forall n :: Blocks(bs, n) ==> Blocks(r, n)
  {
    if bs == [] then [] else
      var m := |bs| - 1;
      var front := BlocksIn(bs[..m], sym);
      assert forall n :: Blocks(bs, n) ==> Blocks(bs[..m], n);
      if bs[m].sym == sym then front + [bs[m]] else front
  }

  /** `m` charges `sym` what `u` does, and `u` charges nobody else. */
  predicate SameEntry(m: map<Sym, real>, u: map<Sym, real>, sym: Sym) {
    Get(m, sym) == Get(u, sym) && u.Keys <= {sym}
  }

  predicate SameCharge(t: Totals, u: Totals, k: nat, sym: Sym)
    requires HasStates(t, k) && HasStates(u, k)
  {
    && SameEntry(t.symC, u.symC, sym) && SameEntry(t.symIrr, u.symIrr, sym)
    && forall j :: 0 <= j < k ==> SameEntry(t.symA[j], u.symA[j], sym)
  }

  lemma BumpEntry(m: map<Sym, real>, u: map<Sym, real>, at: Sym, sym: Sym, x: real)
    requires SameEntry(m, u, sym)
    ensures SameEntry(Bump(m, at, x), if at == sym then Bump(u, at, x) else u, sym)
  {
  }

  lemma IrregularCharge(t: Totals, u: Totals, vs: Mat, k: nat, b: Block, sym: Sym)
    requires vs != [] && |b.ys| == |vs| && HasStates(t, k) && HasStates(u, k) && SameCharge(t, u, k, sym)
    ensures SameCharge(AddPart(t, vs, b, Irregular), if b.sym == sym then AddPart(u, vs, b, Irregular) else u, k, sym)
  {
    hide Mean, AddAll, SameEntry, Bump;
    BumpEntry(t.symIrr, u.symIrr, b.sym, sym, Mean(b.ys));
  }

  lemma SlopesCharge(t: Totals, u: Totals, k: nat, at: Sym, coef: Vec, mask: seq<bool>, sym: Sym)
    requires HasStates(t, k) && HasStates(u, k) && SameCharge(t, u, k, sym) && |coef| == |mask| == k
    ensures forall j :: 0 <= j < k ==>
              SameEntry(ChargeSlopes(t.symA, at, coef, mask)[j],
                        (if at == sym then ChargeSlopes(u.symA, at, coef, mask) else u.symA)[j], sym)
  {
    hide SameEntry, Bump;
    forall j | 0 <= j < k
      ensures SameEntry(ChargeSlopes(t.symA, at, coef, mask)[j],
                        (if at == sym then ChargeSlopes(u.symA, at, coef, mask) else u.symA)[j], sym)
    {
      BumpEntry(t.symA[j], u.symA[j], at, sym, coef[j]);
    }
  }

  /** What a kept block charges, given what it does to the slopes' tables. */
  lemma KeptTables(t: Totals, vs: Mat, b: Block, p: Part)
    requires vs != [] && |b.ys| == |vs| && p.Kept? && |p.coef| == |p.mask| == |t.a| == |t.symA|
    ensures var t' := AddPart(t, vs, b, p);
            && t'.symC == Bump(t.symC, b.sym, p.cst) && t'.symIrr == t.symIrr && HasStates(t', |t.a|)
            && t'.symA == if true in p.mask then ChargeSlopes(t.symA, b.sym, p.coef, p.mask) else t.symA
  {
    hide Plus, Bump;
  }

  lemma KeptCharge(t: Totals, u: Totals, vs: Mat, k: nat, b: Block, p: Part, sym: Sym)
    requires vs != [] && |b.ys| == |vs| && HasStates(t, k) && HasStates(u, k) && SameCharge(t, u, k, sym)
    requires p.Kept? && |p.coef| == |p.mask| == k
    ensures HasStates(AddPart(t, vs, b, p), k) && HasStates(AddPart(u, vs, b, p), k)
    ensures SameCharge(AddPart(t, vs, b, p), if b.sym == sym then AddPart(u, vs, b, p) else u, k, sym)
  {
    hide AddPart, SameEntry, Bump, ChargeSlopes;
    BumpEntry(t.symC, u.symC, b.sym, sym, p.cst);
    SlopesCharge(t, u, k, b.sym, p.coef, p.mask, sym);
    KeptTables(t, vs, b, p);
    KeptTables(u, vs, b, p);
  }

  predicate ChargeAlike(t: Totals, u: Totals) {
    t.symA == u.symA && t.symC == u.symC && t.symIrr == u.symIrr
  }

  lemma OnlyCharges(t: Totals, u: Totals, t': Totals, u': Totals, k: nat, sym: Sym)
    requires HasStates(t, k) && HasStates(u, k) && HasStates(t', k) && HasStates(u', k)
    requires ChargeAlike(t, t') && ChargeAlike(u, u') && SameCharge(t, u, k, sym)
    ensures SameCharge(t', u', k, sym)
  {
    hide SameEntry;
  }

  lemma AddBlockCharge(t: Totals, u: Totals, vs: Mat, k: nat, b: Block, sym: Sym)
    requires Points(vs, k) && |b.ys| == |vs| && HasStates(t, k) && HasStates(u, k) && SameCharge(t, u, k, sym)
    ensures SameCharge(AddBlock(t, vs, k, b), if b.sym == sym then AddBlock(u, vs, k, b) else u, k, sym)
  {
    hide IsRuntime, PartOf, AffineFit, AddPart, AddAll, SameCharge, AddBlock;
    var t', u' := AddBlock(t, vs, k, b), if b.sym == sym then AddBlock(u, vs, k, b) else u;
    if IsRuntime(b.sym) {
      RuntimeCharge(t, vs, k, b);
      RuntimeCharge(u, vs, k, b);
      OnlyCharges(t, u, t', u', k, sym);
    } else {
      var dep, p := AffineFit(vs, b.ys, k).dep, PartOf(vs, b.ys, k);
      var td, ud := t.(dep := t.dep + dep), u.(dep := u.dep + dep);
      OnlyCharges(t, u, td, ud, k, sym);
      PartCharge(t, vs, k, b);
      PartCharge(u, vs, k, b);
      if p.Kept? {
        KeptCharge(td, ud, vs, k, b, p, sym);
      } else {
        IrregularCharge(td, ud, vs, k, b, sym);
      }
      OnlyCharges(t', if b.sym == sym then u' else ud, t', u', k, sym);
    }
  }

  lemma RuntimeCharge(t: Totals, vs: Mat, k: nat, b: Block)
    requires Points(vs, k) && |b.ys| == |vs| && HasStates(t, k) && IsRuntime(b.sym)
    ensures ChargeAlike(t, AddBlock(t, vs, k, b))
  {
    hide IsRuntime, PartOf, AffineFit, AddPart, AddAll;
  }

  lemma PartCharge(t: Totals, vs: Mat, k: nat, b: Block)
    requires Points(vs, k) && |b.ys| == |vs| && HasStates(t, k) && !IsRuntime(b.sym)
    ensures AddBlock(t, vs, k, b) == AddPart(t.(dep := t.dep + AffineFit(vs, b.ys, k).dep), vs, b, PartOf(vs, b.ys, k))
  {
    hide IsRuntime, PartOf, AffineFit, AddPart, AddAll;
  }

  lemma {:induction false} ChargeIs(vs: Mat, k: nat, bs: seq<Block>, sym: Sym)
    requires Points(vs, k) && Blocks(bs, |vs|)
    ensures SameCharge(TotalsOf(vs, k, bs), TotalsOf(vs, k, BlocksIn(bs, sym)), k, sym)
  {
    hide AddBlock, SameCharge;
    if bs == [] {
      NothingCharged(k, sym);
    } else {
      var m := |bs| - 1;
      ChargeIs(vs, k, bs[..m], sym);
      var front := BlocksIn(bs[..m], sym);
      AddBlockCharge(TotalsOf(vs, k, bs[..m]), TotalsOf(vs, k, front), vs, k, bs[m], sym);
      if bs[m].sym == sym {
        TotalsOfSnoc(vs, k, front, bs[m]);
      }
    }
  }

  lemma NothingCharged(k: nat, sym: Sym)
    ensures SameCharge(NoTotals(k), NoTotals(k), k, sym)
  {
  }

  lemma OnlyEntry(m: map<Sym, real>, sym: Sym)
    requires m.Keys <= {sym}
    ensures Total(m) == Get(m, sym)
  {
    assert Gets(m, [sym]) == [Get(m, sym)];
    TotalOver(m, [sym]);
    assert [Get(m, sym)][..0] == [];
    assert Sum([Get(m, sym)]) == Get(m, sym);
  }

  /**
   What the breakdown charges to a function is what the regime derived from that function's blocks
   alone says: its slopes, its constant, and the mean of its irregular counts.
   */
  lemma ChargedIsItsOwn(vs: Mat, k: nat, bs: seq<Block>, sym: Sym)
    requires Points(vs, k) && Blocks(bs, |vs|)
    ensures var t, own := TotalsOf(vs, k, bs), TotalsOf(vs, k, BlocksIn(bs, sym));
            && Get(t.symC, sym) == own.c
            && (forall j :: 0 <= j < k ==> Get(t.symA[j], sym) == own.a[j])
            && Get(t.symIrr, sym) * |vs| as real == Sum(Gets(own.irr, vs))
  {
    hide TotalsOf, BlocksIn, Total, Sum, Get, Gets;
    var t, own := TotalsOf(vs, k, bs), TotalsOf(vs, k, BlocksIn(bs, sym));
    ChargeIs(vs, k, bs, sym);
    BreakdownAddsUp(vs, k, BlocksIn(bs, sym));
    OnlyEntry(own.symC, sym);
    OnlyEntry(own.symIrr, sym);
    forall j | 0 <= j < k ensures Get(t.symA[j], sym) == own.a[j] {
      OnlyEntry(own.symA[j], sym);
    }
  }
}
