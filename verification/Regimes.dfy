/**
 A regime's cost formula: the accumulation of every block's part over the observed points,
 and what the accumulated formula, irregular part and waiting say about the counts.
 */
module Regimes {
  import opened Vectors
  import opened GaussJordan
  import opened LeastSquares
  import opened RealMaps
  import opened BlockRelation

  /** Module and function a block lives in. */
  type Sym = (string, string)

  const RUNTIME_MODULES := ["libgomp", "libiomp", "libomp", "libtbb"]

  predicate IsRuntime(sym: Sym) {
    exists i :: 0 <= i < |RUNTIME_MODULES| && RUNTIME_MODULES[i] <= sym.0
  }

  /** One block: where it lives, and its count per trigger at each point. */
  datatype Block = Block(sym: Sym, ys: Vec)

  /** The accumulated fields of a regime. */
  datatype Totals = Totals(a: Vec, c: real, irr: map<Vec, real>, wait: map<Vec, real>,
                           nAffine: nat, nConst: nat, nIrr: nat,
                           symA: seq<map<Sym, real>>, symC: map<Sym, real>, symIrr: map<Sym, real>,
                           dep: set<nat>)

  predicate HasStates(t: Totals, k: nat) {
    |t.a| == k && |t.symA| == k
  }

  /** Distinct observed points of `k` states each. */
  predicate Points(vs: Mat, k: nat) {
    vs != [] && Rect(vs, |vs|, k) && Distinct(vs)
  }

  function NoTotals(k: nat): (t: Totals)
    ensures HasStates(t, k)
  {
    Totals(Fill(k, 0.0), 0.0, map[], map[], 0, 0, 0, seq(k, _ => map[]), map[], map[], {})
  }

  function Plus(a: Vec, b: Vec): (r: Vec)
    requires |a| == |b|
    ensures |r| == |a|
    ensures forall j :: 0 <= j < |a| ==> r[j] == a[j] + b[j]
  {
    seq(|a|, j requires 0 <= j < |a| => a[j] + b[j])
  }

  /** Slopes are charged to the function, state by state. */
  function ChargeSlopes(symA: seq<map<Sym, real>>, sym: Sym, coef: Vec, mask: seq<bool>): (r: seq<map<Sym, real>>)
    requires |symA| == |coef| == |mask|
    ensures |r| == |symA|
    ensures forall j :: 0 <= j < |r| ==> r[j] == if mask[j] then Bump(symA[j], sym, coef[j]) else symA[j]
  {
    seq(|symA|, j requires 0 <= j < |symA| => if mask[j] then Bump(symA[j], sym, coef[j]) else symA[j])
  }

  /** What one part adds to the totals. */
  function AddPart(t: Totals, vs: Mat, b: Block, p: Part): (t': Totals)
    requires vs != [] && |b.ys| == |vs| && (p.Kept? ==> |p.coef| == |p.mask| == |t.a| == |t.symA|)
  {
    match p
    case Irregular =>
      t.(nIrr := t.nIrr + 1, irr := AddAll(t.irr, vs, b.ys), symIrr := Bump(t.symIrr, b.sym, Mean(b.ys)))
    case Kept(coef, cst, mask) =>
      var u := t.(c := t.c + cst, symC := Bump(t.symC, b.sym, cst));
      if true in mask
      then u.(nAffine := t.nAffine + 1, a := Plus(t.a, coef), symA := ChargeSlopes(t.symA, b.sym, coef, mask))
      else u.(nConst := t.nConst + 1)
  }

  function AddBlock(t: Totals, vs: Mat, k: nat, b: Block): (t': Totals)
    requires Points(vs, k) && |b.ys| == |vs| && HasStates(t, k)
    ensures HasStates(t', k)
  {
    if IsRuntime(b.sym) then t.(wait := AddAll(t.wait, vs, b.ys))
    else AddPart(t.(dep := t.dep + AffineFit(vs, b.ys, k).dep), vs, b, PartOf(vs, b.ys, k))
  }

  predicate Blocks(bs: seq<Block>, n: nat) {
    forall i :: 0 <= i < |bs| ==> |bs[i].ys| == n
  }

  function TotalsOf(vs: Mat, k: nat, bs: seq<Block>): (t: Totals)
    requires Points(vs, k) && Blocks(bs, |vs|)
    ensures HasStates(t, k)
  {
    if bs == [] then NoTotals(k) else
      var m := |bs| - 1;
      AddBlock(TotalsOf(vs, k, bs[..m]), vs, k, bs[m])
  }

  function Formula(t: Totals, v: Vec): real
    requires |v| == |t.a|
  {
    Dot(t.a, v) + t.c
  }

  // ---------------------------------------------------------------- what each block is, and adds

  /** A block's place in the report. */
  datatype Kind = Waiting | Regular(part: Part) | Irregularity

  function KindOf(vs: Mat, k: nat, b: Block): (d: Kind)
    requires Points(vs, k) && |b.ys| == |vs|
    ensures d.Regular? ==> d.part.Kept? && |d.part.coef| == |d.part.mask| == k
  {
    if IsRuntime(b.sym) then Waiting
    else if PartOf(vs, b.ys, k).Kept? then Regular(PartOf(vs, b.ys, k)) else Irregularity
  }

  /** The value block `b` adds to the formula at any state `v`. */
  function FormulaShare(vs: Mat, k: nat, b: Block, v: Vec): real
    requires Points(vs, k) && |b.ys| == |vs| && |v| == k
  {
    match KindOf(vs, k, b)
    case Regular(p) => Plane(p.coef, p.cst, v)
    case _ => 0.0
  }

  function FormulaShares(vs: Mat, k: nat, bs: seq<Block>, v: Vec): real
    requires Points(vs, k) && Blocks(bs, |vs|) && |v| == k
  {
    if bs == [] then 0.0 else
      var m := |bs| - 1;
      FormulaShares(vs, k, bs[..m], v) + FormulaShare(vs, k, bs[m], v)
  }

  /** Which blocks a sum is over. */
  datatype Choice = AllBlocks | RegularBlocks | IrregularBlocks | WaitingBlocks

  predicate Chosen(d: Kind, ch: Choice) {
    match ch
    case AllBlocks => true
    case RegularBlocks => d.Regular?
    case IrregularBlocks => d.Irregularity?
    case WaitingBlocks => d.Waiting?
  }

  function CountOf(vs: Mat, k: nat, b: Block, ch: Choice, i: nat): real
    requires Points(vs, k) && |b.ys| == |vs| && i < |vs|
  {
    if Chosen(KindOf(vs, k, b), ch) then b.ys[i] else 0.0
  }

  /** The counts of the chosen blocks at point `i`. */
  function CountsAt(vs: Mat, k: nat, bs: seq<Block>, ch: Choice, i: nat): real
    requires Points(vs, k) && Blocks(bs, |vs|) && i < |vs|
  {
    if bs == [] then 0.0 else
      var m := |bs| - 1;
      CountsAt(vs, k, bs[..m], ch, i) + CountOf(vs, k, bs[m], ch, i)
  }

  lemma PlaneAdds(a: Vec, c: real, coef: Vec, cst: real, v: Vec)
    requires |a| == |coef| == |v|
    ensures Plane(Plus(a, coef), c + cst, v) == Plane(a, c, v) + Plane(coef, cst, v)
  {
    hide Dot;
    var r := Minus(a, -1.0, coef);
    forall j | 0 <= j < |a| ensures Plus(a, coef)[j] == r[j] {
      LessNegated(a[j], 1.0, coef[j]);
    }
    assert Plus(a, coef) == r;
    DotMinus(a, -1.0, coef, v);
  }

  lemma ConstantPart(vs: Mat, ys: Vec, k: nat)
    requires vs != [] && Rect(vs, |ys|, k) && PartOf(vs, ys, k).Kept? && true !in PartOf(vs, ys, k).mask
    ensures PartOf(vs, ys, k).coef == Fill(k, 0.0)
  {
    hide AffineFit, Accepted, Scaling, Mean, Means;
  }

  lemma AddBlockFormula(t: Totals, vs: Mat, k: nat, b: Block, v: Vec)
    requires Points(vs, k) && |b.ys| == |vs| && HasStates(t, k) && |v| == k
    ensures Formula(AddBlock(t, vs, k, b), v) == Formula(t, v) + FormulaShare(vs, k, b, v)
  {
    hide PartOf, Dot, AffineFit, IsRuntime, Mean, Bump, AddAll;
    var p := PartOf(vs, b.ys, k);
    if p.Kept? {
      PlaneAdds(t.a, t.c, p.coef, p.cst, v);
      if true !in p.mask {
        ConstantPart(vs, b.ys, k);
        DotZero(p.coef, v);
      }
    }
  }

  lemma NoFormula(k: nat, v: Vec)
    requires |v| == k
    ensures Formula(NoTotals(k), v) == 0.0
  {
    DotZero(Fill(k, 0.0), v);
  }

  /** The formula at any state is the sum of the planes of the blocks that passed the test. */
  lemma {:induction false} FormulaMeaning(vs: Mat, k: nat, bs: seq<Block>, v: Vec)
    requires Points(vs, k) && Blocks(bs, |vs|) && |v| == k
    ensures Formula(TotalsOf(vs, k, bs), v) == FormulaShares(vs, k, bs, v)
  {
    hide AddBlock, FormulaShare, Formula;
    if bs == [] {
      NoFormula(k, v);
    } else {
      var m := |bs| - 1;
      FormulaMeaning(vs, k, bs[..m], v);
      AddBlockFormula(TotalsOf(vs, k, bs[..m]), vs, k, bs[m], v);
    }
  }

  // ---------------------------------------------------------------- the tables

  lemma AddBlockTables(t: Totals, vs: Mat, k: nat, b: Block, i: nat)
    requires Points(vs, k) && |b.ys| == |vs| && HasStates(t, k) && i < |vs|
    ensures var t' := AddBlock(t, vs, k, b);
            && Get(t'.irr, vs[i]) == Get(t.irr, vs[i]) + CountOf(vs, k, b, IrregularBlocks, i)
            && Get(t'.wait, vs[i]) == Get(t.wait, vs[i]) + CountOf(vs, k, b, WaitingBlocks, i)
  {
    hide PartOf, AffineFit, IsRuntime, Mean, Bump, Get, AddAll;
    AddAllAt(t.irr, vs, b.ys, i);
    AddAllAt(t.wait, vs, b.ys, i);
  }

  /** The irregular and the waiting tables hold the counts of the irregular and the runtime blocks. */
  lemma {:induction false} TablesMeaning(vs: Mat, k: nat, bs: seq<Block>, i: nat)
    requires Points(vs, k) && Blocks(bs, |vs|) && i < |vs|
    ensures Get(TotalsOf(vs, k, bs).irr, vs[i]) == CountsAt(vs, k, bs, IrregularBlocks, i)
    ensures Get(TotalsOf(vs, k, bs).wait, vs[i]) == CountsAt(vs, k, bs, WaitingBlocks, i)
  {
    hide AddBlock, CountOf;
    if bs != [] {
      var m := |bs| - 1;
      TablesMeaning(vs, k, bs[..m], i);
      AddBlockTables(TotalsOf(vs, k, bs[..m]), vs, k, bs[m], i);
    }
  }

  /** The irregular table has entries only at observed points. */
  lemma {:induction false} TableKeys(vs: Mat, k: nat, bs: seq<Block>, v: Vec)
    requires Points(vs, k) && Blocks(bs, |vs|) && v in TotalsOf(vs, k, bs).irr
    ensures v in vs
  {
    hide PartOf, AffineFit, IsRuntime, Mean, Bump, AddAll;
    var m := |bs| - 1;
    if v in TotalsOf(vs, k, bs[..m]).irr {
      TableKeys(vs, k, bs[..m], v);
    } else {
      AddAllKeys(TotalsOf(vs, k, bs[..m]).irr, vs, bs[m].ys);
    }
  }

  // ---------------------------------------------------------------- cost is conserved

  function CountsOver(vs: Mat, k: nat, bs: seq<Block>, ch: Choice): (r: Vec)
    requires Points(vs, k) && Blocks(bs, |vs|)
    ensures |r| == |vs|
    ensures forall i :: 0 <= i < |vs| ==> r[i] == CountsAt(vs, k, bs, ch, i)
  {
    seq(|vs|, i requires 0 <= i < |vs| => CountsAt(vs, k, bs, ch, i))
  }

  lemma SumPlus(a: Vec, b: Vec)
    requires |a| == |b|
    ensures Sum(Plus(a, b)) == Sum(a) + Sum(b)
  {
    hide Sum;
    var r := Minus(a, -1.0, b);
    forall j | 0 <= j < |a| ensures Plus(a, b)[j] == r[j] {
      LessNegated(a[j], 1.0, b[j]);
    }
    assert Plus(a, b) == r;
    SumMinus(a, -1.0, b);
  }

  function BlockCounts(vs: Mat, k: nat, b: Block, ch: Choice): (r: Vec)
    requires Points(vs, k) && |b.ys| == |vs|
    ensures |r| == |vs|
    ensures forall i :: 0 <= i < |vs| ==> r[i] == CountOf(vs, k, b, ch, i)
  {
    seq(|vs|, i requires 0 <= i < |vs| => CountOf(vs, k, b, ch, i))
  }

  function BlockFormula(vs: Mat, k: nat, b: Block): (r: Vec)
    requires Points(vs, k) && |b.ys| == |vs|
    ensures |r| == |vs|
    ensures forall i :: 0 <= i < |vs| ==> r[i] == FormulaShare(vs, k, b, vs[i])
  {
    seq(|vs|, i requires 0 <= i < |vs| => FormulaShare(vs, k, b, vs[i]))
  }

  /** Over the points, a block that passes adds to the formula exactly its counts. */
  lemma BlockConserves(vs: Mat, k: nat, b: Block)
    requires Points(vs, k) && |b.ys| == |vs|
    ensures Sum(BlockFormula(vs, k, b)) == Sum(BlockCounts(vs, k, b, RegularBlocks))
  {
    hide PartOf, IsRuntime, Sum, Plane;
    if KindOf(vs, k, b).Regular? {
      var p := PartOf(vs, b.ys, k);
      assert BlockFormula(vs, k, b) == Fitted(vs, p.coef, p.cst);
      assert BlockCounts(vs, k, b, RegularBlocks) == b.ys;
      KeptConserves(vs, b.ys, k);
    } else {
      assert BlockFormula(vs, k, b) == BlockCounts(vs, k, b, RegularBlocks);
    }
  }

  /** The formula sums to the counts of the regular blocks, dependent states included. */
  lemma {:induction false} FormulaConserves(vs: Mat, k: nat, bs: seq<Block>)
    requires Points(vs, k) && Blocks(bs, |vs|)
    ensures var t := TotalsOf(vs, k, bs);
            Sum(Fitted(vs, t.a, t.c)) == Sum(CountsOver(vs, k, bs, RegularBlocks))
  {
    hide AddBlock, FormulaShare, Plane, CountOf, Sum;
    var t := TotalsOf(vs, k, bs);
    if bs == [] {
      forall i | 0 <= i < |vs| ensures Fitted(vs, t.a, t.c)[i] == CountsOver(vs, k, bs, RegularBlocks)[i] {
        NoFormulaAt(k, vs[i]);
      }
      assert Fitted(vs, t.a, t.c) == CountsOver(vs, k, bs, RegularBlocks);
    } else {
      var m := |bs| - 1;
      var u, b := TotalsOf(vs, k, bs[..m]), bs[m];
      FormulaConserves(vs, k, bs[..m]);
      FormulaGrows(u, vs, k, b);
      SumPlus(Fitted(vs, u.a, u.c), BlockFormula(vs, k, b));
      BlockConserves(vs, k, b);
      assert CountsOver(vs, k, bs, RegularBlocks)
        == Plus(CountsOver(vs, k, bs[..m], RegularBlocks), BlockCounts(vs, k, b, RegularBlocks));
      SumPlus(CountsOver(vs, k, bs[..m], RegularBlocks), BlockCounts(vs, k, b, RegularBlocks));
    }
  }

  lemma NoFormulaAt(k: nat, v: Vec)
    requires |v| == k
    ensures Plane(NoTotals(k).a, NoTotals(k).c, v) == 0.0
  {
    NoFormula(k, v);
  }

  lemma FormulaGrows(t: Totals, vs: Mat, k: nat, b: Block)
    requires Points(vs, k) && |b.ys| == |vs| && HasStates(t, k)
    ensures var t' := AddBlock(t, vs, k, b);
            Fitted(vs, t'.a, t'.c) == Plus(Fitted(vs, t.a, t.c), BlockFormula(vs, k, b))
  {
    hide AddBlock, FormulaShare, Dot;
    var t' := AddBlock(t, vs, k, b);
    forall i | 0 <= i < |vs| ensures Fitted(vs, t'.a, t'.c)[i] == Fitted(vs, t.a, t.c)[i] + BlockFormula(vs, k, b)[i] {
      AddBlockFormula(t, vs, k, b, vs[i]);
    }
  }

  lemma {:induction false} CountsSplit(vs: Mat, k: nat, bs: seq<Block>, i: nat)
    requires Points(vs, k) && Blocks(bs, |vs|) && i < |vs|
    ensures CountsAt(vs, k, bs, AllBlocks, i)
         == CountsAt(vs, k, bs, RegularBlocks, i) + CountsAt(vs, k, bs, IrregularBlocks, i)
            + CountsAt(vs, k, bs, WaitingBlocks, i)
  {
    hide KindOf;
    if bs != [] {
      CountsSplit(vs, k, bs[..|bs| - 1], i);
    }
  }

  /**
   Nothing is lost: over the observed points, formula, irregular part and waiting together
   sum to all the counts, whatever the blocks and whether or not states are dependent.
   */
  lemma CostIsConserved(vs: Mat, k: nat, bs: seq<Block>)
    requires Points(vs, k) && Blocks(bs, |vs|)
    ensures var t := TotalsOf(vs, k, bs);
            Sum(Fitted(vs, t.a, t.c)) + Sum(Gets(t.irr, vs)) + Sum(Gets(t.wait, vs)) ==
            Sum(CountsOver(vs, k, bs, AllBlocks))
  {
    hide TotalsOf, CountsAt, Sum, Fitted, Get;
    var t := TotalsOf(vs, k, bs);
    FormulaConserves(vs, k, bs);
    var reg, irr := CountsOver(vs, k, bs, RegularBlocks), CountsOver(vs, k, bs, IrregularBlocks);
    var wait := CountsOver(vs, k, bs, WaitingBlocks);
    forall i | 0 <= i < |vs|
      ensures Gets(t.irr, vs)[i] == irr[i] && Gets(t.wait, vs)[i] == wait[i]
      ensures CountsOver(vs, k, bs, AllBlocks)[i] == Plus(Plus(reg, irr), wait)[i]
    {
      TablesMeaning(vs, k, bs, i);
      CountsSplit(vs, k, bs, i);
    }
    assert Gets(t.irr, vs) == irr;
    assert Gets(t.wait, vs) == wait;
    assert CountsOver(vs, k, bs, AllBlocks) == Plus(Plus(reg, irr), wait);
    SumPlus(Plus(reg, irr), wait);
    SumPlus(reg, irr);
  }

  // ---------------------------------------------------------------- how far the formula is from the counts

  function AllowedOf(vs: Mat, k: nat, b: Block, i: nat): real
    requires Points(vs, k) && |b.ys| == |vs| && i < |vs|
  {
    if KindOf(vs, k, b).Regular? then Allowed(b.ys, k, i) else 0.0
  }

  function AllowedAt(vs: Mat, k: nat, bs: seq<Block>, i: nat): real
    requires Points(vs, k) && Blocks(bs, |vs|) && i < |vs|
  {
    if bs == [] then 0.0 else
      var m := |bs| - 1;
      AllowedAt(vs, k, bs[..m], i) + AllowedOf(vs, k, bs[m], i)
  }

  lemma BlockErrorBound(vs: Mat, k: nat, b: Block, i: nat)
    requires Points(vs, k) && |b.ys| == |vs| && i < |vs|
    ensures Abs(CountOf(vs, k, b, RegularBlocks, i) - FormulaShare(vs, k, b, vs[i])) <= AllowedOf(vs, k, b, i)
  {
    hide PartOf, IsRuntime, Plane, Allowed;
    if KindOf(vs, k, b).Regular? {
      KeptErrorBound(vs, b.ys, k, i);
    }
  }

  lemma {:induction false} SharesErrorBound(vs: Mat, k: nat, bs: seq<Block>, i: nat)
    requires Points(vs, k) && Blocks(bs, |vs|) && i < |vs|
    ensures Abs(CountsAt(vs, k, bs, RegularBlocks, i) - FormulaShares(vs, k, bs, vs[i])) <= AllowedAt(vs, k, bs, i)
  {
    hide CountOf, FormulaShare, AllowedOf;
    if bs != [] {
      var m := |bs| - 1;
      SharesErrorBound(vs, k, bs[..m], i);
      BlockErrorBound(vs, k, bs[m], i);
    }
  }

  /**
   At an observed point the formula is off the regular blocks' counts by at most, for each such
   block, its tolerance there plus one tolerance of its largest count for each state.
   */
  lemma FormulaErrorBound(vs: Mat, k: nat, bs: seq<Block>, i: nat)
    requires Points(vs, k) && Blocks(bs, |vs|) && i < |vs|
    ensures Abs(CountsAt(vs, k, bs, RegularBlocks, i) - Formula(TotalsOf(vs, k, bs), vs[i])) <= AllowedAt(vs, k, bs, i)
  {
    hide TotalsOf, CountsAt, FormulaShares, AllowedAt, Formula;
    FormulaMeaning(vs, k, bs, vs[i]);
    SharesErrorBound(vs, k, bs, i);
  }

  /** The bound the specification states: the tolerances at the point, and nothing more. */
  function Tolerances(vs: Mat, k: nat, bs: seq<Block>, i: nat): real
    requires Points(vs, k) && Blocks(bs, |vs|) && i < |vs|
  {
    if bs == [] then 0.0 else
      var m := |bs| - 1;
      Tolerances(vs, k, bs[..m], i) + if KindOf(vs, k, bs[m]).Regular? then Tol(bs[m].ys[i]) else 0.0
  }

  /** What one block's part of the formula is off by at point `i`. */
  function MissOf(vs: Mat, k: nat, b: Block, i: nat): real
    requires Points(vs, k) && |b.ys| == |vs| && i < |vs|
  {
    if KindOf(vs, k, b).Regular? then KeptMiss(vs, b.ys, k, i) else 0.0
  }

  function Misses(vs: Mat, k: nat, bs: seq<Block>, i: nat): real
    requires Points(vs, k) && Blocks(bs, |vs|) && i < |vs|
  {
    if bs == [] then 0.0 else
      var m := |bs| - 1;
      Misses(vs, k, bs[..m], i) + MissOf(vs, k, bs[m], i)
  }

  lemma MissOfIs(vs: Mat, k: nat, b: Block, i: nat)
    requires Points(vs, k) && |b.ys| == |vs| && i < |vs|
    ensures CountOf(vs, k, b, RegularBlocks, i) - FormulaShare(vs, k, b, vs[i]) == MissOf(vs, k, b, i)
  {
    hide PartOf, IsRuntime, Plane, KeptMiss;
    if KindOf(vs, k, b).Regular? {
      KeptMissIs(vs, b.ys, k, i);
    }
  }

  lemma {:induction false} SharesMiss(vs: Mat, k: nat, bs: seq<Block>, i: nat)
    requires Points(vs, k) && Blocks(bs, |vs|) && i < |vs|
    ensures CountsAt(vs, k, bs, RegularBlocks, i) - FormulaShares(vs, k, bs, vs[i]) == Misses(vs, k, bs, i)
  {
    hide CountOf, FormulaShare, MissOf;
    if bs != [] {
      var m := |bs| - 1;
      SharesMiss(vs, k, bs[..m], i);
      MissOfIs(vs, k, bs[m], i);
    }
  }

  predicate StatedBound(vs: Mat, k: nat, bs: seq<Block>, i: nat)
    requires Points(vs, k) && Blocks(bs, |vs|) && i < |vs|
  {
    Abs(CountsAt(vs, k, bs, RegularBlocks, i) - Formula(TotalsOf(vs, k, bs), vs[i])) <= Tolerances(vs, k, bs, i)
  }

  /** The formula's error is the sum of the blocks' own: the stated bound holds exactly when that sum is small. */
  lemma StatedBoundIff(vs: Mat, k: nat, bs: seq<Block>, i: nat)
    requires Points(vs, k) && Blocks(bs, |vs|) && i < |vs|
    ensures CountsAt(vs, k, bs, RegularBlocks, i) - Formula(TotalsOf(vs, k, bs), vs[i]) == Misses(vs, k, bs, i)
    ensures StatedBound(vs, k, bs, i) <==> Abs(Misses(vs, k, bs, i)) <= Tolerances(vs, k, bs, i)
  {
    hide TotalsOf, CountsAt, FormulaShares, Tolerances, Formula, Misses;
    FormulaMeaning(vs, k, bs, vs[i]);
    SharesMiss(vs, k, bs, i);
  }

  /** Every regular block meets its own tolerance at point `i`. */
  predicate EachWithin(vs: Mat, k: nat, bs: seq<Block>, i: nat)
    requires Points(vs, k) && Blocks(bs, |vs|) && i < |vs|
  {
    forall m :: 0 <= m < |bs| && KindOf(vs, k, bs[m]).Regular? ==> Abs(KeptMiss(vs, bs[m].ys, k, i)) <= Tol(bs[m].ys[i])
  }

  lemma {:induction false} MissesSmall(vs: Mat, k: nat, bs: seq<Block>, i: nat)
    requires Points(vs, k) && Blocks(bs, |vs|) && i < |vs| && EachWithin(vs, k, bs, i)
    ensures Abs(Misses(vs, k, bs, i)) <= Tolerances(vs, k, bs, i)
  {
    hide KindOf, KeptMiss, Tol;
    if bs != [] {
      var front := bs[..|bs| - 1];
      assert forall j :: 0 <= j < |front| ==> front[j] == bs[j];
      MissesSmall(vs, k, front, i);
    }
  }

  /** Where every regular block meets its own tolerance, so does the formula. */
  lemma StatedBoundIf(vs: Mat, k: nat, bs: seq<Block>, i: nat)
    requires Points(vs, k) && Blocks(bs, |vs|) && i < |vs| && EachWithin(vs, k, bs, i)
    ensures StatedBound(vs, k, bs, i)
  {
    hide StatedBound, Misses, Tolerances, EachWithin, CountsAt;
    MissesSmall(vs, k, bs, i);
    StatedBoundIff(vs, k, bs, i);
  }

  /** With one regular block, the formula meets the stated bound exactly where the block meets its tolerance. */
  lemma OneBlockIff(vs: Mat, k: nat, bs: seq<Block>, i: nat)
    requires Points(vs, k) && |bs| == 1 && Blocks(bs, |vs|) && i < |vs| && KindOf(vs, k, bs[0]).Regular?
    ensures StatedBound(vs, k, bs, i) <==> Within(vs, bs[0].ys, k, i)
    ensures !ScalesSomewhere(vs, bs[0].ys, k) ==>
              (StatedBound(vs, k, bs, i) <==> Abs(bs[0].ys[i] - Mean(bs[0].ys)) <= Tol(bs[0].ys[i]))
  {
    hide StatedBound, PartOf, ScalesSomewhere, Mean, Tol, IsRuntime, CountsAt, AffineFit, Scaling, Plane;
    StatedBoundIff(vs, k, bs, i);
    assert bs[..0] == [];
    KeptMissIs(vs, bs[0].ys, k, i);
  }

  /** No regular block had a slope folded into its constant. */
  predicate NoneFolded(vs: Mat, k: nat, bs: seq<Block>)
    requires Points(vs, k) && Blocks(bs, |vs|)
  {
    forall m :: 0 <= m < |bs| && KindOf(vs, k, bs[m]).Regular? ==>
      NothingFolded(AffineFit(vs, bs[m].ys, k).a, PartOf(vs, bs[m].ys, k).mask)
  }

  /** Where nothing was folded, every block meets its tolerance at every point, and so does the formula. */
  lemma UnfoldedFormulaErrorBound(vs: Mat, k: nat, bs: seq<Block>, i: nat)
    requires Points(vs, k) && Blocks(bs, |vs|) && i < |vs| && NoneFolded(vs, k, bs)
    ensures EachWithin(vs, k, bs, i) && StatedBound(vs, k, bs, i)
  {
    hide StatedBound, PartOf, IsRuntime, Plane, Tol, AffineFit, NothingFolded, KeptMiss;
    forall m | 0 <= m < |bs| && KindOf(vs, k, bs[m]).Regular?
      ensures Abs(KeptMiss(vs, bs[m].ys, k, i)) <= Tol(bs[m].ys[i])
    {
      UnfoldedErrorBound(vs, bs[m].ys, k, i);
      KeptMissIs(vs, bs[m].ys, k, i);
    }
    StatedBoundIf(vs, k, bs, i);
  }

  // ---------------------------------------------------------------- irregular and waiting blocks stay out

  function RegularOnly(vs: Mat, k: nat, bs: seq<Block>): (r: seq<Block>)
    requires Points(vs, k) && Blocks(bs, |vs|)
    ensures Blocks(r, |vs|)
  {
    if bs == [] then [] else
      var m := |bs| - 1;
      RegularOnly(vs, k, bs[..m]) + if KindOf(vs, k, bs[m]).Regular? then [bs[m]] else []
  }

  predicate SameFormula(t: Totals, u: Totals) {
    t.a == u.a && t.c == u.c && t.symA == u.symA && t.symC == u.symC && t.nAffine == u.nAffine && t.nConst == u.nConst
  }

  lemma AddPartSame(t: Totals, u: Totals, vs: Mat, b: Block, p: Part)
    requires vs != [] && |b.ys| == |vs| && SameFormula(t, u)
    requires p.Kept? ==> |p.coef| == |p.mask| == |t.a| == |t.symA|
    ensures SameFormula(AddPart(t, vs, b, p), AddPart(u, vs, b, p))
    ensures p.Irregular? ==> SameFormula(AddPart(t, vs, b, p), u)
  {
    hide Mean, Bump, AddAll, ChargeSlopes, Plus;
  }

  lemma AddBlockSame(t: Totals, u: Totals, vs: Mat, k: nat, b: Block)
    requires Points(vs, k) && |b.ys| == |vs| && HasStates(t, k) && HasStates(u, k) && SameFormula(t, u)
    ensures SameFormula(AddBlock(t, vs, k, b), AddBlock(u, vs, k, b))
    ensures !KindOf(vs, k, b).Regular? ==> SameFormula(AddBlock(t, vs, k, b), u)
  {
    hide PartOf, AffineFit, IsRuntime, AddAll, AddPart;
    if !IsRuntime(b.sym) {
      var dep := AffineFit(vs, b.ys, k).dep;
      AddPartSame(t.(dep := t.dep + dep), u.(dep := u.dep + dep), vs, b, PartOf(vs, b.ys, k));
    }
  }

  lemma TotalsOfSnoc(vs: Mat, k: nat, bs: seq<Block>, b: Block)
    requires Points(vs, k) && Blocks(bs, |vs|) && |b.ys| == |vs|
    ensures Blocks(bs + [b], |vs|)
    ensures TotalsOf(vs, k, bs + [b]) == AddBlock(TotalsOf(vs, k, bs), vs, k, b)
  {
    hide AddBlock;
    assert (bs + [b])[..|bs|] == bs;
  }

  /** Neither the formula nor its breakdown by function changes if every other block is left out. */
  lemma {:induction false} IrregularStaysOut(vs: Mat, k: nat, bs: seq<Block>)
    requires Points(vs, k) && Blocks(bs, |vs|)
    ensures SameFormula(TotalsOf(vs, k, bs), TotalsOf(vs, k, RegularOnly(vs, k, bs)))
  {
    hide AddBlock, KindOf;
    if bs != [] {
      var m := |bs| - 1;
      IrregularStaysOut(vs, k, bs[..m]);
      var rest := RegularOnly(vs, k, bs[..m]);
      AddBlockSame(TotalsOf(vs, k, bs[..m]), TotalsOf(vs, k, rest), vs, k, bs[m]);
      if KindOf(vs, k, bs[m]).Regular? {
        assert RegularOnly(vs, k, bs) == rest + [bs[m]];
        TotalsOfSnoc(vs, k, rest, bs[m]);
      } else {
        assert RegularOnly(vs, k, bs) == rest;
      }
    }
  }

  // ---------------------------------------------------------------- breakdown by function

  ghost predicate Broken(t: Totals, vs: Mat, k: nat)
    requires HasStates(t, k) && vs != []
  {
    && (forall j :: 0 <= j < k ==> Total(t.symA[j]) == t.a[j])
    && Total(t.symC) == t.c
    && Total(t.symIrr) * |vs| as real == Sum(Gets(t.irr, vs))
  }

  lemma IrregularGrows(irr: map<Vec, real>, symIrr: map<Sym, real>, vs: Mat, b: Block)
    requires Distinct(vs) && vs != [] && |b.ys| == |vs|
    requires Total(symIrr) * |vs| as real == Sum(Gets(irr, vs))
    ensures Total(Bump(symIrr, b.sym, Mean(b.ys))) * |vs| as real == Sum(Gets(AddAll(irr, vs, b.ys), vs))
  {
    hide Sum, Get, AddAll, Bump, Total;
    var irr' := AddAll(irr, vs, b.ys);
    forall i | 0 <= i < |vs| ensures Gets(irr', vs)[i] == Plus(Gets(irr, vs), b.ys)[i] {
      AddAllAt(irr, vs, b.ys, i);
    }
    assert Gets(irr', vs) == Plus(Gets(irr, vs), b.ys);
    SumPlus(Gets(irr, vs), b.ys);
    TotalBump(symIrr, b.sym, Mean(b.ys));
    MeanTimes(Sum(b.ys), |vs| as real);
    AddTimes(Total(symIrr), Mean(b.ys), |vs| as real);
  }

  lemma AddTimes(x: real, y: real, n: real)
    ensures (x + y) * n == x * n + n * y
  {
  }

  lemma SlopesBroken(symA: seq<map<Sym, real>>, a: Vec, sym: Sym, coef: Vec, mask: seq<bool>, j: nat)
    requires |symA| == |a| == |coef| == |mask| && j < |a|
    requires Total(symA[j]) == a[j] && (mask[j] || coef[j] == 0.0)
    ensures Total(ChargeSlopes(symA, sym, coef, mask)[j]) == Plus(a, coef)[j]
  {
    hide Total, Bump;
    TotalBump(symA[j], sym, coef[j]);
  }

  lemma KeptBroken(t: Totals, vs: Mat, k: nat, b: Block, p: Part)
    requires vs != [] && |b.ys| == |vs| && HasStates(t, k) && Broken(t, vs, k)
    requires p.Kept? && |p.coef| == |p.mask| == k && forall j :: 0 <= j < k ==> p.mask[j] || p.coef[j] == 0.0
    ensures Broken(AddPart(t, vs, b, p), vs, k)
  {
    hide Bump, Total, Sum, Gets, ChargeSlopes, Plus;
    TotalBump(t.symC, b.sym, p.cst);
    if true in p.mask {
      forall j | 0 <= j < k ensures Total(ChargeSlopes(t.symA, b.sym, p.coef, p.mask)[j]) == Plus(t.a, p.coef)[j] {
        SlopesBroken(t.symA, t.a, b.sym, p.coef, p.mask, j);
      }
    }
  }

  lemma IrregularBroken(t: Totals, vs: Mat, k: nat, b: Block)
    requires Distinct(vs) && vs != [] && |b.ys| == |vs| && HasStates(t, k) && Broken(t, vs, k)
    ensures Broken(AddPart(t, vs, b, Irregular), vs, k)
  {
    hide Mean, Bump, AddAll, Total, Sum, Gets;
    IrregularGrows(t.irr, t.symIrr, vs, b);
  }

  lemma AddBlockBroken(t: Totals, vs: Mat, k: nat, b: Block)
    requires Points(vs, k) && |b.ys| == |vs| && HasStates(t, k) && Broken(t, vs, k)
    ensures Broken(AddBlock(t, vs, k, b), vs, k)
  {
    hide PartOf, AffineFit, IsRuntime, AddPart, AddAll, Total, Sum, Gets, Means;
    if !IsRuntime(b.sym) {
      var t1, p := t.(dep := t.dep + AffineFit(vs, b.ys, k).dep), PartOf(vs, b.ys, k);
      if p.Kept? {
        KeptIsFolded(vs, b.ys, k);
        KeptBroken(t1, vs, k, b, p);
      } else {
        IrregularBroken(t1, vs, k, b);
      }
    }
  }

  lemma NothingBroken(vs: Mat, k: nat)
    requires vs != []
    ensures Broken(NoTotals(k), vs, k)
  {
    var none: map<Vec, real> := map[];
    assert Gets(none, vs) == Fill(|vs|, 0.0);
    SumFill(|vs|, 0.0);
  }

  /** Charged to functions, the slopes, the constant and the mean irregular cost each add up. */
  lemma {:induction false} BreakdownAddsUp(vs: Mat, k: nat, bs: seq<Block>)
    requires Points(vs, k) && Blocks(bs, |vs|)
    ensures Broken(TotalsOf(vs, k, bs), vs, k)
  {
    hide AddBlock, Broken;
    if bs == [] {
      NothingBroken(vs, k);
    } else {
      var m := |bs| - 1;
      BreakdownAddsUp(vs, k, bs[..m]);
      AddBlockBroken(TotalsOf(vs, k, bs[..m]), vs, k, bs[m]);
    }
  }

  // ---------------------------------------------------------------- exact planes

  /** The points separate every state. */
  predicate Separable(vs: Mat, k: nat)
    requires Points(vs, k)
  {
    AffineFit(vs, Fill(|vs|, 0.0), k).dep == {}
  }

  /** A plane the block's counts lie on exactly and that the test keeps as it is; none for the runtime. */
  predicate ExactBlock(vs: Mat, k: nat, b: Block, a: Vec, c: real)
    requires Points(vs, k) && |b.ys| == |vs| && |a| == k
  {
    if IsRuntime(b.sym) then a == Fill(k, 0.0) && c == 0.0 else OnPlane(vs, b.ys, a, c) && Keepable(vs, b.ys, a, c)
  }

  predicate ExactBlocks(vs: Mat, k: nat, bs: seq<Block>, planes: seq<(Vec, real)>)
    requires Points(vs, k) && Blocks(bs, |vs|)
  {
    && |planes| == |bs|
    && forall m :: 0 <= m < |bs| ==>
         |planes[m].0| == k && ExactBlock(vs, k, bs[m], planes[m].0, planes[m].1)
  }

  function SlopeSum(planes: seq<(Vec, real)>, k: nat): (a: Vec)
    requires forall m :: 0 <= m < |planes| ==> |planes[m].0| == k
    ensures |a| == k
  {
    if planes == [] then Fill(k, 0.0) else
      var m := |planes| - 1;
      Plus(SlopeSum(planes[..m], k), planes[m].0)
  }

  function InterceptSum(planes: seq<(Vec, real)>): real {
    if planes == [] then 0.0 else InterceptSum(planes[..|planes| - 1]) + planes[|planes| - 1].1
  }

  lemma PlusZero(a: Vec, z: Vec)
    requires |a| == |z| && forall j :: 0 <= j < |z| ==> z[j] == 0.0
    ensures Plus(a, z) == a
  {
  }

  lemma KeptExactly(t: Totals, vs: Mat, b: Block, p: Part)
    requires vs != [] && |b.ys| == |vs| && p.Kept? && |p.coef| == |p.mask| == |t.a| == |t.symA|
    requires true in p.mask || p.coef == Fill(|t.a|, 0.0)
    ensures var t' := AddPart(t, vs, b, p);
            t'.a == Plus(t.a, p.coef) && t'.c == t.c + p.cst && t'.irr == t.irr && t'.nIrr == t.nIrr && t'.dep == t.dep
  {
    hide Mean, Bump, AddAll, ChargeSlopes;
    if true !in p.mask {
      PlusZero(t.a, p.coef);
    }
  }

  lemma ExactPart(vs: Mat, k: nat, ys: Vec, a: Vec, c: real)
    requires Points(vs, k) && |ys| == |vs| && |a| == k && Separable(vs, k)
    requires OnPlane(vs, ys, a, c) && Keepable(vs, ys, a, c)
    ensures AffineFit(vs, ys, k).dep == {}
    ensures var p := PartOf(vs, ys, k);
            p.Kept? && p.coef == a && p.cst == c && (true in p.mask || p.coef == Fill(k, 0.0))
  {
    hide PartOf, AffineFit, Keepable, OnPlane;
    DependenceIsOfThePoints(vs, ys, Fill(|vs|, 0.0), k);
    ExactRecovery(vs, ys, k, a, c);
    if true !in PartOf(vs, ys, k).mask {
      ConstantPart(vs, ys, k);
    }
  }

  lemma AddExactBlock(t: Totals, vs: Mat, k: nat, b: Block, a: Vec, c: real)
    requires Points(vs, k) && |b.ys| == |vs| && HasStates(t, k) && Separable(vs, k)
    requires |a| == k && ExactBlock(vs, k, b, a, c)
    ensures var t' := AddBlock(t, vs, k, b);
            t'.a == Plus(t.a, a) && t'.c == t.c + c && t'.irr == t.irr && t'.nIrr == t.nIrr && t'.dep == t.dep
  {
    hide PartOf, AffineFit, IsRuntime, AddAll, AddPart, Keepable, OnPlane, Separable;
    if IsRuntime(b.sym) {
      PlusZero(t.a, a);
    } else {
      ExactPart(vs, k, b.ys, a, c);
      KeptExactly(t.(dep := t.dep + {}), vs, b, PartOf(vs, b.ys, k));
    }
  }

  /** Exactly affine counts give the exact formula, nothing irregular and nothing dependent. */
  lemma {:induction false} ExactCountsAreRecovered(vs: Mat, k: nat, bs: seq<Block>, planes: seq<(Vec, real)>)
    requires Points(vs, k) && Blocks(bs, |vs|) && Separable(vs, k) && ExactBlocks(vs, k, bs, planes)
    ensures var t := TotalsOf(vs, k, bs);
            && t.a == SlopeSum(planes, k) && t.c == InterceptSum(planes)
            && t.irr == map[] && t.nIrr == 0 && t.dep == {}
  {
    hide AddBlock, Separable, ExactBlock;
    if bs != [] {
      var m := |bs| - 1;
      var front, ahead := bs[..m], planes[..m];
      assert forall j :: 0 <= j < m ==> front[j] == bs[j] && ahead[j] == planes[j];
      ExactCountsAreRecovered(vs, k, front, ahead);
      AddExactBlock(TotalsOf(vs, k, front), vs, k, bs[m], planes[m].0, planes[m].1);
    }
  }

  // ---------------------------------------------------------------- the irregular share

  function CostAt(t: Totals, v: Vec): real
    requires |v| == |t.a|
  {
    Formula(t, v) + Get(t.irr, v)
  }

  function Costs(t: Totals, vs: Mat): (r: Vec)
    requires Rect(vs, |vs|, |t.a|)
    ensures |r| == |vs|
    ensures forall i :: 0 <= i < |vs| ==> r[i] == CostAt(t, vs[i])
  {
    seq(|vs|, i requires 0 <= i < |vs| => CostAt(t, vs[i]))
  }

  function IrrShare(t: Totals, vs: Mat): real
    requires Rect(vs, |vs|, |t.a|)
  {
    var tot := Sum(Costs(t, vs));
    if tot != 0.0 then Sum(Gets(t.irr, vs)) / tot else 0.0
  }

  function Ratio(x: real, y: real): real {
    if y != 0.0 then x / y else 0.0
  }

  /** The irregular share is the irregular blocks' part of all counts that are not waiting. */
  lemma IrrShareMeaning(vs: Mat, k: nat, bs: seq<Block>)
    requires Points(vs, k) && Blocks(bs, |vs|)
    ensures var irr := Sum(CountsOver(vs, k, bs, IrregularBlocks));
            IrrShare(TotalsOf(vs, k, bs), vs) == Ratio(irr, Sum(CountsOver(vs, k, bs, RegularBlocks)) + irr)
    ensures Sum(Gets(TotalsOf(vs, k, bs).irr, vs)) == Total(TotalsOf(vs, k, bs).irr)
  {
    hide TotalsOf, CountsAt, Sum, Get, Dot, Total;
    var t := TotalsOf(vs, k, bs);
    forall i | 0 <= i < |vs| ensures Gets(t.irr, vs)[i] == CountsOver(vs, k, bs, IrregularBlocks)[i] {
      TablesMeaning(vs, k, bs, i);
    }
    assert Gets(t.irr, vs) == CountsOver(vs, k, bs, IrregularBlocks);
    FormulaConserves(vs, k, bs);
    assert Costs(t, vs) == Plus(Fitted(vs, t.a, t.c), Gets(t.irr, vs));
    SumPlus(Fitted(vs, t.a, t.c), Gets(t.irr, vs));
    forall v | v in t.irr ensures v in vs {
      TableKeys(vs, k, bs, v);
    }
    TotalOver(t.irr, vs);
  }
}
