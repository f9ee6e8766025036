/**
 What a prediction for another run adds up to: the formula's side, the measured side, and both
 for the run the formula was derived from.
 */
module PredictionLaws {
  import opened Options
  import opened Vectors
  import opened GaussJordan
  import opened LeastSquares
  import opened RealMaps
  import opened BlockRelation
  import opened Regimes
  import opened DeriveRegime
  import opened KeptBlocks
  import opened Derivation

  // ---------------------------------------------------------------- the formula's side

  predicate NoneEmpty(parts: seq<Mat>) {
    forall j :: 0 <= j < |parts| ==> parts[j] != []
  }

  /** The states of the triggers regime `i` covers, each as often as it was triggered. */
  function StateSums(trig: Triggers, parts: seq<Mat>, k: nat, i: nat): (r: Vec)
    requires NoneEmpty(parts)
    ensures |r| == k
  {
    if trig == [] then Fill(k, 0.0) else
      var m := |trig| - 1;
      var front := StateSums(trig[..m], parts, k, i);
      if |trig[m].0| == k && RegimeFor(parts, trig[m].0) == Some(i)
      then Minus(front, -(trig[m].1 as real), trig[m].0) else front
  }

  /** A regime's predicted cost is its slopes over the summed states, and its constant once a trigger. */
  lemma {:induction false} FormulaCostIs(t: Totals, trig: Triggers, parts: seq<Mat>, i: nat)
    requires NoneEmpty(parts)
    ensures FormulaCost(t, trig, parts, i) ==
            Dot(StateSums(trig, parts, |t.a|, i), t.a) + TriggersWhere(trig, parts, |t.a|, Some(i)) as real * t.c
  {
    hide Dot, RegimeFor;
    if trig == [] {
      DotZero(Fill(|t.a|, 0.0), t.a);
    } else {
      var m := |trig| - 1;
      FormulaCostIs(t, trig[..m], parts, i);
      if |trig[m].0| == |t.a| && RegimeFor(parts, trig[m].0) == Some(i) {
        var (v, n) := trig[m];
        DotMinus(StateSums(trig[..m], parts, |t.a|, i), -(n as real), v, t.a);
        DotCommutes(v, t.a);
        TimesSum(n as real, Dot(t.a, v), t.c, TriggersWhere(trig[..m], parts, |t.a|, Some(i)) as real);
      }
    }
  }

  lemma TimesSum(n: real, x: real, c: real, b: real)
    ensures n * (x + c) == n * x + n * c && (b + n) * c == b * c + n * c && -(-n * x) == n * x
  {
  }

  // ---------------------------------------------------------------- the measured side

  /** The counts that are not a threading runtime's. */
  function Work(m: map<int, real>, slots: map<int, Sym>): map<int, real> {
    map b | b in m && !(b in slots && InRuntime(slots[b])) :: m[b]
  }

  lemma {:induction false} WorkSum(other: Profile, v: Vec, order: seq<int>)
    requires v in other.vecs
    ensures WorkAt(other, v, order) == Sum(Gets(Work(other.vecs[v], other.slots), order))
  {
    hide IsRuntime, InRuntime;
    if order != [] {
      var m := |order| - 1;
      var work := Work(other.vecs[v], other.slots);
      WorkSum(other, v, order[..m]);
      assert Gets(work, order)[..m] == Gets(work, order[..m]);
      RuntimeIff(SymOf(other.slots, order[m]));
      UnknownIsWork();
    }
  }

  lemma UnknownIsWork()
    ensures !InRuntime(("?", "?"))
  {
  }

  /** Measured at a state is everything that was counted there outside the threading runtimes. */
  lemma WorkIs(other: Profile, trig: Triggers, j: nat)
    requires Recorded(other, trig) && j < |trig|
    ensures WorkAt(other, trig[j].0, other.order) == Total(Work(other.vecs[trig[j].0], other.slots))
  {
    hide Total, Sum, InRuntime;
    WorkSum(other, trig[j].0, other.order);
    var work := Work(other.vecs[trig[j].0], other.slots);
    forall b | b in work ensures b in other.order {
      assert b in other.vecs[trig[j].0];
    }
    TotalOver(work, other.order);
  }

  /** The work of all triggers of a given arity. */
  ghost function WorkOf(other: Profile, trig: Triggers, k: nat): real
    requires forall j :: 0 <= j < |trig| ==> trig[j].0 in other.vecs
  {
    if trig == [] then 0.0 else
      var m := |trig| - 1;
      WorkOf(other, trig[..m], k) +
      if |trig[m].0| == k then trig[m].1 as real * Total(Work(other.vecs[trig[m].0], other.slots)) else 0.0
  }

  predicate NoneInGap(trig: Triggers, parts: seq<Mat>, k: nat)
    requires NoneEmpty(parts)
  {
    forall j :: 0 <= j < |trig| && |trig[j].0| == k ==> RegimeFor(parts, trig[j].0) != None
  }

  /** Unless states fall in the gap, the regimes' measured costs are together all the work of the run. */
  lemma {:induction false} MeasuredCostsAre(other: Profile, trig: Triggers, parts: seq<Mat>, k: nat)
    requires Recorded(other, trig) && 1 <= |parts| <= 2 && NoneEmpty(parts) && NoneInGap(trig, parts, k)
    ensures MeasuredCost(k, other, trig, parts, 0) + MeasuredCost(k, other, trig, parts, 1) == WorkOf(other, trig, k)
    ensures |parts| == 1 ==> MeasuredCost(k, other, trig, parts, 1) == 0.0
  {
    hide WorkAt, Total, Work, LexLe;
    if trig != [] {
      var m := |trig| - 1;
      MeasuredCostsAre(other, trig[..m], parts, k);
      WorkIs(other, trig, m);
      assert |trig[m].0| == k ==> RegimeFor(parts, trig[m].0) != None;
    }
  }

  // ---------------------------------------------------------------- the run it was derived from

  /** Outside the runtimes, what was counted at a point is what the kept and the irregular blocks hold there. */
  lemma {:induction false} WorkIsBlocks(p: Profile, values: Mat, k: nat, order: seq<int>, i: nat)
    requires Points(values, k) && Covers(p.vecs, values) && i < |values|
    ensures var bs := BlocksOf(p.vecs, values, p.slots, order);
            WorkAt(p, values[i], order) == KeptSum(values, k, bs, i) + IrregularSum(values, k, bs, i)
  {
    hide Appears, SymOf, Get, Joins, StaysOut, InRuntime, IsRuntime;
    if order != [] {
      var m := |order| - 1;
      WorkIsBlocks(p, values, k, order[..m], i);
      RuntimeIff(SymOf(p.slots, order[m]));
      if Appears(p.vecs, values, order[m]) {
        var b := Block(SymOf(p.slots, order[m]), CountsFor(p.vecs, values, order[m]));
        BlockSums(values, k, BlocksOf(p.vecs, values, p.slots, order[..m]), b, i);
      } else {
        assert BlocksOf(p.vecs, values, p.slots, order) == BlocksOf(p.vecs, values, p.slots, order[..m]);
        AbsentIsZero(p.vecs, values, order[m], i);
      }
    }
  }

  lemma BlockSums(values: Mat, k: nat, bs: seq<Block>, b: Block, i: nat)
    requires Points(values, k) && Blocks(bs, |values|) && |b.ys| == |values| && i < |values|
    ensures Blocks(bs + [b], |values|)
    ensures KeptSum(values, k, bs + [b], i) + IrregularSum(values, k, bs + [b], i)
         == KeptSum(values, k, bs, i) + IrregularSum(values, k, bs, i) + if InRuntime(b.sym) then 0.0 else b.ys[i]
  {
    hide Keeps, InRuntime;
    assert (bs + [b])[..|bs|] == bs;
  }

  /** Every observed point, triggered `n` times. */
  function EachTimes(values: Mat, n: nat): (trig: Triggers)
    ensures |trig| == |values|
    ensures forall i :: 0 <= i < |values| ==> trig[i] == (values[i], n)
  {
    seq(|values|, i requires 0 <= i < |values| => (values[i], n))
  }

  lemma {:induction false} OwnFormulaCost(t: Totals, values: Mat, n: nat, m: nat)
    requires Rect(values, |values|, |t.a|) && values != [] && m <= |values|
    ensures FormulaCost(t, EachTimes(values, n)[..m], [values], 0) == n as real * Sum(Fitted(values, t.a, t.c)[..m])
  {
    hide Dot;
    if m > 0 {
      OwnFormulaCost(t, values, n, m - 1);
      var f := Fitted(values, t.a, t.c);
      assert EachTimes(values, n)[..m][..m - 1] == EachTimes(values, n)[..m - 1] && f[..m][..m - 1] == f[..m - 1];
      TimesMore(n as real, Sum(f[..m - 1]), f[m - 1]);
    }
  }

  lemma TimesMore(n: real, x: real, y: real)
    ensures n * x + n * y == n * (x + y)
  {
  }

  /** What was counted at each point outside the runtimes. */
  function Works(p: Profile, values: Mat): (r: Vec)
    requires Covers(p.vecs, values)
    ensures |r| == |values|
    ensures forall i :: 0 <= i < |values| ==> r[i] == WorkAt(p, values[i], p.order)
  {
    seq(|values|, i requires 0 <= i < |values| => WorkAt(p, values[i], p.order))
  }

  lemma {:induction false} OwnMeasuredCost(p: Profile, values: Mat, n: nat, m: nat)
    requires Observed(p, values) && values != [] && m <= |values|
    ensures Recorded(p, EachTimes(values, n)[..m])
    ensures MeasuredCost(Arity(values), p, EachTimes(values, n)[..m], [values], 0)
         == n as real * Sum(Works(p, values)[..m])
  {
    hide WorkAt;
    var trig, works := EachTimes(values, n), Works(p, values);
    if m > 0 {
      OwnMeasuredCost(p, values, n, m - 1);
      assert trig[..m][..m - 1] == trig[..m - 1] && works[..m][..m - 1] == works[..m - 1];
      TimesMore(n as real, Sum(works[..m - 1]), works[m - 1]);
    }
  }

  lemma OwnCost(p: Profile, values: Mat, i: nat)
    requires Observed(p, values) && i < |values|
    ensures Points(values, Arity(values))
    ensures var k, bs := Arity(values), BlocksOf(p.vecs, values, p.slots, p.order);
            var t := TotalsOf(values, k, bs);
            && WorkAt(p, values[i], p.order) == CountsAt(values, k, bs, RegularBlocks, i) + Get(t.irr, values[i])
  {
    hide BlocksOf, TotalsOf, WorkAt, CountsAt, Get, KeptSum, IrregularSum, WaitingSum, KeptPlanes, Formula;
    RegularPoints(p, values);
    var k, bs := Arity(values), BlocksOf(p.vecs, values, p.slots, p.order);
    WorkIsBlocks(p, values, k, p.order, i);
    SumsAre(values, k, bs, i);
    TablesIff(values, k, bs, i);
  }

  /**
   Predicting the very run a single regime was derived from, each state triggered equally often:
   what the formula misses of the measured cost is exactly the irregular counts, once a trigger.
   */
  lemma OwnRunIsPredicted(p: Profile, values: Mat, n: nat)
    requires Observed(p, values) && values != []
    ensures var k, trig := Arity(values), EachTimes(values, n);
            var t := RegimeTotals(p.vecs, values, p.slots, p.order);
            && Recorded(p, trig)
            && FormulaCost(t, trig, [values], 0) + n as real * Sum(Gets(t.irr, values))
               == MeasuredCost(k, p, trig, [values], 0)
  {
    hide BlocksOf, TotalsOf, CountsAt, FormulaCost, MeasuredCost, WorkAt, Observed, Sum, Get;
    RegularPoints(p, values);
    var k, bs := Arity(values), BlocksOf(p.vecs, values, p.slots, p.order);
    var t, trig := TotalsOf(values, k, bs), EachTimes(values, n);
    OwnFormulaCost(t, values, n, |values|);
    OwnMeasuredCost(p, values, n, |values|);
    assert trig[..|values|] == trig;
    var f, works := Fitted(values, t.a, t.c), Works(p, values);
    assert f[..|values|] == f && works[..|values|] == works;
    FormulaConserves(values, k, bs);
    var regular, irregular := CountsOver(values, k, bs, RegularBlocks), Gets(t.irr, values);
    forall i | 0 <= i < |values| ensures works[i] == Plus(regular, irregular)[i] {
      OwnCost(p, values, i);
    }
    assert works == Plus(regular, irregular);
    SumPlus(regular, irregular);
    TimesMore(n as real, Sum(regular), Sum(irregular));
  }
}
