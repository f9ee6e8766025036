/**
 The regimes of a region: one over all observed points, or two along a single state; which
 regime covers a state; and a formula's prediction for another run.
 */
module Derivation {
  import opened Options
  import opened Vectors
  import opened GaussJordan
  import opened RealMaps
  import opened Regimes
  import opened DeriveRegime

  const MIN_SPLIT := 3
  const SPLIT_GAIN := 0.1

  /** A region's counts per trigger, where its blocks live, and its blocks in the order they are visited in. */
  datatype Profile = Profile(vecs: Counts, slots: map<int, Sym>, order: seq<int>)

  predicate Observed(p: Profile, values: Mat) {
    PointList(values) && Covers(p.vecs, values) && AllSlots(p.vecs, values, p.order)
  }

  /** Another run's counts at the states it was triggered with, all its blocks listed. */
  predicate Recorded(other: Profile, trig: Triggers) {
    && Distinct(other.order)
    && forall j :: 0 <= j < |trig| ==>
         trig[j].0 in other.vecs && forall b :: b in other.vecs[trig[j].0] ==> b in other.order
  }

  // ---------------------------------------------------------------- the order of state tuples

  predicate LexLess(a: Vec, b: Vec) {
    if b == [] then false
    else if a == [] then true
    else a[0] < b[0] || (a[0] == b[0] && LexLess(a[1..], b[1..]))
  }

  predicate LexLe(a: Vec, b: Vec) {
    a == b || LexLess(a, b)
  }

  lemma {:induction false} LexAsymmetric(a: Vec, b: Vec)
    requires LexLess(a, b)
    ensures !LexLess(b, a) && a != b
  {
    if a != [] && a[0] == b[0] {
      LexAsymmetric(a[1..], b[1..]);
    }
  }

  lemma {:induction false} LexTransitive(a: Vec, b: Vec, c: Vec)
    requires LexLess(a, b) && LexLess(b, c)
    ensures LexLess(a, c)
  {
    if a != [] && a[0] == b[0] == c[0] {
      LexTransitive(a[1..], b[1..], c[1..]);
    }
  }

  lemma {:induction false} LexTotal(a: Vec, b: Vec)
    ensures a == b || LexLess(a, b) || LexLess(b, a)
  {
    if a != [] && b != [] && a[0] == b[0] {
      LexTotal(a[1..], b[1..]);
      assert a == [a[0]] + a[1..] && b == [b[0]] + b[1..];
    }
  }

  predicate Sorted(values: Mat) {
    forall i, j :: 0 <= i < j < |values| ==> LexLess(values[i], values[j])
  }

  // ---------------------------------------------------------------- choosing a split

  /** The irregular fraction of the cost at each point: one vote a point. */
  function IrrFracs(t: Totals, vs: Mat): (r: Vec)
    requires Rect(vs, |vs|, |t.a|)
    ensures |r| == |vs|
  {
    seq(|vs|, i requires 0 <= i < |vs| => Ratio(Get(t.irr, vs[i]), CostAt(t, vs[i])))
  }

  lemma PartOfPoints(p: Profile, values: Mat, lo: nat, hi: nat)
    requires Observed(p, values) && lo < hi <= |values|
    ensures Observed(p, values[lo..hi]) && Arity(values[lo..hi]) == Arity(values)
  {
    var part := values[lo..hi];
    assert forall i :: 0 <= i < |part| ==> part[i] == values[lo + i];
  }

  lemma RegularPoints(p: Profile, part: Mat)
    requires Observed(p, part) && part != []
    ensures PointList(part) && Covers(p.vecs, part) && Points(part, Arity(part))
  {
  }

  /** The votes of the regime over points `lo..hi`. */
  function IrrVotes(p: Profile, values: Mat, lo: nat, hi: nat): real
    requires Observed(p, values) && lo < hi <= |values|
  {
    PartOfPoints(p, values, lo, hi);
    var part := values[lo..hi];
    Sum(IrrFracs(RegimeTotals(p.vecs, part, p.slots, p.order), part))
  }

  function WholeScore(p: Profile, values: Mat): real
    requires Observed(p, values) && values != []
  {
    IrrVotes(p, values, 0, |values|) / |values| as real
  }

  /** The mean irregular fraction when the points are cut at `i`. */
  function SplitScore(p: Profile, values: Mat, i: nat): real
    requires Observed(p, values) && 0 < i < |values|
  {
    (IrrVotes(p, values, 0, i) + IrrVotes(p, values, i, |values|)) / |values| as real
  }

  /** The best cut among those before `m` and its score; cut 0 is no cut. */
  function BestSplit(p: Profile, values: Mat, m: nat): (r: (nat, real))
    requires Observed(p, values) && values != [] && m <= |values|
    ensures r.0 == 0 || MIN_SPLIT <= r.0 < m
    decreases m
  {
    if m <= MIN_SPLIT then (0, WholeScore(p, values)) else
      var best := BestSplit(p, values, m - 1);
      var score := SplitScore(p, values, m - 1);
      if score < best.1 - SPLIT_GAIN then (m - 1, score) else best
  }

  predicate MaySplit(p: Profile, values: Mat, split: bool, maxIrr: real)
    requires Observed(p, values) && values != []
  {
    && split && Arity(values) == 1 && |values| >= 2 * MIN_SPLIT
    && IrrShare(RegimeTotals(p.vecs, values, p.slots, p.order), values) > maxIrr
  }

  /** The lists of points the regimes cover. */
  function Partition(p: Profile, values: Mat, split: bool, maxIrr: real): (parts: seq<Mat>)
    requires Observed(p, values)
  {
    if values == [] || TooFew(values) then []
    else if !MaySplit(p, values, split, maxIrr) then [values]
    else
      var at := BestSplit(p, values, |values| - MIN_SPLIT + 1).0;
      if at == 0 then [values] else [values[..at], values[at..]]
  }

  /** One part, or two of at least three points each, that together are the points in order. */
  lemma PartitionCovers(p: Profile, values: Mat, split: bool, maxIrr: real)
    requires Observed(p, values)
    ensures var parts := Partition(p, values, split, maxIrr);
            && (parts == [] <==> values == [] || TooFew(values))
            && (|parts| == 1 ==> parts[0] == values)
            && (|parts| == 2 ==> parts[0] + parts[1] == values && |parts[0]| >= MIN_SPLIT && |parts[1]| >= MIN_SPLIT)
            && |parts| <= 2
            && forall i :: 0 <= i < |parts| ==>
                 Observed(p, parts[i]) && Arity(parts[i]) == Arity(values) && !TooFew(parts[i])
  {
    hide BestSplit, IrrShare, RegimeTotals, Covers;
    var parts := Partition(p, values, split, maxIrr);
    if |parts| == 2 {
      var at := BestSplit(p, values, |values| - MIN_SPLIT + 1).0;
      PartOfPoints(p, values, 0, at);
      PartOfPoints(p, values, at, |values|);
      assert values[..at] == values[0..at] && values[at..] == values[at..|values|];
    }
  }

  lemma {:induction false} BestSplitWins(p: Profile, values: Mat, m: nat)
    requires Observed(p, values) && values != [] && m <= |values|
    ensures var best := BestSplit(p, values, m);
            && best.1 == (if best.0 == 0 then WholeScore(p, values) else SplitScore(p, values, best.0))
            && (best.0 != 0 ==> best.1 < WholeScore(p, values) - SPLIT_GAIN)
            && best.1 <= WholeScore(p, values)
            && forall i :: MIN_SPLIT <= i < m ==> SplitScore(p, values, i) >= best.1 - SPLIT_GAIN
  {
    hide WholeScore, SplitScore;
    if m > MIN_SPLIT {
      BestSplitWins(p, values, m - 1);
    }
  }

  /** The regimes themselves: the whole, then every cut in turn against the best so far. */
  method Derive(p: Profile, values: Mat, split: bool, maxIrr: real) returns (rs: seq<Regime>)
    requires Observed(p, values)
    ensures var parts := Partition(p, values, split, maxIrr);
            && |rs| == |parts|
            && forall i :: 0 <= i < |rs| ==> Built(p, rs[i], parts[i])
    ensures forall i :: 0 <= i < |rs| ==> fresh(rs[i])
  {
    hide IrrShare, RegimeTotals, Covers, IrrVotes, PointList, TooFew;
    if values == [] {
      return [];
    }
    var whole := DeriveRegime.Derive(p.vecs, values, p.slots, p.order);
    if whole == null {
      return [];
    }
    var share := IrrShare(whole.Model(), values);
    if !split || Arity(values) != 1 || share <= maxIrr || |values| < 2 * MIN_SPLIT {
      return [whole];
    }
    rs := Choose(p, values, whole);
  }

  ghost predicate Built(p: Profile, r: Regime, values: Mat)
    reads r
  {
    && Observed(p, values) && values != []
    && r.Valid() && r.values == values && r.k == Arity(values)
    && r.Model() == RegimeTotals(p.vecs, values, p.slots, p.order)
  }

  function Chosen(values: Mat, at: nat): seq<Mat>
    requires at <= |values|
  {
    if at == 0 then [values] else [values[..at], values[at..]]
  }

  method Votes(p: Profile, r: Regime, ghost values: Mat, ghost lo: nat, ghost hi: nat) returns (s: real)
    requires Observed(p, values) && lo < hi <= |values| && Built(p, r, values[lo..hi])
    ensures s == IrrVotes(p, values, lo, hi)
  {
    s := Sum(IrrFracs(r.Model(), r.values));
  }

  lemma CutParts(p: Profile, values: Mat, i: nat)
    requires Observed(p, values) && 0 < i < |values|
    ensures values[..i] == values[0..i] && values[i..] == values[i..|values|]
    ensures Observed(p, values[..i]) && Arity(values[..i]) == Arity(values)
    ensures Observed(p, values[i..]) && Arity(values[i..]) == Arity(values)
  {
    hide Observed;
    PartOfPoints(p, values, 0, i);
    PartOfPoints(p, values, i, |values|);
    assert values[..i] == values[0..i];
    assert values[i..] == values[i..|values|];
  }

  /** A regime for each side of the cut at `i`, both of which have three points, and the cut's score. */
  method Cut(p: Profile, values: Mat, i: nat) returns (lo: Regime, hi: Regime, score: real)
    requires Observed(p, values) && Arity(values) == 1 && MIN_SPLIT <= i <= |values| - MIN_SPLIT
    ensures Built(p, lo, values[..i]) && Built(p, hi, values[i..]) && fresh(lo) && fresh(hi)
    ensures score == SplitScore(p, values, i)
  {
    hide RegimeTotals, Covers, IrrVotes, PointList;
    var n := |values|;
    CutParts(p, values, i);
    var low := DeriveRegime.Derive(p.vecs, values[..i], p.slots, p.order);
    var high := DeriveRegime.Derive(p.vecs, values[i..], p.slots, p.order);
    lo, hi := low, high;
    var lowVotes := Votes(p, lo, values, 0, i);
    var highVotes := Votes(p, hi, values, i, n);
    score := (lowVotes + highVotes) / n as real;
  }

  method Choose(p: Profile, values: Mat, whole: Regime) returns (rs: seq<Regime>)
    requires Built(p, whole, values) && Arity(values) == 1 && |values| >= 2 * MIN_SPLIT
    ensures var parts := Chosen(values, BestSplit(p, values, |values| - MIN_SPLIT + 1).0);
            && |rs| == |parts|
            && forall i :: 0 <= i < |rs| ==> Built(p, rs[i], parts[i])
    ensures forall i :: 0 <= i < |rs| ==> rs[i] == whole || fresh(rs[i])
  {
    hide RegimeTotals, Observed, IrrVotes, SplitScore, Arity;
    var n := |values|;
    assert values == values[0..n];
    var votes := Votes(p, whole, values, 0, n);
    rs := [whole];
    var bestIrr := votes / n as real;
    var i := MIN_SPLIT;
    while i < n - MIN_SPLIT + 1
      invariant MIN_SPLIT <= i <= n - MIN_SPLIT + 1
      invariant bestIrr == BestSplit(p, values, i).1
      invariant |rs| == |Chosen(values, BestSplit(p, values, i).0)|
      invariant forall j :: 0 <= j < |rs| ==> Built(p, rs[j], Chosen(values, BestSplit(p, values, i).0)[j])
      invariant forall j :: 0 <= j < |rs| ==> rs[j] == whole || fresh(rs[j])
    {
      var lo, hi, irr := Cut(p, values, i);
      if irr < bestIrr - SPLIT_GAIN {
        rs, bestIrr := [lo, hi], irr;
      }
      i := i + 1;
    }
  }

  // ---------------------------------------------------------------- which regime covers a state

  function RegimeFor(parts: seq<Mat>, v: Vec): Option<nat>
    requires forall i :: 0 <= i < |parts| ==> parts[i] != []
  {
    if parts == [] then None
    else if |parts| == 1 then Some(0)
    else if LexLe(v, parts[0][|parts[0]| - 1]) then Some(0)
    else if LexLe(parts[1][0], v) then Some(1)
    else None
  }

  /** With two regimes, an observed point is covered by the regime it belongs to. */
  lemma ObservedIsCovered(values: Mat, at: nat, i: nat)
    requires Sorted(values) && 0 < at < |values| && i < |values|
    ensures RegimeFor([values[..at], values[at..]], values[i]) == Some(if i < at then 0 else 1)
  {
    var top, bottom := values[at - 1], values[at];
    if at <= i {
      LexAsymmetric(top, values[i]);
    }
  }

  /** Exactly the states strictly between the two regimes are covered by neither. */
  lemma GapIsBetween(parts: seq<Mat>, v: Vec)
    requires |parts| == 2 && parts[0] != [] && parts[1] != []
    ensures RegimeFor(parts, v) == None <==> LexLess(parts[0][|parts[0]| - 1], v) && LexLess(v, parts[1][0])
  {
    var top, bottom := parts[0][|parts[0]| - 1], parts[1][0];
    LexTotal(top, v);
    LexTotal(v, bottom);
    if LexLess(top, v) {
      LexAsymmetric(top, v);
    }
    if LexLess(v, bottom) {
      LexAsymmetric(v, bottom);
    }
  }

  function PointLists(rs: seq<Regime>): (parts: seq<Mat>)
    ensures |parts| == |rs|
    ensures forall i :: 0 <= i < |rs| ==> parts[i] == rs[i].values
  {
    seq(|rs|, i requires 0 <= i < |rs| => rs[i].values)
  }

  /** At most two regimes, over states of the same arity. */
  predicate Usable(rs: seq<Regime>, k: nat)
    reads rs
  {
    |rs| <= 2 && forall i :: 0 <= i < |rs| ==> rs[i].Valid() && rs[i].k == k && rs[i].values != []
  }

  /** The regimes of the partition of a list of points, in order. */
  ghost predicate Derived(p: Profile, values: Mat, split: bool, maxIrr: real, rs: seq<Regime>)
    requires Observed(p, values)
    reads rs
  {
    var parts := Partition(p, values, split, maxIrr);
    |rs| == |parts| && forall i :: 0 <= i < |rs| ==> Built(p, rs[i], parts[i])
  }

  /** Where the `i`th observed point is: the part it belongs to, and its place there. */
  function HomeOf(parts: seq<Mat>, i: nat): (nat, nat)
    requires parts != []
  {
    if i < |parts[0]| then (0, i) else (1, i - |parts[0]|)
  }

  /** `y` is off the regular blocks' counts at a point by no more than they are allowed there. */
  predicate NearCounts(p: Profile, part: Mat, h: nat, y: real)
    requires Observed(p, part) && h < |part|
  {
    var bs := BlocksOf(p.vecs, part, p.slots, p.order);
    Abs(CountsAt(part, Arity(part), bs, RegularBlocks, h) - y) <= AllowedAt(part, Arity(part), bs, h)
  }

  lemma HomeIsThere(p: Profile, values: Mat, split: bool, maxIrr: real, i: nat)
    requires Observed(p, values) && Sorted(values) && i < |values| && Partition(p, values, split, maxIrr) != []
    ensures var parts := Partition(p, values, split, maxIrr);
            var (m, h) := HomeOf(parts, i);
            && m < |parts| && h < |parts[m]| && parts[m][h] == values[i] && Observed(p, parts[m])
            && (forall j :: 0 <= j < |parts| ==> parts[j] != [])
            && RegimeFor(parts, values[i]) == Some(m)
  {
    hide LexLe, Observed, BestSplit, MaySplit, TooFew, Sorted, Partition;
    PartitionCovers(p, values, split, maxIrr);
    var parts := Partition(p, values, split, maxIrr);
    if |parts| == 2 {
      var at := |parts[0]|;
      assert values[..at] == parts[0] && values[at..] == parts[1];
      ObservedIsCovered(values, at, i);
      assert parts == [values[..at], values[at..]];
    }
  }

  lemma FormulaIsNear(p: Profile, r: Regime, part: Mat, h: nat)
    requires Built(p, r, part) && h < |part|
    ensures NearCounts(p, part, h, Formula(r.Model(), part[h]))
  {
    hide CountsAt, AllowedAt, Formula, TotalsOf, Covers;
    FormulaErrorBound(part, Arity(part), BlocksOf(p.vecs, part, p.slots, p.order), h);
  }

  /** Between the last point of the first regime and the first point of the second. */
  ghost predicate InGap(rs: seq<Regime>, v: Vec)
    requires forall i :: 0 <= i < |rs| ==> rs[i].values != []
  {
    |rs| == 2 && LexLess(rs[0].values[|rs[0].values| - 1], v) && LexLess(v, rs[1].values[0])
  }

  /**
   A formula for a state: none exactly in the gap, or without regimes; at an observed point that
   of the regime holding the point, and near the counts measured there.
   */
  method Evaluate(rs: seq<Regime>, v: Vec, ghost p: Profile, ghost values: Mat, ghost split: bool, ghost maxIrr: real)
    returns (y: Option<real>)
    requires Observed(p, values) && Derived(p, values, split, maxIrr, rs) && Usable(rs, |v|)
    ensures y == None <==> rs == [] || InGap(rs, v)
    ensures y.Some? ==> exists m :: 0 <= m < |rs| && RegimeFor(PointLists(rs), v) == Some(m)
                                 && y.value == Formula(rs[m].Model(), v)
    ensures rs != [] && Sorted(values) ==>
              forall i :: 0 <= i < |values| && values[i] == v ==>
                var (m, h) := HomeOf(PointLists(rs), i);
                && m < |rs| && h < |rs[m].values| && rs[m].values[h] == v && Observed(p, rs[m].values)
                && y == Some(Formula(rs[m].Model(), v)) && NearCounts(p, rs[m].values, h, y.value)
  {
    hide LexLe, Formula, NearCounts, Sorted, Partition, Observed;
    ghost var parts := Partition(p, values, split, maxIrr);
    assert PointLists(rs) == parts;
    if |rs| == 2 {
      GapIsBetween(PointLists(rs), v);
    }
    var i := RegimeFor(PointLists(rs), v);
    y := match i
      case None => None
      case Some(j) => Some(Formula(rs[j].Model(), v));
    if rs != [] && Sorted(values) {
      forall i | 0 <= i < |values| && values[i] == v
        ensures var (m, h) := HomeOf(PointLists(rs), i);
                && m < |rs| && h < |rs[m].values| && rs[m].values[h] == v && Observed(p, rs[m].values)
                && y == Some(Formula(rs[m].Model(), v)) && NearCounts(p, rs[m].values, h, y.value)
      {
        HomeIsThere(p, values, split, maxIrr, i);
        var (m, h) := HomeOf(parts, i);
        FormulaIsNear(p, rs[m], parts[m], h);
      }
    }
  }

  // ---------------------------------------------------------------- predicting another run

  /** Triggers of another run, by state. */
  type Triggers = seq<(Vec, nat)>

  function TriggersWhere(trig: Triggers, parts: seq<Mat>, k: nat, want: Option<nat>): nat
    requires forall i :: 0 <= i < |parts| ==> parts[i] != []
  {
    if trig == [] then 0 else
      var m := |trig| - 1;
      TriggersWhere(trig[..m], parts, k, want) +
      if |trig[m].0| == k && RegimeFor(parts, trig[m].0) == want then trig[m].1 else 0
  }

  function TriggersOfArity(trig: Triggers, k: nat): nat {
    if trig == [] then 0 else
      var m := |trig| - 1;
      TriggersOfArity(trig[..m], k) + if |trig[m].0| == k then trig[m].1 else 0
  }

  function FormulaCost(t: Totals, trig: Triggers, parts: seq<Mat>, i: nat): real
    requires forall j :: 0 <= j < |parts| ==> parts[j] != []
  {
    if trig == [] then 0.0 else
      var m := |trig| - 1;
      FormulaCost(t, trig[..m], parts, i) +
      if |trig[m].0| == |t.a| && RegimeFor(parts, trig[m].0) == Some(i)
      then trig[m].1 as real * Formula(t, trig[m].0) else 0.0
  }

  /** Counts at a state outside the runtime's modules. */
  function WorkAt(other: Profile, v: Vec, order: seq<int>): real
    requires v in other.vecs
  {
    if order == [] then 0.0 else
      var m := |order| - 1;
      WorkAt(other, v, order[..m]) +
      if IsRuntime(SymOf(other.slots, order[m])) then 0.0 else Get(other.vecs[v], order[m])
  }

  function MeasuredCost(k: nat, other: Profile, trig: Triggers, parts: seq<Mat>, i: nat): real
    requires forall j :: 0 <= j < |parts| ==> parts[j] != []
    requires forall j :: 0 <= j < |trig| ==> trig[j].0 in other.vecs
  {
    if trig == [] then 0.0 else
      var m := |trig| - 1;
      MeasuredCost(k, other, trig[..m], parts, i) +
      if |trig[m].0| == k && RegimeFor(parts, trig[m].0) == Some(i)
      then trig[m].1 as real * WorkAt(other, trig[m].0, other.order) else 0.0
  }

  datatype Prediction = Prediction(formula: real, measured: real, triggers: nat)

  method PredictRegime(rs: seq<Regime>, k: nat, i: nat, trig: Triggers, other: Profile) returns (row: Prediction)
    requires Usable(rs, k) && i < |rs|
    requires Recorded(other, trig)
    ensures var parts := PointLists(rs);
            row == Prediction(FormulaCost(rs[i].Model(), trig, parts, i), MeasuredCost(k, other, trig, parts, i),
                              TriggersWhere(trig, parts, k, Some(i)))
  {
    hide Formula, WorkAt, RegimeFor;
    var parts := PointLists(rs);
    var pred, meas, nt: nat := 0.0, 0.0, 0;
    var j := 0;
    while j < |trig|
      invariant j <= |trig|
      invariant pred == FormulaCost(rs[i].Model(), trig[..j], parts, i)
      invariant meas == MeasuredCost(k, other, trig[..j], parts, i)
      invariant nt == TriggersWhere(trig[..j], parts, k, Some(i))
    {
      assert trig[..j + 1][..j] == trig[..j];
      var (v, n) := trig[j];
      if |v| == k && RegimeFor(parts, v) == Some(i) {
        pred := pred + n as real * Formula(rs[i].Model(), v);
        nt := nt + n;
        meas := meas + n as real * WorkAt(other, v, other.order);
      }
      j := j + 1;
    }
    assert trig[..j] == trig;
    row := Prediction(pred, meas, nt);
  }

  function RowTriggers(rows: seq<Prediction>): nat {
    if rows == [] then 0 else RowTriggers(rows[..|rows| - 1]) + rows[|rows| - 1].triggers
  }

  lemma {:induction false} TriggersPartition(trig: Triggers, parts: seq<Mat>, k: nat)
    requires 1 <= |parts| <= 2 && forall i :: 0 <= i < |parts| ==> parts[i] != []
    ensures TriggersWhere(trig, parts, k, Some(0)) + TriggersWhere(trig, parts, k, Some(1))
            + TriggersWhere(trig, parts, k, None) == TriggersOfArity(trig, k)
    ensures |parts| == 1 ==> TriggersWhere(trig, parts, k, Some(1)) == 0
  {
    hide LexLe;
    if trig != [] {
      TriggersPartition(trig[..|trig| - 1], parts, k);
    }
  }

  /** Each trigger of the right arity is in one regime's row or in the gap, and in only one. */
  method Predict(rs: seq<Regime>, k: nat, trig: Triggers, other: Profile) returns (rows: seq<Prediction>, gap: nat)
    requires Usable(rs, k)
    requires Recorded(other, trig)
    ensures |rows| == |rs|
    ensures forall i :: 0 <= i < |rs| ==>
              rows[i] == Prediction(FormulaCost(rs[i].Model(), trig, PointLists(rs), i),
                                    MeasuredCost(k, other, trig, PointLists(rs), i),
                                    TriggersWhere(trig, PointLists(rs), k, Some(i)))
    ensures gap == if rs == [] then 0 else TriggersWhere(trig, PointLists(rs), k, None)
    ensures rs != [] ==> RowTriggers(rows) + gap == TriggersOfArity(trig, k)
  {
    hide FormulaCost, MeasuredCost, TriggersWhere, TriggersOfArity, RegimeFor;
    var parts := PointLists(rs);
    rows := [];
    var i := 0;
    while i < |rs|
      invariant i <= |rs| && |rows| == i
      invariant forall j :: 0 <= j < i ==>
                  rows[j] == Prediction(FormulaCost(rs[j].Model(), trig, parts, j),
                                        MeasuredCost(k, other, trig, parts, j),
                                        TriggersWhere(trig, parts, k, Some(j)))
    {
      var row := PredictRegime(rs, k, i, trig, other);
      rows := rows + [row];
      i := i + 1;
    }
    if rs == [] {
      return rows, 0;
    }
    gap := GapTriggers(trig, parts, k);
    TriggersPartition(trig, parts, k);
    assert RowTriggers(rows[..1]) == rows[0].triggers by {
      assert rows[..1][..0] == [];
    }
    assert |rows| == 1 ==> rows == rows[..1];
  }

  method GapTriggers(trig: Triggers, parts: seq<Mat>, k: nat) returns (gap: nat)
    requires forall i :: 0 <= i < |parts| ==> parts[i] != []
    ensures gap == TriggersWhere(trig, parts, k, None)
  {
    hide RegimeFor;
    gap := 0;
    var j := 0;
    while j < |trig|
      invariant j <= |trig| && gap == TriggersWhere(trig[..j], parts, k, None)
    {
      assert trig[..j + 1][..j] == trig[..j];
      if |trig[j].0| == k && RegimeFor(parts, trig[j].0) == None {
        gap := gap + trig[j].1;
      }
      j := j + 1;
    }
    assert trig[..j] == trig;
  }
}
