/**
 When a region is split into two regimes, said on the irregular part of the cost at each observed
 point instead of on the scores the search compares.
 */
module SplitLaws {
  import opened Vectors
  import opened GaussJordan
  import opened LeastSquares
  import opened RealMaps
  import opened BlockRelation
  import opened Regimes
  import opened DeriveRegime
  import opened KeptBlocks
  import opened Derivation

  // ---------------------------------------------------------------- the irregular fraction at a point

  /** The irregular blocks' part of what the regime says a call costs at point `i`; none of no cost. */
  function Fraction(vs: Mat, k: nat, bs: seq<Block>, i: nat): real
    requires Points(vs, k) && Blocks(bs, |vs|) && i < |vs|
  {
    var irregular := IrregularSum(vs, k, bs, i);
    var cost := KeptPlanes(vs, k, bs, vs[i]) + irregular;
    if cost == 0.0 then 0.0 else irregular / cost
  }

  /** A regime's vote at a point is the irregular blocks' counts there over formula and irregular counts. */
  lemma FractionsAre(vs: Mat, k: nat, bs: seq<Block>, i: nat)
    requires Points(vs, k) && Blocks(bs, |vs|) && i < |vs|
    ensures IrrFracs(TotalsOf(vs, k, bs), vs)[i] == Fraction(vs, k, bs, i)
  {
    hide TotalsOf, IrregularSum, WaitingSum, KeptPlanes, Get, Formula;
    TablesIff(vs, k, bs, i);
  }

  function FractionSum(vs: Mat, k: nat, bs: seq<Block>, n: nat): real
    requires Points(vs, k) && Blocks(bs, |vs|) && n <= |vs|
  {
    if n == 0 then 0.0 else FractionSum(vs, k, bs, n - 1) + Fraction(vs, k, bs, n - 1)
  }

  lemma {:induction false} FractionsSum(vs: Mat, k: nat, bs: seq<Block>, n: nat)
    requires Points(vs, k) && Blocks(bs, |vs|) && n <= |vs|
    ensures Sum(IrrFracs(TotalsOf(vs, k, bs), vs)[..n]) == FractionSum(vs, k, bs, n)
  {
    hide TotalsOf, Fraction, IrrFracs;
    if n > 0 {
      var fracs := IrrFracs(TotalsOf(vs, k, bs), vs);
      FractionsSum(vs, k, bs, n - 1);
      FractionsAre(vs, k, bs, n - 1);
      assert fracs[..n][..n - 1] == fracs[..n - 1];
    }
  }

  /** The irregular fractions of the regime over `part`, summed. */
  function VotesIn(p: Profile, part: Mat): real
    requires Observed(p, part) && part != []
  {
    FractionSum(part, Arity(part), BlocksOf(p.vecs, part, p.slots, p.order), |part|)
  }

  lemma VotesAre(p: Profile, values: Mat, lo: nat, hi: nat)
    requires Observed(p, values) && lo < hi <= |values|
    ensures Observed(p, values[lo..hi]) && IrrVotes(p, values, lo, hi) == VotesIn(p, values[lo..hi])
  {
    hide TotalsOf, Observed, Covers, PointList, FractionSum, IrrFracs, Sum;
    PartOfPoints(p, values, lo, hi);
    var part := values[lo..hi];
    RegularPoints(p, part);
    FractionsSum(part, Arity(part), BlocksOf(p.vecs, part, p.slots, p.order), |part|);
    var fracs := IrrFracs(RegimeTotals(p.vecs, part, p.slots, p.order), part);
    assert fracs[..|part|] == fracs;
  }

  /** The mean irregular fraction over all points, by one regime. */
  function MeanFraction(p: Profile, values: Mat): real
    requires Observed(p, values) && values != []
  {
    VotesIn(p, values) / |values| as real
  }

  /** The mean irregular fraction over all points, by a regime up to point `c` and one from it on. */
  function CutFraction(p: Profile, values: Mat, c: nat): real
    requires Observed(p, values) && 0 < c < |values|
  {
    PartOfPoints(p, values, 0, c);
    PartOfPoints(p, values, c, |values|);
    (VotesIn(p, values[0..c]) + VotesIn(p, values[c..|values|])) / |values| as real
  }

  lemma ScoresAre(p: Profile, values: Mat)
    requires Observed(p, values) && values != []
    ensures WholeScore(p, values) == MeanFraction(p, values)
    ensures forall c :: 0 < c < |values| ==> SplitScore(p, values, c) == CutFraction(p, values, c)
  {
    hide Observed, IrrVotes, VotesIn;
    VotesAre(p, values, 0, |values|);
    assert values[0..|values|] == values;
    forall c | 0 < c < |values| ensures SplitScore(p, values, c) == CutFraction(p, values, c) {
      VotesAre(p, values, 0, c);
      VotesAre(p, values, c, |values|);
    }
  }

  // ---------------------------------------------------------------- the irregular share of a region

  function IrregularTotal(vs: Mat, k: nat, bs: seq<Block>, n: nat): real
    requires Points(vs, k) && Blocks(bs, |vs|) && n <= |vs|
  {
    if n == 0 then 0.0 else IrregularTotal(vs, k, bs, n - 1) + IrregularSum(vs, k, bs, n - 1)
  }

  function PlanesTotal(vs: Mat, k: nat, bs: seq<Block>, n: nat): real
    requires Points(vs, k) && Blocks(bs, |vs|) && n <= |vs|
  {
    if n == 0 then 0.0 else PlanesTotal(vs, k, bs, n - 1) + KeptPlanes(vs, k, bs, vs[n - 1])
  }

  lemma {:induction false} CostsSum(vs: Mat, k: nat, bs: seq<Block>, n: nat)
    requires Points(vs, k) && Blocks(bs, |vs|) && n <= |vs|
    ensures Sum(Gets(TotalsOf(vs, k, bs).irr, vs)[..n]) == IrregularTotal(vs, k, bs, n)
    ensures Sum(Costs(TotalsOf(vs, k, bs), vs)[..n]) == PlanesTotal(vs, k, bs, n) + IrregularTotal(vs, k, bs, n)
  {
    hide TotalsOf, IrregularSum, WaitingSum, KeptPlanes, Get, Formula;
    if n > 0 {
      CostsSum(vs, k, bs, n - 1);
      TablesIff(vs, k, bs, n - 1);
      var irr, costs := Gets(TotalsOf(vs, k, bs).irr, vs), Costs(TotalsOf(vs, k, bs), vs);
      assert irr[..n][..n - 1] == irr[..n - 1] && costs[..n][..n - 1] == costs[..n - 1];
    }
  }

  /** The irregular part of all that formula and irregular counts say of the points together. */
  function Share(vs: Mat, k: nat, bs: seq<Block>): real
    requires Points(vs, k) && Blocks(bs, |vs|)
  {
    var irregular := IrregularTotal(vs, k, bs, |vs|);
    var cost := PlanesTotal(vs, k, bs, |vs|) + irregular;
    if cost == 0.0 then 0.0 else irregular / cost
  }

  lemma ShareIs(vs: Mat, k: nat, bs: seq<Block>)
    requires Points(vs, k) && Blocks(bs, |vs|)
    ensures IrrShare(TotalsOf(vs, k, bs), vs) == Share(vs, k, bs)
  {
    hide TotalsOf, IrregularTotal, PlanesTotal, Sum;
    CostsSum(vs, k, bs, |vs|);
    var irr, costs := Gets(TotalsOf(vs, k, bs).irr, vs), Costs(TotalsOf(vs, k, bs), vs);
    assert irr[..|vs|] == irr && costs[..|vs|] == costs;
  }

  // ---------------------------------------------------------------- when there are two regimes

  /** Asked for, along one state, with three points for either side, and irregular by more than what is tolerated. */
  predicate SplitAllowed(p: Profile, values: Mat, split: bool, maxIrr: real)
    requires Observed(p, values)
  {
    && split && |values| >= 6 && |values[0]| == 1
    && Share(values, 1, BlocksOf(p.vecs, values, p.slots, p.order)) > maxIrr
  }

  lemma AllowedIff(p: Profile, values: Mat, split: bool, maxIrr: real)
    requires Observed(p, values) && values != []
    ensures MaySplit(p, values, split, maxIrr) <==> SplitAllowed(p, values, split, maxIrr)
  {
    hide TotalsOf, BlocksOf, Share, IrrShare;
    if |values[0]| == 1 {
      ShareIs(values, 1, BlocksOf(p.vecs, values, p.slots, p.order));
    }
  }

  predicate Pays(p: Profile, values: Mat, c: nat)
    requires Observed(p, values)
  {
    3 <= c <= |values| - 3 && CutFraction(p, values, c) < MeanFraction(p, values) - 0.1
  }

  lemma {:induction false} BestOfCuts(p: Profile, values: Mat, m: nat)
    requires Observed(p, values) && values != [] && m <= |values|
    ensures var at := BestSplit(p, values, m).0;
            && (at != 0 <==> exists c :: 3 <= c < m && SplitScore(p, values, c) < WholeScore(p, values) - 0.1)
            && forall c :: 3 <= c < at ==> SplitScore(p, values, at) < SplitScore(p, values, c)
  {
    hide WholeScore, SplitScore, Observed;
    if m > 3 {
      BestOfCuts(p, values, m - 1);
      BestSplitWins(p, values, m - 1);
      BestSplitWins(p, values, m);
    }
  }

  /**
   Nothing is claimed from fewer than three points, or fewer than two more than there are states.
   Else there are two regimes if and only if a split is allowed and some cut with three points on
   either side lowers the mean irregular fraction over the points by more than a tenth. The cut
   chosen does, it is better than every cut before it, and none is better by more than a tenth.
   */
  lemma SplitIsWorthIt(p: Profile, values: Mat, split: bool, maxIrr: real)
    requires Observed(p, values)
    ensures var parts := Partition(p, values, split, maxIrr);
            && (parts == [] <==> |values| < 3 || |values| < |values[0]| + 2)
            && (|parts| == 2 <==>
                parts != [] && SplitAllowed(p, values, split, maxIrr) && exists c :: Pays(p, values, c))
            && (|parts| != 2 ==> parts == [] || parts == [values])
            && (|parts| == 2 ==>
                var at := |parts[0]|;
                && Pays(p, values, at) && parts == [values[..at], values[at..]]
                && (forall c :: 3 <= c < at ==> CutFraction(p, values, at) < CutFraction(p, values, c))
                && (forall c :: 3 <= c <= |values| - 3 ==>
                      CutFraction(p, values, c) >= CutFraction(p, values, at) - 0.1))
  {
    hide WholeScore, SplitScore, CutFraction, MeanFraction, MaySplit, SplitAllowed, BestSplit, Observed, TooFew;
    TooFewIff(values);
    if values != [] && !TooFew(values) {
      AllowedIff(p, values, split, maxIrr);
      if MaySplit(p, values, split, maxIrr) {
        SixPoints(p, values, split, maxIrr);
        BestCutIsWorthIt(p, values);
      }
    }
  }

  lemma TooFewIff(values: Mat)
    ensures values != [] ==> (TooFew(values) <==> |values| < 3 || |values| < |values[0]| + 2)
  {
  }

  lemma SixPoints(p: Profile, values: Mat, split: bool, maxIrr: real)
    requires Observed(p, values) && values != [] && MaySplit(p, values, split, maxIrr)
    ensures |values| >= 6
  {
    hide IrrShare, RegimeTotals, Covers;
  }

  lemma BestCutIsWorthIt(p: Profile, values: Mat)
    requires Observed(p, values) && |values| >= 6
    ensures var at := BestSplit(p, values, |values| - 2).0;
            && (at != 0 <==> exists c :: Pays(p, values, c))
            && (at != 0 ==>
                && Pays(p, values, at)
                && (forall c :: 3 <= c < at ==> CutFraction(p, values, at) < CutFraction(p, values, c))
                && (forall c :: 3 <= c <= |values| - 3 ==>
                      CutFraction(p, values, c) >= CutFraction(p, values, at) - 0.1))
  {
    hide WholeScore, SplitScore, CutFraction, MeanFraction, BestSplit, Observed;
    var n := |values|;
    BestSplitWins(p, values, n - 2);
    BestOfCuts(p, values, n - 2);
    ScoresAre(p, values);
    var at := BestSplit(p, values, n - 2).0;
    if at != 0 {
      assert Pays(p, values, at);
    }
    if c :| Pays(p, values, c) {
      assert SplitScore(p, values, c) < WholeScore(p, values) - 0.1;
    }
  }

  // ---------------------------------------------------------------- a law without fractions

  /** By one regime over `part` nothing is explained: no formula, and irregular counts everywhere. */
  predicate AllIrregular(p: Profile, part: Mat)
    requires Observed(p, part) && part != []
  {
    var k, bs := Arity(part), BlocksOf(p.vecs, part, p.slots, p.order);
    forall i :: 0 <= i < |part| ==> KeptPlanes(part, k, bs, part[i]) == 0.0 && IrregularSum(part, k, bs, i) > 0.0
  }

  predicate NoneIrregular(p: Profile, part: Mat)
    requires Observed(p, part) && part != []
  {
    var k, bs := Arity(part), BlocksOf(p.vecs, part, p.slots, p.order);
    forall i :: 0 <= i < |part| ==> IrregularSum(part, k, bs, i) == 0.0
  }

  lemma {:induction false} FullVotes(vs: Mat, k: nat, bs: seq<Block>, n: nat)
    requires Points(vs, k) && Blocks(bs, |vs|) && n <= |vs|
    requires forall i :: 0 <= i < n ==> KeptPlanes(vs, k, bs, vs[i]) == 0.0 && IrregularSum(vs, k, bs, i) > 0.0
    ensures FractionSum(vs, k, bs, n) == n as real
    ensures PlanesTotal(vs, k, bs, n) == 0.0
    ensures n > 0 ==> IrregularTotal(vs, k, bs, n) > 0.0
  {
    hide KeptPlanes, IrregularSum;
    if n > 0 {
      FullVotes(vs, k, bs, n - 1);
    }
  }

  lemma {:induction false} NoVotes(vs: Mat, k: nat, bs: seq<Block>, n: nat)
    requires Points(vs, k) && Blocks(bs, |vs|) && n <= |vs|
    requires forall i :: 0 <= i < n ==> IrregularSum(vs, k, bs, i) == 0.0
    ensures FractionSum(vs, k, bs, n) == 0.0
  {
    hide KeptPlanes, IrregularSum;
    if n > 0 {
      NoVotes(vs, k, bs, n - 1);
    }
  }

  lemma WholeIsIrregular(p: Profile, values: Mat)
    requires Observed(p, values) && values != [] && |values[0]| == 1 && AllIrregular(p, values)
    ensures MeanFraction(p, values) == 1.0
    ensures Share(values, 1, BlocksOf(p.vecs, values, p.slots, p.order)) == 1.0
  {
    hide Observed, BlocksOf, KeptPlanes, IrregularSum, FractionSum, PlanesTotal, IrregularTotal;
    RegularPoints(p, values);
    var k, bs := 1, BlocksOf(p.vecs, values, p.slots, p.order);
    assert Arity(values) == k;
    assert forall i :: 0 <= i < |values| ==>
             KeptPlanes(values, k, bs, values[i]) == 0.0 && IrregularSum(values, k, bs, i) > 0.0;
    FullVotes(values, k, bs, |values|);
    assert VotesIn(p, values) == |values| as real;
    SelfRatio(IrregularTotal(values, k, bs, |values|));
    SelfRatio(|values| as real);
  }

  lemma SelfRatio(x: real)
    requires x != 0.0
    ensures x / x == 1.0
  {
  }

  lemma PartIsRegular(p: Profile, part: Mat)
    requires Observed(p, part) && part != [] && NoneIrregular(p, part)
    ensures VotesIn(p, part) == 0.0
  {
    hide Observed, BlocksOf, KeptPlanes, IrregularSum, FractionSum;
    RegularPoints(p, part);
    NoVotes(part, Arity(part), BlocksOf(p.vecs, part, p.slots, p.order), |part|);
  }

  /**
   Where one regime explains nothing, and some cut with three points on either side leaves nothing
   irregular, there are two regimes, unless everything may be irregular.
   */
  lemma TwoRegimesExplainAll(p: Profile, values: Mat, maxIrr: real, c: nat)
    requires Observed(p, values) && 3 <= c <= |values| - 3 && |values[0]| == 1 && maxIrr < 1.0
    requires Observed(p, values[..c]) && Observed(p, values[c..])
    requires AllIrregular(p, values) && NoneIrregular(p, values[..c]) && NoneIrregular(p, values[c..])
    ensures |Partition(p, values, true, maxIrr)| == 2
  {
    hide Observed, BlocksOf, VotesIn, Share, Partition, AllIrregular, NoneIrregular, MeanFraction;
    var lo, hi, n := values[..c], values[c..], |values|;
    assert lo == values[0..c] && hi == values[c..n];
    WholeIsIrregular(p, values);
    PartIsRegular(p, lo);
    PartIsRegular(p, hi);
    assert CutFraction(p, values, c) == 0.0;
    assert Pays(p, values, c);
    SplitIsWorthIt(p, values, true, maxIrr);
  }
}
