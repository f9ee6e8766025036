/** One regime: the object that accumulates block after block, and the loop over the blocks. */
module DeriveRegime {
  import opened Vectors
  import opened GaussJordan
  import opened LeastSquares
  import opened RealMaps
  import opened BlockRelation
  import opened Regimes

  const MIN_VALUES := 3

  class Regime {
    const values: Mat
    const k: nat
    var a: Vec
    var c: real
    var irr: map<Vec, real>
    var wait: map<Vec, real>
    var nAffine: nat
    var nConst: nat
    var nIrr: nat
    var symA: seq<map<Sym, real>>
    var symC: map<Sym, real>
    var symIrr: map<Sym, real>
    var dependent: set<nat>

    function Model(): Totals
      reads this
    {
      Totals(a, c, irr, wait, nAffine, nConst, nIrr, symA, symC, symIrr, dependent)
    }

    predicate Valid()
      reads this
    {
      Points(values, k) && HasStates(Model(), k)
    }

    constructor (values: Mat, k: nat)
      requires Points(values, k)
      ensures Valid() && this.values == values && this.k == k
      ensures Model() == NoTotals(k)
    {
      this.values, this.k := values, k;
      a, c, irr, wait := Fill(k, 0.0), 0.0, map[], map[];
      nAffine, nConst, nIrr := 0, 0, 0;
      symA, symC, symIrr, dependent := seq(k, _ => map[]), map[], map[], {};
    }

    method AddWaiting(ys: Vec)
      requires Valid() && |ys| == |values|
      modifies this`wait
      ensures Valid() && wait == AddAll(old(wait), values, ys)
    {
      var i := 0;
      while i < |values|
        invariant i <= |values| && wait == AddAll(old(wait), values[..i], ys[..i])
      {
        wait := wait[values[i] := Get(wait, values[i]) + ys[i]];
        i := i + 1;
        assert values[..i][..i - 1] == values[..i - 1] && ys[..i][..i - 1] == ys[..i - 1];
      }
      assert values[..i] == values && ys[..i] == ys;
    }

    method AddIrregular(sym: Sym, ys: Vec)
      requires Valid() && |ys| == |values|
      modifies this`irr, this`nIrr, this`symIrr
      ensures Valid() && irr == AddAll(old(irr), values, ys)
      ensures nIrr == old(nIrr) + 1 && symIrr == Bump(old(symIrr), sym, Mean(ys))
    {
      nIrr := nIrr + 1;
      var i := 0;
      while i < |values|
        invariant i <= |values| && irr == AddAll(old(irr), values[..i], ys[..i])
        invariant nIrr == old(nIrr) + 1 && symIrr == old(symIrr)
      {
        irr := irr[values[i] := Get(irr, values[i]) + ys[i]];
        i := i + 1;
        assert values[..i][..i - 1] == values[..i - 1] && ys[..i][..i - 1] == ys[..i - 1];
      }
      assert values[..i] == values && ys[..i] == ys;
      symIrr := symIrr[sym := Get(symIrr, sym) + Mean(ys)];
    }

    /** The scaling states' slopes, one by one. */
    method AddSlopes(sym: Sym, slopes: Vec, mask: seq<bool>)
      requires Valid() && |slopes| == |mask| == k
      modifies this`a, this`symA
      ensures Valid() && a == Plus(old(a), Masked(slopes, mask))
      ensures symA == ChargeSlopes(old(symA), sym, Masked(slopes, mask), mask)
    {
      var j := 0;
      while j < k
        invariant j <= k && Valid()
        invariant forall i :: 0 <= i < j ==> a[i] == old(a)[i] + Masked(slopes, mask)[i]
        invariant forall i :: j <= i < k ==> a[i] == old(a)[i]
        invariant forall i :: 0 <= i < j ==> symA[i] == ChargeSlopes(old(symA), sym, Masked(slopes, mask), mask)[i]
        invariant forall i :: j <= i < k ==> symA[i] == old(symA)[i]
      {
        if mask[j] {
          a := a[j := a[j] + slopes[j]];
          symA := symA[j := Bump(symA[j], sym, slopes[j])];
        }
        j := j + 1;
      }
      assert a == Plus(old(a), Masked(slopes, mask));
    }

    method AddRegular(sym: Sym, ys: Vec, f: Fit)
      requires Valid() && |ys| == |values| && f == AffineFit(values, ys, k) && Accepted(values, ys, f)
      modifies this`a, this`c, this`symA, this`symC, this`nAffine, this`nConst
      ensures Valid() && Model() == AddPart(old(Model()), values, Block(sym, ys), PartOf(values, ys, k))
    {
      hide AffineFit, Accepted, ScalesIn, Mean, Means, Bump, ChargeSlopes, Plus, Dot;
      var mask := Scaling(values, ys, f);
      if true in mask {
        var cc := f.c + Dot(Dropped(f.a, mask), Means(values, k));
        c := c + cc;
        nAffine := nAffine + 1;
        symC := Bump(symC, sym, cc);
        AddSlopes(sym, f.a, mask);
      } else {
        var cm := Mean(ys);
        c := c + cm;
        nConst := nConst + 1;
        symC := Bump(symC, sym, cm);
      }
    }

    /** One block's counts at the regime's points. */
    method Place(sym: Sym, ys: Vec)
      requires Valid() && |ys| == |values|
      modifies this
      ensures Valid() && Model() == AddBlock(old(Model()), values, k, Block(sym, ys))
    {
      hide AffineFit, Accepted, Mean, Bump, AddAll, Scaling, IsRuntime;
      if IsRuntime(sym) {
        AddWaiting(ys);
        return;
      }
      var f := FitPlane(values, ys, k);
      dependent := dependent + f.dep;
      if Accepted(values, ys, f) {
        AddRegular(sym, ys, f);
      } else {
        AddIrregular(sym, ys);
      }
    }
  }

  // ---------------------------------------------------------------- the blocks of a list of points

  /** Counts per trigger, point by point and block by block. */
  type Counts = map<Vec, map<int, real>>

  predicate Covers(vecs: Counts, values: Mat) {
    forall i :: 0 <= i < |values| ==> values[i] in vecs
  }

  predicate Appears(vecs: Counts, values: Mat, b: int)
    requires Covers(vecs, values)
  {
    exists i :: 0 <= i < |values| && b in vecs[values[i]]
  }

  function SymOf(slots: map<int, Sym>, b: int): Sym {
    if b in slots then slots[b] else ("?", "?")
  }

  function CountsFor(vecs: Counts, values: Mat, b: int): (ys: Vec)
    requires Covers(vecs, values)
    ensures |ys| == |values|
    ensures forall i :: 0 <= i < |values| ==> ys[i] == Get(vecs[values[i]], b)
  {
    seq(|values|, i requires 0 <= i < |values| => Get(vecs[values[i]], b))
  }

  /** The blocks that ran at some point, in the order of the slot list. */
  function BlocksOf(vecs: Counts, values: Mat, slots: map<int, Sym>, order: seq<int>): (bs: seq<Block>)
    requires Covers(vecs, values)
    ensures Blocks(bs, |values|)
  {
    if order == [] then [] else
      var m := |order| - 1;
      BlocksOf(vecs, values, slots, order[..m]) +
      if Appears(vecs, values, order[m]) then [Block(SymOf(slots, order[m]), CountsFor(vecs, values, order[m]))] else []
  }

  function Arity(values: Mat): nat {
    if values == [] then 0 else |values[0]|
  }

  predicate TooFew(values: Mat) {
    |values| < (if MIN_VALUES > Arity(values) + 2 then MIN_VALUES else Arity(values) + 2)
  }

  /** Distinct points of the same arity, in any number. */
  predicate PointList(values: Mat) {
    Rect(values, |values|, Arity(values)) && Distinct(values)
  }

  predicate AllSlots(vecs: Counts, values: Mat, order: seq<int>)
    requires Covers(vecs, values)
  {
    Distinct(order) && forall i, b :: 0 <= i < |values| && b in vecs[values[i]] ==> b in order
  }

  /** The accumulated totals of the regime over `values`. */
  function RegimeTotals(vecs: Counts, values: Mat, slots: map<int, Sym>, order: seq<int>): (t: Totals)
    requires PointList(values) && values != [] && Covers(vecs, values)
    ensures HasStates(t, Arity(values))
  {
    TotalsOf(values, Arity(values), BlocksOf(vecs, values, slots, order))
  }

  method SlotsAt(vecs: Counts, values: Mat) returns (blocks: set<int>)
    requires Covers(vecs, values)
    ensures forall b :: b in blocks <==> Appears(vecs, values, b)
  {
    blocks := {};
    var i := 0;
    while i < |values|
      invariant i <= |values|
      invariant forall b :: b in blocks <==> exists j :: 0 <= j < i && b in vecs[values[j]]
    {
      blocks := blocks + vecs[values[i]].Keys;
      i := i + 1;
    }
  }

  lemma BlocksOfSnoc(vecs: Counts, values: Mat, slots: map<int, Sym>, order: seq<int>, b: int)
    requires Covers(vecs, values)
    ensures var front := BlocksOf(vecs, values, slots, order);
            BlocksOf(vecs, values, slots, order + [b]) ==
            if Appears(vecs, values, b) then front + [Block(SymOf(slots, b), CountsFor(vecs, values, b))] else front
  {
    hide Appears, SymOf;
    assert (order + [b])[..|order|] == order;
  }

  /** One slot more of the list. */
  lemma NextSlot(vecs: Counts, values: Mat, k: nat, slots: map<int, Sym>, order: seq<int>, i: nat)
    requires Points(values, k) && Covers(vecs, values) && i < |order|
    ensures var t := TotalsOf(values, k, BlocksOf(vecs, values, slots, order[..i]));
            TotalsOf(values, k, BlocksOf(vecs, values, slots, order[..i + 1])) ==
            if Appears(vecs, values, order[i])
            then AddBlock(t, values, k, Block(SymOf(slots, order[i]), CountsFor(vecs, values, order[i]))) else t
  {
    hide AddBlock, Appears, SymOf, Covers, Rect, Distinct, BlocksOf, TotalsOf;
    BlocksOfSnoc(vecs, values, slots, order[..i], order[i]);
    assert order[..i + 1] == order[..i] + [order[i]];
    var b := Block(SymOf(slots, order[i]), CountsFor(vecs, values, order[i]));
    TotalsOfSnoc(values, k, BlocksOf(vecs, values, slots, order[..i]), b);
  }

  lemma NoSlots(vecs: Counts, values: Mat, k: nat, slots: map<int, Sym>)
    requires Points(values, k) && Covers(vecs, values)
    ensures TotalsOf(values, k, BlocksOf(vecs, values, slots, [])) == NoTotals(k)
  {
  }

  /** The blocks in slot order, each placed in turn; nothing is claimed from too few points. */
  method Derive(vecs: Counts, values: Mat, slots: map<int, Sym>, order: seq<int>) returns (r: Regime?)
    requires PointList(values) && Covers(vecs, values) && AllSlots(vecs, values, order)
    ensures r == null <==> TooFew(values)
    ensures r != null ==> fresh(r) && r.Valid() && r.values == values && r.k == Arity(values)
    ensures r != null ==> r.Model() == RegimeTotals(vecs, values, slots, order)
  {
    hide AddBlock, Appears, SymOf, AllSlots, Covers, Rect, Distinct, BlocksOf, TotalsOf;
    if TooFew(values) {
      return null;
    }
    r := new Regime(values, Arity(values));
    var blocks := SlotsAt(vecs, values);
    var i := 0;
    NoSlots(vecs, values, r.k, slots);
    assert order[..0] == [];
    while i < |order|
      invariant i <= |order| && fresh(r) && r.Valid() && r.values == values && r.k == Arity(values)
      invariant r.Model() == TotalsOf(values, r.k, BlocksOf(vecs, values, slots, order[..i]))
    {
      NextSlot(vecs, values, r.k, slots, order, i);
      if order[i] in blocks {
        r.Place(SymOf(slots, order[i]), CountsFor(vecs, values, order[i]));
      }
      i := i + 1;
    }
    assert order[..i] == order;
  }

  // ---------------------------------------------------------------- every count is in some block

  lemma AbsentIsZero(vecs: Counts, values: Mat, b: int, i: nat)
    requires Covers(vecs, values) && i < |values| && !Appears(vecs, values, b)
    ensures Get(vecs[values[i]], b) == 0.0
  {
  }

  lemma {:induction false} BlocksCoverOrder(vecs: Counts, values: Mat, k: nat, slots: map<int, Sym>,
                                            order: seq<int>, i: nat)
    requires Points(values, k) && Covers(vecs, values) && i < |values|
    ensures CountsAt(values, k, BlocksOf(vecs, values, slots, order), AllBlocks, i) == Sum(Gets(vecs[values[i]], order))
  {
    hide Appears, SymOf, Get, CountsAt, Sum;
    if order == [] {
      NothingCounted(vecs, values, k, slots, i);
    } else {
      var m := |order| - 1;
      BlocksCoverOrder(vecs, values, k, slots, order[..m], i);
      SlotAdds(vecs, values, k, slots, order[..m], order[m], i);
      assert order == order[..m] + [order[m]];
    }
  }

  lemma NothingCounted(vecs: Counts, values: Mat, k: nat, slots: map<int, Sym>, i: nat)
    requires Points(values, k) && Covers(vecs, values) && i < |values|
    ensures CountsAt(values, k, BlocksOf(vecs, values, slots, []), AllBlocks, i) == 0.0
    ensures Sum(Gets(vecs[values[i]], [])) == 0.0
  {
  }

  lemma SlotAdds(vecs: Counts, values: Mat, k: nat, slots: map<int, Sym>, order: seq<int>, b: int, i: nat)
    requires Points(values, k) && Covers(vecs, values) && i < |values|
    requires CountsAt(values, k, BlocksOf(vecs, values, slots, order), AllBlocks, i) ==
             Sum(Gets(vecs[values[i]], order))
    ensures CountsAt(values, k, BlocksOf(vecs, values, slots, order + [b]), AllBlocks, i) ==
            Sum(Gets(vecs[values[i]], order + [b]))
  {
    hide Appears, SymOf, Get, CountsAt, BlocksOf, Sum;
    var m := vecs[values[i]];
    BlocksOfSnoc(vecs, values, slots, order, b);
    assert Gets(m, order + [b]) == Gets(m, order) + [Get(m, b)];
    SumSnoc(Gets(m, order), Get(m, b));
    if Appears(vecs, values, b) {
      var block := Block(SymOf(slots, b), CountsFor(vecs, values, b));
      CountsAtSnoc(values, k, BlocksOf(vecs, values, slots, order), block, i);
    } else {
      AbsentIsZero(vecs, values, b, i);
    }
  }

  lemma CountsAtSnoc(values: Mat, k: nat, bs: seq<Block>, b: Block, i: nat)
    requires Points(values, k) && Blocks(bs, |values|) && |b.ys| == |values| && i < |values|
    ensures Blocks(bs + [b], |values|)
    ensures CountsAt(values, k, bs + [b], AllBlocks, i) == CountsAt(values, k, bs, AllBlocks, i) + b.ys[i]
  {
    assert (bs + [b])[..|bs|] == bs;
  }

  function PointTotals(vecs: Counts, values: Mat, order: seq<int>): (r: Vec)
    requires Covers(vecs, values)
    ensures |r| == |values|
    ensures forall i :: 0 <= i < |values| ==> r[i] == Sum(Gets(vecs[values[i]], order))
  {
    seq(|values|, i requires 0 <= i < |values| => Sum(Gets(vecs[values[i]], order)))
  }

  /**
   End to end: over a regime's points, formula, irregular part and waiting sum to everything
   that was counted there, and what was counted at each point is its dictionary's whole sum.
   */
  lemma RegimeConservesCost(vecs: Counts, values: Mat, slots: map<int, Sym>, order: seq<int>)
    requires PointList(values) && values != [] && Covers(vecs, values) && AllSlots(vecs, values, order)
    ensures var t := RegimeTotals(vecs, values, slots, order);
            Sum(Fitted(values, t.a, t.c)) + Sum(Gets(t.irr, values)) + Sum(Gets(t.wait, values)) ==
            Sum(PointTotals(vecs, values, order))
    ensures forall i :: 0 <= i < |values| ==> PointTotals(vecs, values, order)[i] == Total(vecs[values[i]])
  {
    hide TotalsOf, BlocksOf, CountsAt, Sum, Get, Total;
    var k, bs := Arity(values), BlocksOf(vecs, values, slots, order);
    CostIsConserved(values, k, bs);
    forall i | 0 <= i < |values|
      ensures CountsOver(values, k, bs, AllBlocks)[i] == PointTotals(vecs, values, order)[i]
      ensures PointTotals(vecs, values, order)[i] == Total(vecs[values[i]])
    {
      BlocksCoverOrder(vecs, values, k, slots, order, i);
      forall b | b in vecs[values[i]] ensures b in order {
      }
      TotalOver(vecs[values[i]], order);
    }
    assert CountsOver(values, k, bs, AllBlocks) == PointTotals(vecs, values, order);
  }
}
