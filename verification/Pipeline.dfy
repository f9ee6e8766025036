/**
 From the client's keys to the regimes: written, loaded, gathered by state, divided by the calls,
 and derived. What the regimes are built from is what the client counted.
 */
module Pipeline {
  import opened Dictionaries
  import opened Vectors
  import opened GaussJordan
  import opened RealMaps
  import opened Regimes
  import opened DeriveRegime
  import opened Derivation
  import D = BlockDump
  import L = BlockLoad
  import P = PerState

  // ---------------------------------------------------------------- the client's keys, by state

  /** A key of the region that was called, has `arity` states and is no bucket. */
  predicate Placed(k: D.DumpKey, region: string, arity: nat) {
    k.region == region && k.count > 0 && !k.overflow && |k.states| == arity
  }

  function PointOf(k: D.DumpKey): (v: Vec)
    ensures |v| == |k.states|
  {
    seq(|k.states|, i requires 0 <= i < |k.states| => k.states[i].1 as real)
  }

  predicate At(k: D.DumpKey, region: string, arity: nat, v: Vec) {
    Placed(k, region, arity) && PointOf(k) == v
  }

  predicate Seen(ks: seq<D.DumpKey>, region: string, arity: nat, v: Vec) {
    exists i :: 0 <= i < |ks| && At(ks[i], region, arity, v)
  }

  function CountOf(counts: seq<nat>, slot: int): nat {
    if 0 <= slot < |counts| then counts[slot] else 0
  }

  /** Calls counted under the keys at state `v`. */
  function CallsAt(ks: seq<D.DumpKey>, region: string, arity: nat, v: Vec): nat {
    if ks == [] then 0 else
      var m := |ks| - 1;
      CallsAt(ks[..m], region, arity, v) + if At(ks[m], region, arity, v) then ks[m].count else 0
  }

  /** Instructions of one slot counted under them. */
  function SlotAt(ks: seq<D.DumpKey>, region: string, arity: nat, v: Vec, slot: int): nat {
    if ks == [] then 0 else
      var m := |ks| - 1;
      SlotAt(ks[..m], region, arity, v, slot) + if At(ks[m], region, arity, v) then CountOf(ks[m].counts, slot) else 0
  }

  function Recs(ks: seq<D.DumpKey>): (r: seq<L.KeyRec>)
    ensures |r| == |ks|
    ensures forall i :: 0 <= i < |ks| ==> r[i] == L.RecOf(ks[i])
  {
    seq(|ks|, i requires 0 <= i < |ks| => L.RecOf(ks[i]))
  }

  lemma SameKey(k: D.DumpKey, region: string, arity: nat, v: Vec, slot: int)
    ensures P.At(L.RecOf(k), region, arity, v) == At(k, region, arity, v)
    ensures P.Count(L.RecOf(k).vec, slot) == CountOf(k.counts, slot)
  {
    hide L.VecOf;
    L.VecOfMeaning(k.counts, |k.counts|);
    assert P.PointOf(L.RecOf(k)) == PointOf(k);
  }

  lemma {:induction false} SameSums(ks: seq<D.DumpKey>, region: string, arity: nat, v: Vec, slot: int)
    ensures P.TriggersAt(Recs(ks), region, arity, v) == CallsAt(ks, region, arity, v)
    ensures P.SlotAt(Recs(ks), region, arity, v, slot) == SlotAt(ks, region, arity, v, slot)
  {
    hide L.RecOf, P.At, At, P.Count, CountOf;
    if ks != [] {
      var m := |ks| - 1;
      SameSums(ks[..m], region, arity, v, slot);
      assert Recs(ks)[..m] == Recs(ks[..m]);
      SameKey(ks[m], region, arity, v, slot);
      CountKept(ks[m]);
    }
  }

  lemma CountKept(k: D.DumpKey)
    ensures L.RecOf(k).count == k.count
  {
  }

  // ---------------------------------------------------------------- lists of points and of slots

  /** A new point in its place among sorted ones. */
  method Insert(values: Mat, v: Vec) returns (r: Mat)
    requires Sorted(values) && v !in values
    ensures Sorted(r) && forall x :: x in r <==> x in values || x == v
  {
    hide LexLess;
    var i := 0;
    while i < |values| && LexLess(values[i], v)
      invariant i <= |values| && forall j :: 0 <= j < i ==> LexLess(values[j], v)
    {
      i := i + 1;
    }
    r := values[..i] + [v] + values[i..];
    InsertSorts(values, v, i);
  }

  lemma InsertSorts(values: Mat, v: Vec, i: nat)
    requires Sorted(values) && v !in values && i <= |values|
    requires forall j :: 0 <= j < i ==> LexLess(values[j], v)
    requires i < |values| ==> !LexLess(values[i], v)
    ensures Sorted(values[..i] + [v] + values[i..])
  {
    hide LexLess;
    forall j | i <= j < |values| ensures LexLess(v, values[j]) {
      LexTotal(v, values[i]);
      if i < j {
        LexTransitive(v, values[i], values[j]);
      }
    }
  }

  method SortPoints(points: set<Vec>) returns (values: Mat)
    ensures Sorted(values) && forall v :: v in values <==> v in points
  {
    hide Sorted;
    values := [];
    EmptySorted();
    var left := points;
    while left != {}
      invariant left <= points && Sorted(values)
      invariant forall v :: v in values <==> v in points && v !in left
      decreases |left|
    {
      var v := AnyOf(left);
      values := Insert(values, v);
      left := left - {v};
    }
  }

  lemma EmptySorted()
    ensures Sorted([])
  {
  }

  method ListSlots(slots: set<int>) returns (order: seq<int>)
    ensures Distinct(order) && forall b :: b in order <==> b in slots
  {
    order := [];
    var left := slots;
    while left != {}
      invariant left <= slots && Distinct(order)
      invariant forall b :: b in order <==> b in slots && b !in left
      decreases |left|
    {
      var b := AnyOf(left);
      order := order + [b];
      left := left - {b};
    }
  }

  lemma {:induction false} SortedIsDistinct(values: Mat)
    requires Sorted(values)
    ensures Distinct(values)
  {
    hide LexLess;
    forall i, j | 0 <= i < j < |values| ensures values[i] != values[j] {
      LexAsymmetric(values[i], values[j]);
    }
  }

  // ---------------------------------------------------------------- the whole way

  /** Counts per call at a state: times the calls, they are what the client counted there. */
  ghost predicate PerCall(vec: map<int, real>, ks: seq<D.DumpKey>, region: string, arity: nat, v: Vec) {
    && CallsAt(ks, region, arity, v) > 0
    && forall slot ::
         Get(vec, slot) * CallsAt(ks, region, arity, v) as real == SlotAt(ks, region, arity, v, slot) as real
  }

  /** What the derivation works on is, per call, what the client counted. */
  ghost predicate IsCounted(vecs: Counts, ks: seq<D.DumpKey>, region: string, arity: nat) {
    && (forall v :: v in vecs <==> Seen(ks, region, arity, v))
    && forall v :: v in vecs ==> PerCall(vecs[v], ks, region, arity, v)
  }

  lemma CountedAt(cells: map<Vec, P.Cell>, vec: map<int, real>, ks: seq<D.DumpKey>, region: string, arity: nat, v: Vec)
    requires P.Gathers(cells, Recs(ks), region, arity) && v in cells && P.IsPerCall(vec, cells[v].trig, cells[v].vec)
    ensures PerCall(vec, ks, region, arity, v)
  {
    hide P.At, At, P.Count, P.TriggersAt, P.SlotAt, CallsAt, SlotAt, Get, Recs;
    P.GatheredIsTriggered(cells, Recs(ks), region, arity, v);
    assert P.CellAt(cells, v) == cells[v];
    SameSums(ks, region, arity, v, 0);
    forall slot
      ensures Get(vec, slot) * CallsAt(ks, region, arity, v) as real == SlotAt(ks, region, arity, v, slot) as real
    {
      SameSums(ks, region, arity, v, slot);
    }
  }

  lemma CountedIs(cells: map<Vec, P.Cell>, vecs: Counts, trig: map<Vec, nat>, ks: seq<D.DumpKey>, region: string,
                  arity: nat)
    requires P.Gathers(cells, Recs(ks), region, arity) && vecs.Keys == trig.Keys == cells.Keys
    requires forall v :: v in cells ==> trig[v] == cells[v].trig && P.IsPerCall(vecs[v], trig[v], cells[v].vec)
    ensures IsCounted(vecs, ks, region, arity)
  {
    hide P.IsPerCall, P.Gathers, PerCall, Seen, Recs;
    forall v ensures v in vecs <==> Seen(ks, region, arity, v) {
      SameSeen(ks, region, arity, v);
      GatheredKeys(cells, Recs(ks), region, arity, v);
    }
    forall v | v in vecs ensures PerCall(vecs[v], ks, region, arity, v) {
      CountedAt(cells, vecs[v], ks, region, arity, v);
    }
  }

  lemma GatheredKeys(cells: map<Vec, P.Cell>, recs: seq<L.KeyRec>, region: string, arity: nat, v: Vec)
    requires P.Gathers(cells, recs, region, arity)
    ensures v in cells <==> exists i :: 0 <= i < |recs| && P.At(recs[i], region, arity, v)
  {
    hide P.At;
  }

  lemma SameSeen(ks: seq<D.DumpKey>, region: string, arity: nat, v: Vec)
    ensures Seen(ks, region, arity, v) <==> exists i :: 0 <= i < |Recs(ks)| && P.At(Recs(ks)[i], region, arity, v)
  {
    hide P.At, At, L.RecOf;
    forall i | 0 <= i < |ks| ensures P.At(Recs(ks)[i], region, arity, v) == At(ks[i], region, arity, v) {
      SameKey(ks[i], region, arity, v, 0);
    }
    if Seen(ks, region, arity, v) {
      var i :| 0 <= i < |ks| && At(ks[i], region, arity, v);
      assert P.At(Recs(ks)[i], region, arity, v);
    }
  }

  lemma SeenArity(ks: seq<D.DumpKey>, region: string, arity: nat, v: Vec)
    requires Seen(ks, region, arity, v)
    ensures |v| == arity
  {
  }

  /** Loaded records, without their numbers. */
  method Records(keys: seq<(int, L.KeyRec)>, ghost ks: seq<D.DumpKey>) returns (recs: seq<L.KeyRec>)
    requires keys == L.RecsOf(ks)
    ensures recs == Recs(ks)
  {
    recs := [];
    for i := 0 to |keys|
      invariant |recs| == i && forall j :: 0 <= j < i ==> recs[j] == keys[j].1
    {
      recs := recs + [keys[i].1];
    }
  }

  method AllSlotsOf(vecs: Counts, values: Mat) returns (order: seq<int>)
    requires Covers(vecs, values)
    ensures AllSlots(vecs, values, order)
  {
    var blocks := SlotsAt(vecs, values);
    order := ListSlots(blocks);
  }

  lemma PointsFit(vecs: Counts, values: Mat, ks: seq<D.DumpKey>, region: string, arity: nat)
    requires Sorted(values) && (forall v :: v in values <==> v in vecs) && IsCounted(vecs, ks, region, arity)
    ensures PointList(values) && Covers(vecs, values) && (values != [] ==> Arity(values) == arity)
  {
    hide Seen, PerCall, Sorted;
    SortedIsDistinct(values);
    forall i | 0 <= i < |values| ensures values[i] in vecs && |values[i]| == arity {
      assert values[i] in values;
      SeenArity(ks, region, arity, values[i]);
    }
  }

  /**
   The client's keys, printed, loaded, gathered and derived: the regimes are those of the sorted
   states of the region's keys, over counts per call that times the calls are what was counted.
   */
  method Analyse(ks: seq<D.DumpKey>, region: string, slots: map<int, Sym>, split: bool, maxIrr: real)
    returns (rs: seq<Regime>, names: seq<string>, ghost p: Profile, ghost values: Mat)
    requires L.Dumpable(ks)
    ensures names == P.Names(Recs(ks), region) && p.slots == slots
    ensures Observed(p, values) && Sorted(values) && Derived(p, values, split, maxIrr, rs)
    ensures IsCounted(p.vecs, ks, region, |names|) && forall v :: v in values <==> v in p.vecs
  {
    hide IsCounted, PointList, Covers, AllSlots, Sorted, Partition, P.Gathers, P.IsPerCall, L.RecOf;
    var loaded := L.DumpAndLoad(ks);
    var recs := Records(loaded.value, ks);
    var cells, found, dropped := P.PerState(recs, region);
    names := found;
    forall v | v in cells ensures cells[v].trig > 0 {
      P.GatheredIsTriggered(cells, recs, region, |names|, v);
    }
    var vecs, trig := P.PerTrigger(cells);
    CountedIs(cells, vecs, trig, ks, region, |names|);
    var points := SortPoints(vecs.Keys);
    PointsFit(vecs, points, ks, region, |names|);
    var order := AllSlotsOf(vecs, points);
    p, values := Profile(vecs, slots, order), points;
    rs := Derivation.Derive(Profile(vecs, slots, order), points, split, maxIrr);
  }
}
