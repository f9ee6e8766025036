/**
 A region's keys gathered by state point: summed block counts and triggers per point, with the
 calls that cannot be placed counted apart.
 */
module PerState {
  import opened Dictionaries
  import opened Sums
  import opened Vectors
  import opened RealMaps
  import opened BlockLoad

  /** Summed counts of the slots, and triggers. */
  datatype Cell = Cell(vec: map<int, nat>, trig: nat)

  predicate Mine(k: KeyRec, region: string) {
    k.region == region && k.count > 0
  }

  function NamesOf(k: KeyRec): (names: seq<string>)
    ensures |names| == |k.states|
  {
    seq(|k.states|, i requires 0 <= i < |k.states| => k.states[i].0)
  }

  /** The names of the first key that has states and is no overflow bucket. */
  function Names(keys: seq<KeyRec>, region: string): seq<string> {
    if keys == [] then []
    else if Mine(keys[0], region) && keys[0].states != [] && !keys[0].overflow then NamesOf(keys[0])
    else Names(keys[1..], region)
  }

  /** A key that says what the region's states are called. */
  predicate TellsNames(k: KeyRec, region: string) {
    k.region == region && k.count > 0 && |k.states| > 0 && !k.overflow
  }

  /** The names are those of the first such key, state by state; none if there is none. */
  lemma {:induction false} NamesAre(keys: seq<KeyRec>, region: string)
    ensures || (Names(keys, region) == [] && forall i :: 0 <= i < |keys| ==> !TellsNames(keys[i], region))
            || exists i :: 0 <= i < |keys| && TellsNames(keys[i], region)
                           && (forall j :: 0 <= j < i ==> !TellsNames(keys[j], region))
                           && |Names(keys, region)| == |keys[i].states|
                           && forall x :: 0 <= x < |keys[i].states| ==> Names(keys, region)[x] == keys[i].states[x].0
  {
    if keys != [] && !TellsNames(keys[0], region) {
      NamesAre(keys[1..], region);
      if i :| 0 <= i < |keys| - 1 && TellsNames(keys[1..][i], region)
              && (forall j :: 0 <= j < i ==> !TellsNames(keys[1..][j], region))
              && |Names(keys[1..], region)| == |keys[1..][i].states|
              && forall x :: 0 <= x < |keys[1..][i].states| ==>
                   Names(keys[1..], region)[x] == keys[1..][i].states[x].0
      {
        assert keys[1..][i] == keys[i + 1];
        forall j | 0 <= j < i + 1 ensures !TellsNames(keys[j], region) {
          assert j > 0 ==> keys[j] == keys[1..][j - 1];
        }
        assert Names(keys, region) == Names(keys[1..], region);
      } else {
        forall j | 0 <= j < |keys| ensures !TellsNames(keys[j], region) {
          assert j > 0 ==> keys[j] == keys[1..][j - 1];
        }
      }
    }
  }

  predicate Placed(k: KeyRec, region: string, arity: nat) {
    Mine(k, region) && !k.overflow && |k.states| == arity
  }

  function PointOf(k: KeyRec): (v: Vec)
    ensures |v| == |k.states|
  {
    seq(|k.states|, i requires 0 <= i < |k.states| => k.states[i].1 as real)
  }

  function Count(m: map<int, nat>, slot: int): nat {
    if slot in m then m[slot] else 0
  }

  predicate At(k: KeyRec, region: string, arity: nat, v: Vec) {
    Placed(k, region, arity) && PointOf(k) == v
  }

  /** Calls of the placed keys at point `v`. */
  function TriggersAt(keys: seq<KeyRec>, region: string, arity: nat, v: Vec): nat {
    if keys == [] then 0 else
      var m := |keys| - 1;
      TriggersAt(keys[..m], region, arity, v) + if At(keys[m], region, arity, v) then keys[m].count else 0
  }

  /** Counts of one slot over the placed keys at point `v`. */
  function SlotAt(keys: seq<KeyRec>, region: string, arity: nat, v: Vec, slot: int): nat {
    if keys == [] then 0 else
      var m := |keys| - 1;
      SlotAt(keys[..m], region, arity, v, slot) + if At(keys[m], region, arity, v) then Count(keys[m].vec, slot) else 0
  }

  function Calls(keys: seq<KeyRec>, region: string): nat {
    if keys == [] then 0 else
      var m := |keys| - 1;
      Calls(keys[..m], region) + if Mine(keys[m], region) then keys[m].count else 0
  }

  /** Counts of one slot over all keys that are placed. */
  function PlacedSlot(keys: seq<KeyRec>, region: string, arity: nat, slot: int): nat {
    if keys == [] then 0 else
      var m := |keys| - 1;
      PlacedSlot(keys[..m], region, arity, slot)
      + if Placed(keys[m], region, arity) then Count(keys[m].vec, slot) else 0
  }

  // ---------------------------------------------------------------- the gathered table

  function CellAt(cells: map<Vec, Cell>, v: Vec): Cell {
    if v in cells then cells[v] else Cell(map[], 0)
  }

  /** The table says exactly what the keys so far say, point by point and slot by slot. */
  ghost predicate Gathers(cells: map<Vec, Cell>, keys: seq<KeyRec>, region: string, arity: nat) {
    && (forall v :: CellAt(cells, v).trig == TriggersAt(keys, region, arity, v))
    && (forall v, slot :: Count(CellAt(cells, v).vec, slot) == SlotAt(keys, region, arity, v, slot))
    && (forall v :: v in cells <==> exists i :: 0 <= i < |keys| && At(keys[i], region, arity, v))
  }

  ghost function Trigs(cells: map<Vec, Cell>): map<Vec, nat> {
    map v | v in cells :: cells[v].trig
  }

  ghost function SlotCounts(cells: map<Vec, Cell>, slot: int): map<Vec, nat> {
    map v | v in cells :: Count(cells[v].vec, slot)
  }

  method AddVec(into: map<int, nat>, vec: map<int, nat>) returns (sum: map<int, nat>)
    ensures forall slot :: Count(sum, slot) == Count(into, slot) + Count(vec, slot)
  {
    sum := into;
    var left := vec.Keys;
    while left != {}
      invariant left <= vec.Keys
      invariant forall slot ::
        Count(sum, slot) == if slot in left then Count(into, slot) else Count(into, slot) + Count(vec, slot)
      decreases |left|
    {
      var slot := AnyOf(left);
      sum := sum[slot := Count(sum, slot) + vec[slot]];
      left := left - {slot};
    }
  }

  lemma SnocFront(keys: seq<KeyRec>, k: KeyRec)
    ensures (keys + [k])[..|keys + [k]| - 1] == keys && (keys + [k])[|keys|] == k
  {
  }

  lemma GatherOne(cells: map<Vec, Cell>, keys: seq<KeyRec>, k: KeyRec, region: string, arity: nat, vec: map<int, nat>)
    requires Gathers(cells, keys, region, arity) && Placed(k, region, arity)
    requires forall slot :: Count(vec, slot) == Count(CellAt(cells, PointOf(k)).vec, slot) + Count(k.vec, slot)
    ensures Gathers(cells[PointOf(k) := Cell(vec, CellAt(cells, PointOf(k)).trig + k.count)], keys + [k], region, arity)
  {
    hide Placed, PointOf;
    var keys', p := keys + [k], PointOf(k);
    var cells' := cells[p := Cell(vec, CellAt(cells, p).trig + k.count)];
    SnocFront(keys, k);
    forall v ensures v in cells' <==> exists i :: 0 <= i < |keys'| && At(keys'[i], region, arity, v) {
      AtSnoc(keys, k, region, arity, v);
    }
    forall v ensures CellAt(cells', v).trig == TriggersAt(keys', region, arity, v) {
      assert CellAt(cells, v).trig == TriggersAt(keys, region, arity, v);
    }
    forall v, slot ensures Count(CellAt(cells', v).vec, slot) == SlotAt(keys', region, arity, v, slot) {
      assert Count(CellAt(cells, v).vec, slot) == SlotAt(keys, region, arity, v, slot);
    }
  }

  lemma AtSnoc(keys: seq<KeyRec>, k: KeyRec, region: string, arity: nat, v: Vec)
    ensures (exists i :: 0 <= i < |keys + [k]| && At((keys + [k])[i], region, arity, v))
       <==> (exists i :: 0 <= i < |keys| && At(keys[i], region, arity, v)) || At(k, region, arity, v)
  {
    hide At;
    var keys' := keys + [k];
    if i :| 0 <= i < |keys| && At(keys[i], region, arity, v) {
      assert keys'[i] == keys[i];
    }
    assert keys'[|keys|] == k;
  }

  lemma GatherNone(cells: map<Vec, Cell>, keys: seq<KeyRec>, k: KeyRec, region: string, arity: nat)
    requires Gathers(cells, keys, region, arity) && !Placed(k, region, arity)
    ensures Gathers(cells, keys + [k], region, arity)
  {
    hide Placed, PointOf;
    var keys' := keys + [k];
    SnocFront(keys, k);
    forall v ensures v in cells <==> exists i :: 0 <= i < |keys'| && At(keys'[i], region, arity, v) {
      AtSnoc(keys, k, region, arity, v);
    }
  }

  method PerState(keys: seq<KeyRec>, region: string)
    returns (cells: map<Vec, Cell>, names: seq<string>, dropped: nat)
    ensures names == Names(keys, region)
    ensures Gathers(cells, keys, region, |names|)
    ensures dropped + SumMap(Trigs(cells)) == Calls(keys, region)
    ensures forall slot :: SumMap(SlotCounts(cells, slot)) == PlacedSlot(keys, region, |names|, slot)
  {
    hide SumMap, Mine, PointOf, Gathers, Conserved;
    names := FindNames(keys, region);
    cells, dropped := map[], 0;
    var i := 0;
    NothingGathered(region, |names|);
    while i < |keys|
      invariant i <= |keys|
      invariant Gathers(cells, keys[..i], region, |names|)
      invariant Conserved(cells, dropped, keys[..i], region, |names|)
    {
      assert keys[..i + 1] == keys[..i] + [keys[i]];
      var k := keys[i];
      if Mine(k, region) && (k.overflow || |k.states| != |names|) {
        dropped := dropped + k.count;
        DropKeeps(cells, dropped - k.count, keys[..i], k, region, |names|);
        GatherNone(cells, keys[..i], k, region, |names|);
      } else if Mine(k, region) {
        var v := PointOf(k);
        var cell := CellAt(cells, v);
        var vec := AddVec(cell.vec, k.vec);
        PlaceKeeps(cells, dropped, keys[..i], k, region, |names|, vec);
        GatherOne(cells, keys[..i], k, region, |names|, vec);
        cells := cells[v := Cell(vec, cell.trig + k.count)];
      } else {
        OtherKeeps(cells, dropped, keys[..i], k, region, |names|);
        GatherNone(cells, keys[..i], k, region, |names|);
      }
      i := i + 1;
    }
    assert keys[..i] == keys;
    ConservedSays(cells, dropped, keys, region, |names|);
  }

  lemma ConservedSays(cells: map<Vec, Cell>, dropped: nat, keys: seq<KeyRec>, region: string, arity: nat)
    requires Conserved(cells, dropped, keys, region, arity)
    ensures dropped + SumMap(Trigs(cells)) == Calls(keys, region)
    ensures forall slot :: SumMap(SlotCounts(cells, slot)) == PlacedSlot(keys, region, arity, slot)
  {
  }

  lemma NothingGathered(region: string, arity: nat)
    ensures Gathers(map[], [], region, arity) && Conserved(map[], 0, [], region, arity)
  {
    var none: map<Vec, Cell> := map[];
    assert Trigs(none).Keys == {};
    assert forall slot :: SlotCounts(none, slot).Keys == {};
  }

  method FindNames(keys: seq<KeyRec>, region: string) returns (names: seq<string>)
    ensures names == Names(keys, region)
  {
    var i := 0;
    while i < |keys|
      invariant i <= |keys| && Names(keys, region) == Names(keys[i..], region)
    {
      if Mine(keys[i], region) && keys[i].states != [] && !keys[i].overflow {
        return NamesOf(keys[i]);
      }
      i := i + 1;
    }
    names := [];
  }

  // ---------------------------------------------------------------- nothing is lost

  ghost predicate Conserved(cells: map<Vec, Cell>, dropped: nat, keys: seq<KeyRec>, region: string, arity: nat) {
    && dropped + SumMap(Trigs(cells)) == Calls(keys, region)
    && forall slot :: SumMap(SlotCounts(cells, slot)) == PlacedSlot(keys, region, arity, slot)
  }

  lemma DropKeeps(cells: map<Vec, Cell>, dropped: nat, keys: seq<KeyRec>, k: KeyRec, region: string, arity: nat)
    requires Conserved(cells, dropped, keys, region, arity) && Mine(k, region) && !Placed(k, region, arity)
    ensures Conserved(cells, dropped + k.count, keys + [k], region, arity)
  {
    hide SumMap, Mine, Placed, Trigs, SlotCounts;
    SnocFront(keys, k);
  }

  lemma OtherKeeps(cells: map<Vec, Cell>, dropped: nat, keys: seq<KeyRec>, k: KeyRec, region: string, arity: nat)
    requires Conserved(cells, dropped, keys, region, arity) && !Mine(k, region)
    ensures Conserved(cells, dropped, keys + [k], region, arity)
  {
    hide SumMap, Mine, Trigs, SlotCounts;
    SnocFront(keys, k);
  }

  lemma TrigsPut(cells: map<Vec, Cell>, p: Vec, cell: Cell)
    ensures Trigs(cells[p := cell]) == Trigs(cells)[p := cell.trig]
    ensures forall slot :: SlotCounts(cells[p := cell], slot) == SlotCounts(cells, slot)[p := Count(cell.vec, slot)]
  {
  }

  /** One point's triggers and counts grow, and so do the sums. */
  lemma SumsPut(cells: map<Vec, Cell>, p: Vec, vec: map<int, nat>, more: map<int, nat>, count: nat)
    requires forall slot :: Count(vec, slot) == Count(CellAt(cells, p).vec, slot) + Count(more, slot)
    ensures var cells' := cells[p := Cell(vec, CellAt(cells, p).trig + count)];
            && SumMap(Trigs(cells')) == SumMap(Trigs(cells)) + count
            && forall slot :: SumMap(SlotCounts(cells', slot)) == SumMap(SlotCounts(cells, slot)) + Count(more, slot)
  {
    hide SumMap;
    var cell := Cell(vec, CellAt(cells, p).trig + count);
    TrigsPut(cells, p, cell);
    SumMapPut(Trigs(cells), p, cell.trig);
    forall slot
      ensures SumMap(SlotCounts(cells[p := cell], slot)) == SumMap(SlotCounts(cells, slot)) + Count(more, slot)
    {
      SumMapPut(SlotCounts(cells, slot), p, Count(vec, slot));
    }
  }

  lemma PlaceKeeps(cells: map<Vec, Cell>, dropped: nat, keys: seq<KeyRec>, k: KeyRec, region: string, arity: nat,
                   vec: map<int, nat>)
    requires Conserved(cells, dropped, keys, region, arity) && Placed(k, region, arity)
    requires forall slot :: Count(vec, slot) == Count(CellAt(cells, PointOf(k)).vec, slot) + Count(k.vec, slot)
    ensures var cell := Cell(vec, CellAt(cells, PointOf(k)).trig + k.count);
            Conserved(cells[PointOf(k) := cell], dropped, keys + [k], region, arity)
  {
    hide SumMap, PointOf, Trigs, SlotCounts, CellAt;
    SnocFront(keys, k);
    SumsPut(cells, PointOf(k), vec, k.vec, k.count);
  }

  // ---------------------------------------------------------------- per trigger

  function Scaled(vec: map<int, nat>, n: nat): map<int, real>
    requires n > 0
  {
    map slot | slot in vec :: vec[slot] as real / n as real
  }

  /** `vec` times the number of calls is the summed counts. */
  ghost predicate IsPerCall(vec: map<int, real>, n: nat, counts: map<int, nat>) {
    forall slot :: Get(vec, slot) * n as real == Count(counts, slot) as real
  }

  /** Counts per trigger, and triggers, at each point. */
  method PerTrigger(cells: map<Vec, Cell>) returns (vecs: map<Vec, map<int, real>>, trig: map<Vec, nat>)
    requires forall v :: v in cells ==> cells[v].trig > 0
    ensures vecs.Keys == trig.Keys == cells.Keys
    ensures forall v :: v in cells ==> trig[v] == cells[v].trig && vecs[v].Keys == cells[v].vec.Keys
    ensures forall v :: v in cells ==> IsPerCall(vecs[v], trig[v], cells[v].vec)
  {
    hide Divides, Scaled, IsPerCall;
    vecs, trig := map[], map[];
    var left := cells.Keys;
    NothingDivided(cells);
    while left != {}
      invariant left <= cells.Keys
      invariant Divides(vecs, trig, cells, left)
      decreases |left|
    {
      var v := AnyOf(left);
      DivideOne(vecs, trig, cells, left, v);
      vecs := vecs[v := Scaled(cells[v].vec, cells[v].trig)];
      trig := trig[v := cells[v].trig];
      left := left - {v};
    }
    AllDivided(vecs, trig, cells);
  }

  /** All points but those in `left` are divided. */
  ghost predicate Divides(vecs: map<Vec, map<int, real>>, trig: map<Vec, nat>, cells: map<Vec, Cell>, left: set<Vec>) {
    && left <= cells.Keys && vecs.Keys == trig.Keys == cells.Keys - left
    && forall v :: v in vecs ==> 0 < cells[v].trig == trig[v] && vecs[v] == Scaled(cells[v].vec, cells[v].trig)
  }

  lemma NothingDivided(cells: map<Vec, Cell>)
    ensures Divides(map[], map[], cells, cells.Keys)
  {
  }

  lemma DivideOne(vecs: map<Vec, map<int, real>>, trig: map<Vec, nat>, cells: map<Vec, Cell>, left: set<Vec>, v: Vec)
    requires Divides(vecs, trig, cells, left) && v in left && cells[v].trig > 0
    ensures Divides(vecs[v := Scaled(cells[v].vec, cells[v].trig)], trig[v := cells[v].trig], cells, left - {v})
  {
    hide Scaled;
  }

  lemma AllDivided(vecs: map<Vec, map<int, real>>, trig: map<Vec, nat>, cells: map<Vec, Cell>)
    requires Divides(vecs, trig, cells, {})
    ensures vecs.Keys == trig.Keys == cells.Keys
    ensures forall v :: v in cells ==> trig[v] == cells[v].trig && vecs[v].Keys == cells[v].vec.Keys
    ensures forall v :: v in cells ==> IsPerCall(vecs[v], trig[v], cells[v].vec)
  {
    hide Scaled, Get, Count;
    forall v | v in cells ensures IsPerCall(vecs[v], trig[v], cells[v].vec) {
      forall slot ensures Get(vecs[v], slot) * trig[v] as real == Count(cells[v].vec, slot) as real {
        ScaledBack(cells[v].vec, trig[v], slot);
      }
    }
    forall v | v in cells ensures vecs[v].Keys == cells[v].vec.Keys {
      ScaledKeys(cells[v].vec, cells[v].trig);
    }
  }

  lemma ScaledKeys(vec: map<int, nat>, n: nat)
    requires n > 0
    ensures Scaled(vec, n).Keys == vec.Keys
  {
  }

  lemma ScaledBack(vec: map<int, nat>, n: nat, slot: int)
    requires n > 0
    ensures Get(Scaled(vec, n), slot) * n as real == Count(vec, slot) as real
  {
    if slot in vec {
      TimesBack(vec[slot] as real, n as real);
    }
  }

  lemma TimesBack(x: real, n: real)
    requires n > 0.0
    ensures x / n * n == x
  {
  }

  /** Every gathered point has been triggered, so dividing by its triggers is safe. */
  lemma GatheredIsTriggered(cells: map<Vec, Cell>, keys: seq<KeyRec>, region: string, arity: nat, v: Vec)
    requires Gathers(cells, keys, region, arity) && v in cells
    ensures cells[v].trig > 0
  {
    var i :| 0 <= i < |keys| && At(keys[i], region, arity, v);
    OneTriggers(keys, region, arity, v, i);
  }

  lemma {:induction false} OneTriggers(keys: seq<KeyRec>, region: string, arity: nat, v: Vec, i: nat)
    requires i < |keys| && At(keys[i], region, arity, v)
    ensures TriggersAt(keys, region, arity, v) > 0
  {
    hide PointOf;
    var m := |keys| - 1;
    if i < m {
      OneTriggers(keys[..m], region, arity, v, i);
    }
  }
}
