/**
 What a row of features is, said of the records themselves: which records have rows, and what each
 column counts, sums or remembers.
 */
module FeatureLaws {
  import opened Options
  import opened Features

  /** The record declares an integer in `u`. */
  predicate Has(r: Rec, u: string) {
    u in r.state && r.state[u].Num?
  }

  // ---------------------------------------------------------------- the columns

  /** Records of the region that began before `b`, by position. */
  function Begun(recs: seq<Rec>, region: string, b: int): set<nat> {
    set i: nat | i < |recs| && recs[i].region == region && recs[i].sq < b
  }

  function Ended(recs: seq<Rec>, region: string, b: int): set<nat> {
    set i: nat | i < |recs| && recs[i].region == region && recs[i].sqEnd < b
  }

  /** The integers declared in `u`, summed over records picked by position. */
  function SumAt(recs: seq<Rec>, u: string, picked: set<nat>): int {
    if recs == [] then 0 else
      var m := |recs| - 1;
      SumAt(recs[..m], u, picked) + if m in picked && Has(recs[m], u) then recs[m].state[u].n else 0
  }

  lemma {:induction false} SameSum(recs: seq<Rec>, u: string, p: set<nat>, q: set<nat>)
    requires forall i: nat :: i < |recs| ==> (i in p <==> i in q)
    ensures SumAt(recs, u, p) == SumAt(recs, u, q)
  {
    if recs != [] {
      SameSum(recs[..|recs| - 1], u, p, q);
    }
  }

  lemma {:induction false} CountIs(recs: seq<Rec>, region: string, b: int)
    ensures Count(recs, region, b) == |Begun(recs, region, b)|
  {
    if recs == [] {
      assert Begun(recs, region, b) == {};
    } else {
      var m := |recs| - 1;
      CountIs(recs[..m], region, b);
      var before := Begun(recs[..m], region, b);
      if recs[m].region == region && recs[m].sq < b {
        assert Begun(recs, region, b) == before + {m};
      } else {
        assert Begun(recs, region, b) == before;
      }
    }
  }

  lemma {:induction false} CumIs(recs: seq<Rec>, region: string, u: string, b: int)
    ensures Cum(recs, region, u, b) == SumAt(recs, u, Begun(recs, region, b))
  {
    if recs != [] {
      var m := |recs| - 1;
      CumIs(recs[..m], region, u, b);
      SameSum(recs[..m], u, Begun(recs, region, b), Begun(recs[..m], region, b));
    }
  }

  lemma {:induction false} CumEndIs(recs: seq<Rec>, region: string, u: string, b: int)
    ensures CumEnd(recs, region, u, b) == SumAt(recs, u, Ended(recs, region, b))
  {
    if recs != [] {
      var m := |recs| - 1;
      CumEndIs(recs[..m], region, u, b);
      SameSum(recs[..m], u, Ended(recs, region, b), Ended(recs[..m], region, b));
    }
  }

  /** `x` was declared last: by the begun record with the largest begin number that has an integer; 0 if none has. */
  predicate IsLast(recs: seq<Rec>, region: string, u: string, b: int, x: int) {
    || (x == 0 && forall i :: i in Begun(recs, region, b) ==> !Has(recs[i], u))
    || exists i :: i in Begun(recs, region, b) && Has(recs[i], u) && recs[i].state[u].n == x
                   && forall j :: j in Begun(recs, region, b) && Has(recs[j], u) ==> recs[j].sq <= recs[i].sq
  }

  lemma LastIs(recs: seq<Rec>, region: string, u: string, b: int)
    ensures IsLast(recs, region, u, b, Last(recs, region, u, b))
  {
    match LatestAt(recs, region, u, b)
    case Some(i) => assert i in Begun(recs, region, b);
    case None =>
  }

  /** What a column says of the records at a trigger that begins at `b`. */
  predicate Says(c: Column, recs: seq<Rec>, b: int, x: int) {
    match c
    case CountOf(region) => x == |Begun(recs, region, b)|
    case CumOf(region, u) => x == SumAt(recs, u, Begun(recs, region, b))
    case CumEndOf(region, u) => x == SumAt(recs, u, Ended(recs, region, b))
    case LastOf(region, u) => IsLast(recs, region, u, b, x)
  }

  lemma FeatureSays(c: Column, recs: seq<Rec>, b: int)
    ensures Says(c, recs, b, Feature(c, recs, b))
  {
    hide Count, Cum, CumEnd, Last, IsLast, Begun, Ended;
    match c
    case CountOf(region) => CountIs(recs, region, b);
    case CumOf(region, u) => CumIs(recs, region, u, b);
    case CumEndOf(region, u) => CumEndIs(recs, region, u, b);
    case LastOf(region, u) => LastIs(recs, region, u, b);
  }

  // ---------------------------------------------------------------- which columns there are

  /** How many columns the first regions take. */
  function Width(layout: Layout): nat {
    if layout == [] then 0 else Width(layout[..|layout| - 1]) + 1 + 3 * |layout[|layout| - 1].1|
  }

  lemma {:induction false} FieldColumnsAt(region: string, fields: seq<string>)
    ensures var cs := FieldColumns(region, fields);
            && |cs| == 3 * |fields|
            && forall i :: 0 <= i < |fields| ==>
                 && cs[3 * i] == CumOf(region, fields[i])
                 && cs[3 * i + 1] == CumEndOf(region, fields[i])
                 && cs[3 * i + 2] == LastOf(region, fields[i])
  {
    if fields != [] {
      FieldColumnsAt(region, fields[..|fields| - 1]);
    }
  }

  /** A region's columns: its count, and after it three for each field. */
  ghost predicate ColumnsOf(cs: seq<Column>, at: nat, region: string, fields: seq<string>) {
    && at + 1 + 3 * |fields| <= |cs|
    && cs[at] == CountOf(region)
    && forall i :: 0 <= i < |fields| ==>
         && cs[at + 1 + 3 * i] == CumOf(region, fields[i])
         && cs[at + 2 + 3 * i] == CumEndOf(region, fields[i])
         && cs[at + 3 + 3 * i] == LastOf(region, fields[i])
  }

  lemma ColumnsGrow(cs: seq<Column>, region: string, fields: seq<string>)
    ensures ColumnsOf(cs + [CountOf(region)] + FieldColumns(region, fields), |cs|, region, fields)
  {
    FieldColumnsAt(region, fields);
    var more := FieldColumns(region, fields);
    var all := cs + [CountOf(region)] + more;
    forall i | 0 <= i < |fields|
      ensures all[|cs| + 1 + 3 * i] == CumOf(region, fields[i])
      ensures all[|cs| + 2 + 3 * i] == CumEndOf(region, fields[i])
      ensures all[|cs| + 3 + 3 * i] == LastOf(region, fields[i])
    {
      assert all[|cs| + 1 + 3 * i] == more[3 * i];
      assert all[|cs| + 1 + (3 * i + 1)] == more[3 * i + 1];
      assert all[|cs| + 1 + (3 * i + 2)] == more[3 * i + 2];
    }
  }

  lemma ColumnsStay(cs: seq<Column>, more: seq<Column>, at: nat, region: string, fields: seq<string>)
    requires ColumnsOf(cs, at, region, fields)
    ensures ColumnsOf(cs + more, at, region, fields)
  {
  }

  /** The columns are those of the regions in order, and no others. */
  lemma {:induction false} ColumnsAre(layout: Layout)
    ensures |Columns(layout)| == Width(layout)
    ensures forall m :: 0 <= m < |layout| ==>
              ColumnsOf(Columns(layout), Width(layout[..m]), layout[m].0, layout[m].1)
  {
    hide FieldColumns, ColumnsOf;
    if layout != [] {
      var n := |layout| - 1;
      var (region, fields) := layout[n];
      var front := Columns(layout[..n]);
      ColumnsAre(layout[..n]);
      FieldColumnsAt(region, fields);
      ColumnsGrow(front, region, fields);
      forall m | 0 <= m < n ensures ColumnsOf(Columns(layout), Width(layout[..m]), layout[m].0, layout[m].1) {
        assert layout[..n][..m] == layout[..m] && layout[..n][m] == layout[m];
        ColumnsStay(front, [CountOf(region)] + FieldColumns(region, fields), Width(layout[..m]),
                    layout[m].0, layout[m].1);
        assert front + [CountOf(region)] + FieldColumns(region, fields)
            == front + ([CountOf(region)] + FieldColumns(region, fields));
      }
    }
  }

  // ---------------------------------------------------------------- which records have rows

  /** `ps` are the positions of the target's records with an integer in the field, in order. */
  predicate TargetsAt(recs: seq<Rec>, target: string, field: string, ps: seq<nat>) {
    && (forall q :: 0 <= q < |ps| ==> ps[q] < |recs|)
    && (forall p, q :: 0 <= p < q < |ps| ==> ps[p] < ps[q])
    && (forall i :: 0 <= i < |recs| ==> (i in ps <==> recs[i].region == target && Has(recs[i], field)))
  }

  /** A row: every column's value when the record began, and the record's own integer. */
  ghost predicate RowSays(row: (seq<int>, int), recs: seq<Rec>, layout: Layout, field: string, p: nat) {
    && p < |recs| && Has(recs[p], field) && row.1 == recs[p].state[field].n
    && |row.0| == |Columns(layout)|
    && forall j :: 0 <= j < |row.0| ==> Says(Columns(layout)[j], recs, recs[p].sq, row.0[j])
  }

  lemma OneRow(recs: seq<Rec>, layout: Layout, target: string, field: string, p: nat)
    requires p < |recs| && recs[p].region == target && Has(recs[p], field)
    ensures IsTarget(recs[p], target, field)
    ensures RowSays((Values(Columns(layout), recs, recs[p].sq), NumOf(recs[p], field).value), recs, layout, field, p)
  {
    hide Feature, Says, Columns;
    var cs := Columns(layout);
    forall j | 0 <= j < |cs| ensures Says(cs[j], recs, recs[p].sq, Feature(cs[j], recs, recs[p].sq)) {
      FeatureSays(cs[j], recs, recs[p].sq);
    }
  }

  lemma TargetsGrow(recs: seq<Rec>, n: nat, target: string, field: string, ps: seq<nat>)
    requires n < |recs| && TargetsAt(recs[..n], target, field, ps)
    ensures TargetsAt(recs[..n + 1], target, field,
                      if recs[n].region == target && Has(recs[n], field) then ps + [n] else ps)
  {
  }

  /** One row for each of the target's records with an integer in the field, in order, and no other. */
  lemma {:induction false} RowsAre(recs: seq<Rec>, layout: Layout, target: string, field: string, n: nat)
    returns (ps: seq<nat>)
    requires n <= |recs|
    ensures TargetsAt(recs[..n], target, field, ps)
    ensures var rows := Rows(recs, layout, target, field, n);
            |rows| == |ps| && forall q :: 0 <= q < |ps| ==> RowSays(rows[q], recs, layout, field, ps[q])
    decreases n
  {
    hide Values, Columns, NumOf, RowSays, TargetsAt;
    if n == 0 {
      ps := [];
      NoTargets(target, field);
    } else {
      ps := RowsAre(recs, layout, target, field, n - 1);
      TargetsGrow(recs, n - 1, target, field, ps);
      TargetIff(recs[n - 1], target, field);
      if recs[n - 1].region == target && Has(recs[n - 1], field) {
        OneRow(recs, layout, target, field, n - 1);
        ps := ps + [n - 1];
      }
    }
  }

  lemma TargetIff(r: Rec, target: string, field: string)
    ensures IsTarget(r, target, field) <==> r.region == target && Has(r, field)
  {
  }

  lemma NoTargets(target: string, field: string)
    ensures TargetsAt([], target, field, [])
  {
  }
}
