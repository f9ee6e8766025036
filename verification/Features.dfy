/**
 Relation learning, first half: at every trigger of a region, the running features of all
 regions' states, computed in one sweep over the trace.
 */
module Features {
  import opened Dictionaries
  import opened Options

  /** A declared state's value: an integer, or something that is not a number. */
  datatype Value = Num(n: int) | NotNum

  datatype Rec = Rec(sq: int, sqEnd: int, region: string, state: map<string, Value>)

  /** The integer value of field `u`, if it has one. */
  function NumOf(r: Rec, u: string): Option<int> {
    if u in r.state && r.state[u].Num? then Some(r.state[u].n) else None
  }

  function NumOr0(r: Rec, u: string): int {
    match NumOf(r, u)
    case Some(x) => x
    case None => 0
  }

  // ---------------------------------------------------------------- the features, as sets of triggers say them

  predicate BegunBefore(r: Rec, region: string, b: int) { r.region == region && r.sq < b }

  predicate EndedBefore(r: Rec, region: string, b: int) { r.region == region && r.sqEnd < b }

  /** How many triggers of the region began before `b`. */
  function Count(recs: seq<Rec>, region: string, b: int): nat {
    if recs == [] then 0 else
      var m := |recs| - 1;
      Count(recs[..m], region, b) + if BegunBefore(recs[m], region, b) then 1 else 0
  }

  /** The sum of `u` over the triggers that began before `b`. */
  function Cum(recs: seq<Rec>, region: string, u: string, b: int): int {
    if recs == [] then 0 else
      var m := |recs| - 1;
      Cum(recs[..m], region, u, b) + if BegunBefore(recs[m], region, b) then NumOr0(recs[m], u) else 0
  }

  /** The sum of `u` over the triggers that ended before `b`. */
  function CumEnd(recs: seq<Rec>, region: string, u: string, b: int): int {
    if recs == [] then 0 else
      var m := |recs| - 1;
      CumEnd(recs[..m], region, u, b) + if EndedBefore(recs[m], region, b) then NumOr0(recs[m], u) else 0
  }

  /** The position of the trigger with the largest begin number below `b` that has a number in `u`. */
  function LatestAt(recs: seq<Rec>, region: string, u: string, b: int): (at: Option<nat>)
    ensures at.Some? ==> at.value < |recs| && BegunBefore(recs[at.value], region, b) && NumOf(recs[at.value], u).Some?
    ensures forall i :: 0 <= i < |recs| && BegunBefore(recs[i], region, b) && NumOf(recs[i], u).Some? ==>
              at.Some? && recs[i].sq <= recs[at.value].sq
  {
    if recs == [] then None else
      var m := |recs| - 1;
      var at := LatestAt(recs[..m], region, u, b);
      if BegunBefore(recs[m], region, b) && NumOf(recs[m], u).Some? && (at == None || recs[at.value].sq <= recs[m].sq)
      then Some(m) else at
  }

  function Last(recs: seq<Rec>, region: string, u: string, b: int): int {
    match LatestAt(recs, region, u, b)
    case Some(i) => NumOr0(recs[i], u)
    case None => 0
  }

  datatype Column = CountOf(region: string) | CumOf(region: string, u: string)
                  | CumEndOf(region: string, u: string) | LastOf(region: string, u: string)

  function Feature(c: Column, recs: seq<Rec>, b: int): int {
    match c
    case CountOf(region) => Count(recs, region, b)
    case CumOf(region, u) => Cum(recs, region, u, b)
    case CumEndOf(region, u) => CumEnd(recs, region, u, b)
    case LastOf(region, u) => Last(recs, region, u, b)
  }

  /** The regions looked at and, for each, its numeric fields. */
  type Layout = seq<(string, seq<string>)>

  function FieldColumns(region: string, fields: seq<string>): seq<Column> {
    if fields == [] then [] else
      var m := |fields| - 1;
      FieldColumns(region, fields[..m])
      + [CumOf(region, fields[m]), CumEndOf(region, fields[m]), LastOf(region, fields[m])]
  }

  function Columns(layout: Layout): seq<Column> {
    if layout == [] then [] else
      var m := |layout| - 1;
      Columns(layout[..m]) + [CountOf(layout[m].0)] + FieldColumns(layout[m].0, layout[m].1)
  }

  function Values(cs: seq<Column>, recs: seq<Rec>, b: int): (f: seq<int>)
    ensures |f| == |cs|
    ensures forall j :: 0 <= j < |cs| ==> f[j] == Feature(cs[j], recs, b)
  {
    seq(|cs|, j requires 0 <= j < |cs| => Feature(cs[j], recs, b))
  }

  predicate IsTarget(r: Rec, target: string, field: string) {
    r.region == target && NumOf(r, field).Some?
  }

  /** One row for each target trigger among the first `n` records: its features, and its state. */
  function Rows(recs: seq<Rec>, layout: Layout, target: string, field: string, n: nat): seq<(seq<int>, int)>
    requires n <= |recs|
  {
    if n == 0 then []
    else
      var r := recs[n - 1];
      Rows(recs, layout, target, field, n - 1) +
      if IsTarget(r, target, field) then [(Values(Columns(layout), recs, r.sq), NumOf(r, field).value)] else []
  }

  // ---------------------------------------------------------------- the sweep's dictionaries

  type Key = (string, string)

  function Get<K(==)>(m: map<K, int>, k: K): int {
    if k in m then m[k] else 0
  }

  /** Plain sums over a list, in any order of its records. */
  function SumOf(recs: seq<Rec>, region: string, u: string): int {
    if recs == [] then 0 else
      var m := |recs| - 1;
      SumOf(recs[..m], region, u) + if recs[m].region == region then NumOr0(recs[m], u) else 0
  }

  function NumberOf(recs: seq<Rec>, region: string): nat {
    if recs == [] then 0 else
      var m := |recs| - 1;
      NumberOf(recs[..m], region) + if recs[m].region == region then 1 else 0
  }

  function LatestOf(recs: seq<Rec>, region: string, u: string): int {
    if recs == [] then 0 else
      var m := |recs| - 1;
      if recs[m].region == region && NumOf(recs[m], u).Some? then NumOf(recs[m], u).value
      else LatestOf(recs[..m], region, u)
  }

  /** The largest begin number among the first records, up to and including the `n`th. */
  function Reach(recs: seq<Rec>, n: nat): int
    requires n < |recs|
    decreases n
  {
    if n == 0 then recs[0].sq
    else if recs[n].sq > Reach(recs, n - 1) then recs[n].sq else Reach(recs, n - 1)
  }

  /** A column's value at the `n`th record, whatever the order of the records. */
  function SweepFeature(c: Column, recs: seq<Rec>, n: nat): int
    requires n < |recs|
  {
    match c
    case CountOf(region) => NumberOf(recs[..n], region)
    case CumOf(region, u) => SumOf(recs[..n], region, u)
    case CumEndOf(region, u) => CumEnd(recs, region, u, Reach(recs, n))
    case LastOf(region, u) => LatestOf(recs[..n], region, u)
  }

  function SweepValues(cs: seq<Column>, recs: seq<Rec>, n: nat): (f: seq<int>)
    requires n < |recs|
    ensures |f| == |cs|
    ensures forall j :: 0 <= j < |cs| ==> f[j] == SweepFeature(cs[j], recs, n)
  {
    seq(|cs|, j requires 0 <= j < |cs| => SweepFeature(cs[j], recs, n))
  }

  /** The rows of the target triggers among the first `n` records. */
  function SweepRows(recs: seq<Rec>, layout: Layout, target: string, field: string, n: nat): seq<(seq<int>, int)>
    requires n <= |recs|
  {
    if n == 0 then []
    else
      var r := recs[n - 1];
      SweepRows(recs, layout, target, field, n - 1) +
      if IsTarget(r, target, field)
      then [(SweepValues(Columns(layout), recs, n - 1), NumOf(r, field).value)] else []
  }

  ghost predicate HoldsSums(m: map<Key, int>, recs: seq<Rec>) {
    forall region, u :: Get(m, (region, u)) == SumOf(recs, region, u)
  }

  ghost predicate HoldsLatest(m: map<Key, int>, recs: seq<Rec>) {
    forall region, u :: Get(m, (region, u)) == LatestOf(recs, region, u)
  }

  ghost predicate HoldsCounts(m: map<string, int>, recs: seq<Rec>) {
    forall region :: Get(m, region) == NumberOf(recs, region)
  }

  lemma SumOfSnoc(recs: seq<Rec>, r: Rec, region: string, u: string)
    ensures SumOf(recs + [r], region, u) == SumOf(recs, region, u) + if r.region == region then NumOr0(r, u) else 0
    ensures NumberOf(recs + [r], region) == NumberOf(recs, region) + if r.region == region then 1 else 0
    ensures LatestOf(recs + [r], region, u) ==
            if r.region == region && NumOf(r, u).Some? then NumOf(r, u).value else LatestOf(recs, region, u)
  {
    assert (recs + [r])[..|recs|] == recs;
  }

  /** A record's numbers are added to its region's sums. */
  method AddNumbers(m0: map<Key, int>, r: Rec, ghost recs: seq<Rec>) returns (m: map<Key, int>)
    requires HoldsSums(m0, recs)
    ensures HoldsSums(m, recs + [r])
  {
    hide SumOf, HoldsSums;
    m := m0;
    var left := r.state.Keys;
    while left != {}
      invariant left <= r.state.Keys
      invariant forall k ::
        Get(m, k) == if k.0 == r.region && k.1 !in left then Get(m0, k) + NumOr0(r, k.1) else Get(m0, k)
      decreases |left|
    {
      var u := AnyOf(left);
      if r.state[u].Num? {
        m := m[(r.region, u) := Get(m, (r.region, u)) + r.state[u].n];
      }
      left := left - {u};
    }
    SumsGrow(m0, m, r, recs);
  }

  lemma SumsGrow(m0: map<Key, int>, m: map<Key, int>, r: Rec, recs: seq<Rec>)
    requires HoldsSums(m0, recs)
    requires forall k :: Get(m, k) == if k.0 == r.region then Get(m0, k) + NumOr0(r, k.1) else Get(m0, k)
    ensures HoldsSums(m, recs + [r])
  {
    hide SumOf, NumOr0;
    forall region, u ensures Get(m, (region, u)) == SumOf(recs + [r], region, u) {
      SumOfSnoc(recs, r, region, u);
    }
  }

  method SetLatest(m0: map<Key, int>, r: Rec, ghost recs: seq<Rec>) returns (m: map<Key, int>)
    requires HoldsLatest(m0, recs)
    ensures HoldsLatest(m, recs + [r])
  {
    hide LatestOf, HoldsLatest;
    m := m0;
    var left := r.state.Keys;
    while left != {}
      invariant left <= r.state.Keys
      invariant forall k ::
        Get(m, k) == if k.0 == r.region && k.1 !in left && NumOf(r, k.1).Some? then NumOf(r, k.1).value else Get(m0, k)
      decreases |left|
    {
      var u := AnyOf(left);
      if r.state[u].Num? {
        m := m[(r.region, u) := r.state[u].n];
      }
      left := left - {u};
    }
    LatestGrows(m0, m, r, recs);
  }

  lemma LatestGrows(m0: map<Key, int>, m: map<Key, int>, r: Rec, recs: seq<Rec>)
    requires HoldsLatest(m0, recs)
    requires forall k :: Get(m, k) == if k.0 == r.region && NumOf(r, k.1).Some? then NumOf(r, k.1).value else Get(m0, k)
    ensures HoldsLatest(m, recs + [r])
  {
    hide LatestOf, NumOf;
    forall region, u ensures Get(m, (region, u)) == LatestOf(recs + [r], region, u) {
      SumOfSnoc(recs, r, region, u);
    }
  }

  // ---------------------------------------------------------------- records by end number

  predicate ByEnd(recs: seq<Rec>) {
    forall i, j :: 0 <= i < j < |recs| ==> recs[i].sqEnd <= recs[j].sqEnd
  }

  function InsertByEnd(recs: seq<Rec>, r: Rec): (s: seq<Rec>)
    requires ByEnd(recs)
    ensures ByEnd(s) && |s| == |recs| + 1
    ensures multiset(s) == multiset(recs) + multiset{r}
  {
    if recs == [] || recs[|recs| - 1].sqEnd <= r.sqEnd then recs + [r]
    else
      var m := |recs| - 1;
      var front := InsertByEnd(recs[..m], r);
      assert recs == recs[..m] + [recs[m]];
      FrontEndsFirst(recs, r, front);
      front + [recs[m]]
  }

  lemma FrontEndsFirst(recs: seq<Rec>, r: Rec, front: seq<Rec>)
    requires recs != [] && ByEnd(recs) && r.sqEnd < recs[|recs| - 1].sqEnd
    requires multiset(front) == multiset(recs[..|recs| - 1]) + multiset{r}
    ensures forall i :: 0 <= i < |front| ==> front[i].sqEnd <= recs[|recs| - 1].sqEnd
  {
    forall i | 0 <= i < |front| ensures front[i].sqEnd <= recs[|recs| - 1].sqEnd {
      assert front[i] in multiset(front);
    }
  }

  /** `sorted(recs, key=seq_end)` */
  function SortByEnd(recs: seq<Rec>): (s: seq<Rec>)
    ensures ByEnd(s) && |s| == |recs|
    ensures multiset(s) == multiset(recs)
  {
    if recs == [] then [] else
      var m := |recs| - 1;
      assert recs == recs[..m] + [recs[m]];
      InsertByEnd(SortByEnd(recs[..m]), recs[m])
  }

  lemma CumEndSnoc(recs: seq<Rec>, r: Rec, region: string, u: string, b: int)
    ensures CumEnd(recs + [r], region, u, b) ==
            CumEnd(recs, region, u, b) + if EndedBefore(r, region, b) then NumOr0(r, u) else 0
  {
    assert (recs + [r])[..|recs|] == recs;
  }

  lemma {:induction false} InsertKeepsCumEnd(recs: seq<Rec>, r: Rec, region: string, u: string, b: int)
    requires ByEnd(recs)
    ensures CumEnd(InsertByEnd(recs, r), region, u, b) == CumEnd(recs + [r], region, u, b)
  {
    hide NumOr0, EndedBefore;
    CumEndSnoc(recs, r, region, u, b);
    if !(recs == [] || recs[|recs| - 1].sqEnd <= r.sqEnd) {
      var m := |recs| - 1;
      InsertKeepsCumEnd(recs[..m], r, region, u, b);
      CumEndSnoc(recs[..m], r, region, u, b);
      CumEndSnoc(InsertByEnd(recs[..m], r), recs[m], region, u, b);
    }
  }

  /** Sorting by end number does not change what ended before `b`. */
  lemma {:induction false} SortKeepsCumEnd(recs: seq<Rec>, region: string, u: string, b: int)
    ensures CumEnd(SortByEnd(recs), region, u, b) == CumEnd(recs, region, u, b)
  {
    hide NumOr0, EndedBefore;
    if recs != [] {
      var m := |recs| - 1;
      SortKeepsCumEnd(recs[..m], region, u, b);
      InsertKeepsCumEnd(SortByEnd(recs[..m]), recs[m], region, u, b);
      CumEndSnoc(SortByEnd(recs[..m]), recs[m], region, u, b);
    }
  }

  /** In a list sorted by end number, a prefix of what ended before `b` sums to all of it. */
  lemma {:induction false} PrefixEnded(ended: seq<Rec>, ei: nat, region: string, u: string, b: int)
    requires ei <= |ended|
    requires forall i :: 0 <= i < ei ==> ended[i].sqEnd < b
    requires forall i :: ei <= i < |ended| ==> ended[i].sqEnd >= b
    ensures CumEnd(ended, region, u, b) == SumOf(ended[..ei], region, u)
  {
    hide NumOr0;
    if ended != [] {
      var m := |ended| - 1;
      if ei <= m {
        PrefixEnded(ended[..m], ei, region, u, b);
        assert ended[..m][..ei] == ended[..ei];
      } else {
        PrefixEnded(ended[..m], m, region, u, b);
        assert ended[..ei] == ended && ended[..m][..m] == ended[..m];
      }
    }
  }

  // ---------------------------------------------------------------- begun before: a prefix of the records

  /** One run's records in begin order, each with its own begin number. */
  predicate InOrder(recs: seq<Rec>) {
    forall i, j :: 0 <= i < j < |recs| ==> recs[i].sq < recs[j].sq
  }

  lemma {:induction false} PrefixBegun(recs: seq<Rec>, n: nat, region: string, u: string, b: int)
    requires n <= |recs|
    requires forall i :: 0 <= i < n ==> recs[i].sq < b
    requires forall i :: n <= i < |recs| ==> recs[i].sq >= b
    ensures Count(recs, region, b) == NumberOf(recs[..n], region)
    ensures Cum(recs, region, u, b) == SumOf(recs[..n], region, u)
  {
    hide NumOr0;
    if recs != [] {
      var m := |recs| - 1;
      if n <= m {
        PrefixBegun(recs[..m], n, region, u, b);
        assert recs[..m][..n] == recs[..n];
      } else {
        PrefixBegun(recs[..m], m, region, u, b);
        assert recs[..n] == recs && recs[..m][..m] == recs[..m];
      }
    }
  }

  lemma {:induction false} PrefixLatest(recs: seq<Rec>, n: nat, region: string, u: string, b: int)
    requires n <= |recs| && InOrder(recs)
    requires forall i :: 0 <= i < n ==> recs[i].sq < b
    requires forall i :: n <= i < |recs| ==> recs[i].sq >= b
    ensures Last(recs, region, u, b) == LatestOf(recs[..n], region, u)
  {
    hide NumOf;
    if recs != [] {
      var m := |recs| - 1;
      if n <= m {
        PrefixLatest(recs[..m], n, region, u, b);
        assert recs[..m][..n] == recs[..n];
      } else {
        PrefixLatest(recs[..m], m, region, u, b);
        assert recs[..n] == recs && recs[..m][..m] == recs[..m];
      }
    }
  }

  /** The sweep's value of a column is the definition's, for one run's records in begin order. */
  lemma SweepIsFeature(c: Column, recs: seq<Rec>, n: nat)
    requires n < |recs| && InOrder(recs)
    ensures SweepFeature(c, recs, n) == Feature(c, recs, recs[n].sq)
  {
    hide SumOf, LatestOf, NumberOf, Count, Cum, CumEnd, Last;
    ReachInOrder(recs, n);
    PrefixBegun(recs, n, c.region, if c.CountOf? then "" else c.u, recs[n].sq);
    PrefixLatest(recs, n, c.region, if c.CountOf? then "" else c.u, recs[n].sq);
  }

  lemma {:induction false} ReachInOrder(recs: seq<Rec>, n: nat)
    requires n < |recs| && InOrder(recs)
    ensures Reach(recs, n) == recs[n].sq
    decreases n
  {
    if n > 0 {
      ReachInOrder(recs, n - 1);
    }
  }

  lemma {:induction false} SweepIsRows(recs: seq<Rec>, layout: Layout, target: string, field: string, n: nat)
    requires n <= |recs| && InOrder(recs)
    ensures SweepRows(recs, layout, target, field, n) == Rows(recs, layout, target, field, n)
    decreases n
  {
    hide SweepFeature, Feature, Columns, IsTarget, NumOf;
    if n > 0 {
      SweepIsRows(recs, layout, target, field, n - 1);
      var cs := Columns(layout);
      forall j | 0 <= j < |cs| ensures SweepFeature(cs[j], recs, n - 1) == Feature(cs[j], recs, recs[n - 1].sq) {
        SweepIsFeature(cs[j], recs, n - 1);
      }
      assert SweepValues(cs, recs, n - 1) == Values(cs, recs, recs[n - 1].sq);
    }
  }

  // ---------------------------------------------------------------- the sweep

  /** The first `ei` of the records by end number are those that ended before `b`. */
  predicate CutAt(ended: seq<Rec>, ei: nat, b: int)
    requires ei <= |ended|
  {
    && (forall i :: 0 <= i < ei ==> ended[i].sqEnd < b)
    && (forall i :: ei <= i < |ended| ==> ended[i].sqEnd >= b)
  }

  /** The dictionaries say exactly what the sweep's columns are at the `n`th record. */
  ghost predicate Current(cum: map<Key, int>, cumend: map<Key, int>, last: map<Key, int>, count: map<string, int>,
                          recs: seq<Rec>, n: nat)
    requires n < |recs|
  {
    && HoldsSums(cum, recs[..n]) && HoldsLatest(last, recs[..n]) && HoldsCounts(count, recs[..n])
    && (forall region, u :: Get(cumend, (region, u)) == CumEnd(recs, region, u, Reach(recs, n)))
  }

  lemma BecomesCurrent(cum: map<Key, int>, cumend: map<Key, int>, last: map<Key, int>, count: map<string, int>,
                       recs: seq<Rec>, n: nat, ei: nat)
    requires n < |recs|
    requires HoldsSums(cum, recs[..n]) && HoldsLatest(last, recs[..n]) && HoldsCounts(count, recs[..n])
    requires ei <= |recs| && HoldsSums(cumend, SortByEnd(recs)[..ei]) && CutAt(SortByEnd(recs), ei, Reach(recs, n))
    ensures Current(cum, cumend, last, count, recs, n)
  {
    hide SortByEnd, SumOf, HoldsLatest, HoldsCounts, CumEnd, Reach;
    forall region, u ensures Get(cumend, (region, u)) == CumEnd(recs, region, u, Reach(recs, n)) {
      PrefixEnded(SortByEnd(recs), ei, region, u, Reach(recs, n));
      SortKeepsCumEnd(recs, region, u, Reach(recs, n));
    }
  }

  /** The row of features, region by region and field by field. */
  method BuildRow(cum: map<Key, int>, cumend: map<Key, int>, last: map<Key, int>, count: map<string, int>,
                  layout: Layout, ghost recs: seq<Rec>, ghost n: nat)
    returns (f: seq<int>)
    requires n < |recs| && Current(cum, cumend, last, count, recs, n)
    ensures f == SweepValues(Columns(layout), recs, n)
  {
    hide SweepFeature, Current;
    f := [];
    var i := 0;
    while i < |layout|
      invariant i <= |layout| && f == SweepValues(Columns(layout[..i]), recs, n)
    {
      var (region, fields) := layout[i];
      f := f + [Get(count, region)];
      ghost var front := Columns(layout[..i]) + [CountOf(region)];
      CurrentColumns(cum, cumend, last, count, recs, n, region, "");
      assert f == SweepValues(front, recs, n);
      var j := 0;
      assert front + FieldColumns(region, fields[..0]) == front;
      while j < |fields|
        invariant j <= |fields| && f == SweepValues(front + FieldColumns(region, fields[..j]), recs, n)
      {
        var u := fields[j];
        f := f + [Get(cum, (region, u)), Get(cumend, (region, u)), Get(last, (region, u))];
        CurrentColumns(cum, cumend, last, count, recs, n, region, u);
        assert fields[..j + 1][..j] == fields[..j];
        ghost var cs := front + FieldColumns(region, fields[..j]);
        assert front + FieldColumns(region, fields[..j + 1]) ==
          cs + [CumOf(region, u), CumEndOf(region, u), LastOf(region, u)];
        j := j + 1;
      }
      assert fields[..j] == fields;
      assert layout[..i + 1][..i] == layout[..i];
      i := i + 1;
    }
    assert layout[..i] == layout;
  }

  lemma CurrentColumns(cum: map<Key, int>, cumend: map<Key, int>, last: map<Key, int>, count: map<string, int>,
                       recs: seq<Rec>, n: nat, region: string, u: string)
    requires n < |recs| && Current(cum, cumend, last, count, recs, n)
    ensures SweepFeature(CountOf(region), recs, n) == Get(count, region)
    ensures SweepFeature(CumOf(region, u), recs, n) == Get(cum, (region, u))
    ensures SweepFeature(CumEndOf(region, u), recs, n) == Get(cumend, (region, u))
    ensures SweepFeature(LastOf(region, u), recs, n) == Get(last, (region, u))
  {
    hide NumberOf, SumOf, CumEnd, LatestOf, Reach;
  }

  /** The pointer over the records by end number moves past everything that ended before `b`. */
  method CatchUp(cumend0: map<Key, int>, ended: seq<Rec>, ei0: nat, b: int) returns (cumend: map<Key, int>, ei: nat)
    requires ei0 <= |ended| && HoldsSums(cumend0, ended[..ei0])
    ensures ei0 <= ei <= |ended| && HoldsSums(cumend, ended[..ei])
    ensures forall i :: ei0 <= i < ei ==> ended[i].sqEnd < b
    ensures ei < |ended| ==> ended[ei].sqEnd >= b
  {
    hide HoldsSums;
    cumend, ei := cumend0, ei0;
    while ei < |ended| && ended[ei].sqEnd < b
      invariant ei0 <= ei <= |ended| && HoldsSums(cumend, ended[..ei])
      invariant forall i :: ei0 <= i < ei ==> ended[i].sqEnd < b
    {
      cumend := AddNumbers(cumend, ended[ei], ended[..ei]);
      assert ended[..ei + 1] == ended[..ei] + [ended[ei]];
      ei := ei + 1;
    }
  }

  /** Caught up with one more record, the pointer is where the largest begin number so far puts it. */
  lemma CutMoves(recs: seq<Rec>, ended: seq<Rec>, n: nat, ei0: nat, ei: nat)
    requires n < |recs| && ei0 <= ei <= |ended| && ByEnd(ended)
    requires if n == 0 then ei0 == 0 else CutAt(ended, ei0, Reach(recs, n - 1))
    requires forall i :: ei0 <= i < ei ==> ended[i].sqEnd < recs[n].sq
    requires ei < |ended| ==> ended[ei].sqEnd >= recs[n].sq
    ensures CutAt(ended, ei, Reach(recs, n))
  {
    forall i | ei <= i < |ended| ensures ended[i].sqEnd >= Reach(recs, n) {
      assert ended[i].sqEnd >= ended[ei].sqEnd;
    }
  }

  /**
   The sweep, for any records: counts, sums and latest values over the records before, and sums over
   all that ended before the largest begin number so far. For one run's records in begin order that
   is: over the triggers begun, or ended, before the row's own.
   */
  method FeatureRows(recs: seq<Rec>, layout: Layout, target: string, field: string) returns (rows: seq<(seq<int>, int)>)
    ensures rows == SweepRows(recs, layout, target, field, |recs|)
    ensures InOrder(recs) ==> rows == Rows(recs, layout, target, field, |recs|)
  {
    hide SortByEnd, Current, HoldsSums, HoldsLatest, HoldsCounts, Columns, CutAt, SweepValues, Reach, ByEnd;
    var cum: map<Key, int>, cumend: map<Key, int>, last: map<Key, int> := map[], map[], map[];
    var count: map<string, int> := map[];
    var ended := SortByEnd(recs);
    var ei := 0;
    rows := [];
    NothingYet();
    var n := 0;
    assert recs[..0] == [] && ended[..0] == [];
    while n < |recs|
      invariant n <= |recs| && ei <= |recs|
      invariant rows == SweepRows(recs, layout, target, field, n)
      invariant HoldsSums(cum, recs[..n]) && HoldsLatest(last, recs[..n]) && HoldsCounts(count, recs[..n])
      invariant HoldsSums(cumend, ended[..ei])
      invariant if n == 0 then ei == 0 else CutAt(ended, ei, Reach(recs, n - 1))
    {
      var r := recs[n];
      ghost var ei0 := ei;
      cumend, ei := CatchUp(cumend, ended, ei, r.sq);
      CutMoves(recs, ended, n, ei0, ei);
      if IsTarget(r, target, field) {
        BecomesCurrent(cum, cumend, last, count, recs, n, ei);
        var f := BuildRow(cum, cumend, last, count, layout, recs, n);
        rows := rows + [(f, NumOf(r, field).value)];
      }
      count := CountOne(count, recs[..n], r);
      cum := AddNumbers(cum, r, recs[..n]);
      last := SetLatest(last, r, recs[..n]);
      assert recs[..n + 1] == recs[..n] + [r];
      n := n + 1;
    }
    if InOrder(recs) {
      SweepIsRows(recs, layout, target, field, |recs|);
    }
  }

  lemma NothingYet()
    ensures HoldsSums(map[], []) && HoldsLatest(map[], []) && HoldsCounts(map[], [])
  {
  }

  method CountOne(count0: map<string, int>, ghost recs: seq<Rec>, r: Rec) returns (count: map<string, int>)
    requires HoldsCounts(count0, recs)
    ensures HoldsCounts(count, recs + [r])
  {
    hide NumberOf;
    count := count0[r.region := Get(count0, r.region) + 1];
    forall region ensures Get(count, region) == NumberOf(recs + [r], region) {
      SumOfSnoc(recs, r, region, "");
    }
  }
}
