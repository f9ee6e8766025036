/**
 What the relation search guarantees: which of the exact relations it reports, and that the
 specification's "every relation" is more than it does.
 */
module RelationLaws {
  import opened FeatureColumns
  import opened RelationSearch

  /** The sum of the columns' values at one trigger, each times its coefficient. */
  function Weighted(f: seq<int>, columns: seq<nat>, cs: seq<int>): int
    requires |columns| == |cs| && forall i :: 0 <= i < |columns| ==> columns[i] < |f|
  {
    if columns == [] then 0 else cs[0] * f[columns[0]] + Weighted(f, columns[1..], cs[1..])
  }

  /** One to three columns with coefficients 1, -1, 2 or -2, whose sum is off the state by the same at every trigger. */
  predicate Relation(rows: seq<Row>, width: nat, columns: seq<nat>, cs: seq<int>, offset: int)
    requires Table(rows, width)
  {
    && 1 <= |columns| == |cs| <= 3
    && (forall i :: 0 <= i < |columns| ==> columns[i] < width)
    && (forall i :: 0 <= i < |cs| ==> cs[i] == 1 || cs[i] == -1 || cs[i] == 2 || cs[i] == -2)
    && forall i :: 0 <= i < |rows| ==> rows[i].1 - Weighted(rows[i].0, columns, cs) == offset
  }

  lemma {:induction false} WeightedIs(f: seq<int>, columns: seq<nat>, cs: seq<int>)
    requires |columns| == |cs| && forall i :: 0 <= i < |columns| ==> columns[i] < |f|
    ensures Weighted(f, columns, cs) == Pred(f, columns, cs)
  {
    if |columns| == 1 {
      assert columns[..0] == columns[1..] && cs[..0] == cs[1..];
    } else if columns != [] {
      var m := |columns| - 1;
      WeightedIs(f, columns[1..], cs[1..]);
      WeightedIs(f, columns[..m], cs[..m]);
      WeightedIs(f, columns[1..m], cs[1..m]);
      assert columns[1..][..m - 1] == columns[1..m] && cs[1..][..m - 1] == cs[1..m];
      assert columns[..m][1..] == columns[1..m] && cs[..m][1..] == cs[1..m];
    }
  }

  lemma CoefIs(c: int)
    ensures c in COEFS <==> c == 1 || c == -1 || c == 2 || c == -2
  {
    assert COEFS[0] == 1 && COEFS[1] == -1 && COEFS[2] == 2 && COEFS[3] == -2;
  }

  /** In the search's words. */
  lemma RelationIs(rows: seq<Row>, width: nat, columns: seq<nat>, cs: seq<int>, offset: int)
    requires Table(rows, width)
    ensures Relation(rows, width, columns, cs, offset) <==>
            && Fits(columns, cs, width) && 1 <= |columns| <= MAX_TERMS && AllIn(cs, COEFS)
            && Holds(rows, width, columns, cs, offset)
  {
    hide Pred, Weighted;
    forall c ensures c in COEFS <==> c == 1 || c == -1 || c == 2 || c == -2 {
      CoefIs(c);
    }
    if Fits(columns, cs, width) {
      forall i | 0 <= i < |rows| ensures Weighted(rows[i].0, columns, cs) == Pred(rows[i].0, columns, cs) {
        WeightedIs(rows[i].0, columns, cs);
      }
    }
  }

  /**
   A relation over columns in increasing order is reported as it stands if and only if all its
   columns are kept ones and no relation over fewer kept columns holds.
   */
  lemma ReportedIff(rows: seq<Row>, width: nat, found: seq<Found>, size: nat, columns: seq<nat>, cs: seq<int>,
                    offset: int)
    requires Table(rows, width) && Smallest(rows, width, found, size) && (found == [] ==> size == MAX_TERMS)
    requires Increasing(columns) && Relation(rows, width, columns, cs, offset)
    ensures Found(columns, cs, offset) in found <==>
            (forall i :: 0 <= i < |columns| ==> Kept(rows, width, columns[i]))
            && (forall m :: 1 <= m < |columns| ==> NoRelation(rows, width, m))
  {
    hide Kept, Holds, Relation;
    RelationIs(rows, width, columns, cs, offset);
    var f := Found(columns, cs, offset);
    assert Valid(rows, width, |columns|, f) <==> forall i :: 0 <= i < |columns| ==> Kept(rows, width, columns[i]);
    if Valid(rows, width, |columns|, f) {
      SizeAtMost(rows, width, found, size, |columns|, f);
      if size < |columns| {
        NoneIsEmpty(rows, width, found, size);
      }
    }
  }

  /** A valid candidate bounds the size of what is found. */
  lemma SizeAtMost(rows: seq<Row>, width: nat, found: seq<Found>, size: nat, k: nat, f: Found)
    requires Table(rows, width) && Smallest(rows, width, found, size) && (found == [] ==> size == MAX_TERMS)
    requires Valid(rows, width, k, f) && 1 <= k <= MAX_TERMS
    ensures size <= k && found != []
  {
    hide Valid;
    assert k < size ==> NoRelation(rows, width, k);
    NoneIsEmpty(rows, width, found, size);
    assert size == k ==> f in found;
  }

  lemma NoneIsEmpty(rows: seq<Row>, width: nat, found: seq<Found>, size: nat)
    requires Table(rows, width) && Smallest(rows, width, found, size)
    ensures NoRelation(rows, width, size) <==> found == []
  {
    hide Valid;
    if found != [] {
      assert found[0] in found;
    }
  }

  // ---------------------------------------------------------------- putting a relation in the search's terms

  function Reps(rows: seq<Row>, width: nat, columns: seq<nat>): (r: seq<nat>)
    requires Table(rows, width) && forall i :: 0 <= i < |columns| ==> columns[i] < width
    ensures |r| == |columns|
    ensures forall i :: 0 <= i < |r| ==> r[i] == Rep(rows, width, columns[i])
  {
    seq(|columns|, i requires 0 <= i < |columns| => Rep(rows, width, columns[i]))
  }

  function InsertTerm(combo: seq<nat>, cs: seq<int>, j: nat, c: int): (r: (seq<nat>, seq<int>))
    requires |combo| == |cs|
    ensures |r.0| == |r.1| == |combo| + 1
  {
    var m := |combo| - 1;
    if combo == [] || combo[m] < j then (combo + [j], cs + [c])
    else
      var r := InsertTerm(combo[..m], cs[..m], j, c);
      (r.0 + [combo[m]], r.1 + [cs[m]])
  }

  function SortTerms(columns: seq<nat>, cs: seq<int>): (r: (seq<nat>, seq<int>))
    requires |columns| == |cs|
    ensures |r.0| == |r.1| == |columns|
  {
    if columns == [] then ([], []) else
      var m := |columns| - 1;
      var r := SortTerms(columns[..m], cs[..m]);
      InsertTerm(r.0, r.1, columns[m], cs[m])
  }

  /** The relation with each column replaced by the kept one it repeats, in increasing order. */
  function Canonical(rows: seq<Row>, width: nat, columns: seq<nat>, cs: seq<int>, offset: int): Found
    requires Table(rows, width) && Fits(columns, cs, width)
  {
    var r := SortTerms(Reps(rows, width, columns), cs);
    Found(r.0, r.1, offset)
  }

  lemma {:induction false} InsertTermElements(combo: seq<nat>, cs: seq<int>, j: nat, c: int)
    requires |combo| == |cs|
    ensures forall x :: x in InsertTerm(combo, cs, j, c).0 <==> x in combo || x == j
    ensures forall x :: x in InsertTerm(combo, cs, j, c).1 <==> x in cs || x == c
  {
    if combo != [] && !(combo[|combo| - 1] < j) {
      var m := |combo| - 1;
      InsertTermElements(combo[..m], cs[..m], j, c);
      assert combo == combo[..m] + [combo[m]] && cs == cs[..m] + [cs[m]];
    }
  }

  lemma {:induction false} InsertTermIncreasing(combo: seq<nat>, cs: seq<int>, j: nat, c: int)
    requires |combo| == |cs| && Increasing(combo) && j !in combo
    ensures Increasing(InsertTerm(combo, cs, j, c).0)
  {
    if combo != [] && !(combo[|combo| - 1] < j) {
      var m := |combo| - 1;
      InsertTermIncreasing(combo[..m], cs[..m], j, c);
      InsertTermElements(combo[..m], cs[..m], j, c);
      var r := InsertTerm(combo[..m], cs[..m], j, c).0;
      forall i | 0 <= i < |r| ensures r[i] < combo[m] {
        assert r[i] in r;
        if r[i] != j {
          var k :| 0 <= k < m && combo[..m][k] == r[i];
          assert combo[k] < combo[m];
        } else {
          assert combo[m] in combo;
        }
      }
    }
  }

  lemma PredSnoc(f: seq<int>, combo: seq<nat>, cs: seq<int>, j: nat, c: int)
    requires Fits(combo, cs, |f|) && j < |f|
    ensures Fits(combo + [j], cs + [c], |f|)
    ensures Pred(f, combo + [j], cs + [c]) == Pred(f, combo, cs) + c * f[j]
  {
    assert (combo + [j])[..|combo|] == combo && (cs + [c])[..|cs|] == cs;
  }

  lemma {:induction false} InsertTermPred(f: seq<int>, combo: seq<nat>, cs: seq<int>, j: nat, c: int)
    requires Fits(combo, cs, |f|) && j < |f|
    ensures var r := InsertTerm(combo, cs, j, c);
            Fits(r.0, r.1, |f|) && Pred(f, r.0, r.1) == Pred(f, combo, cs) + c * f[j]
  {
    hide Pred;
    var m := |combo| - 1;
    if combo == [] || combo[m] < j {
      PredSnoc(f, combo, cs, j, c);
    } else {
      InsertTermPred(f, combo[..m], cs[..m], j, c);
      var r := InsertTerm(combo[..m], cs[..m], j, c);
      PredSnoc(f, r.0, r.1, combo[m], cs[m]);
      PredSnoc(f, combo[..m], cs[..m], combo[m], cs[m]);
      assert combo == combo[..m] + [combo[m]] && cs == cs[..m] + [cs[m]];
    }
  }

  lemma {:induction false} SortTermsMeaning(f: seq<int>, columns: seq<nat>, cs: seq<int>)
    requires Fits(columns, cs, |f|) && forall i, j :: 0 <= i < j < |columns| ==> columns[i] != columns[j]
    ensures var r := SortTerms(columns, cs);
            && Increasing(r.0) && (forall x :: x in r.0 <==> x in columns) && (forall x :: x in r.1 <==> x in cs)
            && Fits(r.0, r.1, |f|) && Pred(f, r.0, r.1) == Pred(f, columns, cs)
  {
    hide Pred, InsertTerm;
    if columns == [] {
      assert cs == [];
    } else {
      var m := |columns| - 1;
      SortTermsMeaning(f, columns[..m], cs[..m]);
      var r := SortTerms(columns[..m], cs[..m]);
      assert columns == columns[..m] + [columns[m]] && cs == cs[..m] + [cs[m]];
      InsertTermElements(r.0, r.1, columns[m], cs[m]);
      InsertTermIncreasing(r.0, r.1, columns[m], cs[m]);
      InsertTermPred(f, r.0, r.1, columns[m], cs[m]);
      PredSnoc(f, columns[..m], cs[..m], columns[m], cs[m]);
    }
  }

  lemma {:induction false} RepsPred(rows: seq<Row>, width: nat, columns: seq<nat>, cs: seq<int>, i: nat)
    requires Table(rows, width) && Fits(columns, cs, width) && i < |rows|
    ensures Fits(Reps(rows, width, columns), cs, width)
    ensures Pred(rows[i].0, Reps(rows, width, columns), cs) == Pred(rows[i].0, columns, cs)
  {
    hide Rep;
    if columns != [] {
      var m := |columns| - 1;
      RepsPred(rows, width, columns[..m], cs[..m], i);
      assert Reps(rows, width, columns)[..m] == Reps(rows, width, columns[..m]);
      var r := Rep(rows, width, columns[m]);
      assert Col(rows, r)[i] == Col(rows, columns[m])[i];
    }
  }

  /** Columns that vary, and that differ from each other. */
  predicate Separate(rows: seq<Row>, width: nat, columns: seq<nat>)
    requires Table(rows, width) && forall i :: 0 <= i < |columns| ==> columns[i] < width
  {
    && (forall i :: 0 <= i < |columns| ==> !Constant(Col(rows, columns[i])))
    && forall i, j :: 0 <= i < j < |columns| ==> Col(rows, columns[i]) != Col(rows, columns[j])
  }

  lemma SeparateReps(rows: seq<Row>, width: nat, columns: seq<nat>)
    requires Table(rows, width) && forall i :: 0 <= i < |columns| ==> columns[i] < width
    requires Separate(rows, width, columns)
    ensures var r := Reps(rows, width, columns);
            && (forall i, j :: 0 <= i < j < |r| ==> r[i] != r[j])
            && forall i :: 0 <= i < |r| ==> r[i] < width && Kept(rows, width, r[i])
  {
    hide Rep, Constant;
    var r := Reps(rows, width, columns);
    forall i | 0 <= i < |columns| ensures r[i] < width && Kept(rows, width, r[i]) {
      RepIsKept(rows, width, columns[i]);
    }
  }

  /** Such a relation, put in the search's terms, is one of those the search looks for. */
  lemma CanonicalIsValid(rows: seq<Row>, width: nat, columns: seq<nat>, cs: seq<int>, offset: int)
    requires Table(rows, width) && Relation(rows, width, columns, cs, offset) && Separate(rows, width, columns)
    requires rows != []
    ensures Fits(columns, cs, width)
    ensures Valid(rows, width, |columns|, Canonical(rows, width, columns, cs, offset))
  {
    hide Rep, Constant, Separate, SortTerms, Kept, Pred, Relation;
    RelationIs(rows, width, columns, cs, offset);
    var reps, r := Reps(rows, width, columns), SortTerms(Reps(rows, width, columns), cs);
    SeparateReps(rows, width, columns);
    forall i | 0 <= i < |rows|
      ensures Fits(r.0, r.1, width) && Pred(rows[i].0, r.0, r.1) == Pred(rows[i].0, columns, cs)
    {
      RepsPred(rows, width, columns, cs, i);
      SortTermsMeaning(rows[i].0, reps, cs);
    }
    SortTermsMeaning(rows[0].0, reps, cs);
    forall i | 0 <= i < |r.0| ensures r.0[i] < width && Kept(rows, width, r.0[i]) && r.1[i] in COEFS {
      assert r.0[i] in r.0 && r.1[i] in r.1;
      var k :| 0 <= k < |reps| && reps[k] == r.0[i];
      var q :| 0 <= q < |cs| && cs[q] == r.1[i];
    }
  }

  /**
   Any exact relation over at most three columns that vary and differ forces a find of no larger
   size; and its canonical form is reported if and only if no relation of fewer features holds.
   */
  lemma EveryRelationIsFound(rows: seq<Row>, width: nat, found: seq<Found>, size: nat,
                             columns: seq<nat>, cs: seq<int>, offset: int)
    requires Table(rows, width) && Smallest(rows, width, found, size) && (found == [] ==> size == MAX_TERMS)
    requires Relation(rows, width, columns, cs, offset) && Separate(rows, width, columns)
    ensures found != [] && size <= |columns|
    ensures Canonical(rows, width, columns, cs, offset) in found <==>
            forall m :: 1 <= m < |columns| ==> NoRelation(rows, width, m)
  {
    hide Valid, Canonical, Relation;
    RelationIs(rows, width, columns, cs, offset);
    SomeRow(rows, width, columns);
    CanonicalIsValid(rows, width, columns, cs, offset);
    NoneIsEmpty(rows, width, found, size);
    var f := Canonical(rows, width, columns, cs, offset);
    SizeAtMost(rows, width, found, size, |columns|, f);
    if f in found {
      ValidSize(rows, width, size, |columns|, f);
    }
  }

  lemma SomeRow(rows: seq<Row>, width: nat, columns: seq<nat>)
    requires Table(rows, width) && columns != [] && (forall i :: 0 <= i < |columns| ==> columns[i] < width)
    requires Separate(rows, width, columns)
    ensures rows != []
  {
    assert !Constant(Col(rows, columns[0]));
  }

  lemma ValidSize(rows: seq<Row>, width: nat, k: nat, m: nat, f: Found)
    requires Table(rows, width) && Valid(rows, width, k, f) && Valid(rows, width, m, f)
    ensures k == m
  {
  }

  // ---------------------------------------------------------------- "every relation" is too much

  /** Two copies of one feature, whose sum with weights 1 and 2 is the state. */
  const TWICE: seq<Row> := [([0, 0], 0), ([1, 1], 3)]

  lemma OneKept(j: nat)
    requires j < 2
    ensures Table(TWICE, 2) && (Kept(TWICE, 2, j) ==> j == 0)
  {
    assert Col(TWICE, 0) == Col(TWICE, 1) == [0, 1];
  }

  /** The relation `y = 1*x + 2*x'` holds, and nothing at all is reported. */
  lemma RepeatedColumnsHideIt(found: seq<Found>, size: nat)
    requires Table(TWICE, 2) && Smallest(TWICE, 2, found, size)
    ensures Relation(TWICE, 2, [0, 1], [1, 2], 0) && found == []
  {
    hide Relation;
    RelationIs(TWICE, 2, [0, 1], [1, 2], 0);
    assert Pred([0, 0], [0, 1], [1, 2]) == 0 && Pred([1, 1], [0, 1], [1, 2]) == 3 by {
      assert [0, 1][..1] == [0] && [1, 2][..1] == [1] && [0][..0] == [] && [1][..0] == [];
    }
    forall f: Found ensures !Valid(TWICE, 2, size, f) {
      if Candidate(TWICE, 2, size, f.combo, f.cs) {
        OneCandidate(f, size);
      }
    }
    NoneIsEmpty(TWICE, 2, found, size);
  }

  lemma SomePositive(combo: seq<nat>)
    requires Increasing(combo) && |combo| > 1
    ensures exists i :: 0 <= i < |combo| && combo[i] > 0
  {
    assert combo[0] < combo[1];
  }

  lemma OneCandidate(f: Found, size: nat)
    requires Table(TWICE, 2) && size >= 1 && Candidate(TWICE, 2, size, f.combo, f.cs)
    ensures !Holds(TWICE, 2, f.combo, f.cs, f.offset)
  {
    hide Kept;
    if size > 1 {
      SomePositive(f.combo);
    }
    forall i | 0 <= i < size ensures f.combo[i] == 0 {
      OneKept(f.combo[i]);
    }
    assert f.combo[..0] == [] && f.cs[..0] == [];
    assert Pred([0, 0], f.combo, f.cs) == 0;
    assert Pred([1, 1], f.combo, f.cs) == f.cs[0];
    assert f.cs[0] in COEFS;
    assert TWICE[0] == ([0, 0], 0) && TWICE[1] == ([1, 1], 3);
  }

  // ---------------------------------------------------------------- each relation once

  lemma {:induction false} NotBeforeItself(a: seq<nat>)
    ensures !Before(a, a)
  {
    if a != [] {
      NotBeforeItself(a[1..]);
    }
  }

  lemma {:induction false} CoefsNotBeforeThemselves(a: seq<int>)
    ensures !CoefsBefore(a, a)
  {
    if a != [] {
      CoefsNotBeforeThemselves(a[1..]);
    }
  }

  /** A list in the search's order has nothing twice. */
  lemma ListedOnce(found: seq<Found>, i: nat, j: nat)
    requires Listed(found) && i < j < |found|
    ensures found[i] != found[j]
  {
    NotBeforeItself(found[i].combo);
    CoefsNotBeforeThemselves(found[i].cs);
  }
}
