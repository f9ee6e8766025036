/**
 Relation learning: the columns worth searching, without the constant ones and without
 repetitions of an earlier one.
 */
module FeatureColumns {

  /** A trigger's features and its state. */
  type Row = (seq<int>, int)

  predicate Table(rows: seq<Row>, width: nat) {
    forall i :: 0 <= i < |rows| ==> |rows[i].0| == width
  }

  function Col(rows: seq<Row>, j: nat): (c: seq<int>)
    requires forall i :: 0 <= i < |rows| ==> j < |rows[i].0|
    ensures |c| == |rows|
    ensures forall i :: 0 <= i < |rows| ==> c[i] == rows[i].0[j]
  {
    seq(|rows|, i requires 0 <= i < |rows| => rows[i].0[j])
  }

  predicate Constant(c: seq<int>) {
    forall i, j :: 0 <= i < |c| && 0 <= j < |c| ==> c[i] == c[j]
  }

  // ---------------------------------------------------------------- kept columns

  /** The first column from `from` on with contents `c`. */
  function FirstLike(rows: seq<Row>, width: nat, c: seq<int>, from: nat): (r: nat)
    requires Table(rows, width) && from < width
    requires exists k :: from <= k < width && Col(rows, k) == c
    ensures from <= r < width && Col(rows, r) == c
    ensures forall i :: from <= i < r ==> Col(rows, i) != c
    decreases width - from
  {
    if Col(rows, from) == c then from else FirstLike(rows, width, c, from + 1)
  }

  /** The first column with the contents of column `j`. */
  function Rep(rows: seq<Row>, width: nat, j: nat): (r: nat)
    requires Table(rows, width) && j < width
    ensures r <= j && Col(rows, r) == Col(rows, j)
    ensures forall i :: 0 <= i < r ==> Col(rows, i) != Col(rows, j)
  {
    FirstLike(rows, width, Col(rows, j), 0)
  }

  predicate Kept(rows: seq<Row>, width: nat, j: nat)
    requires Table(rows, width) && j < width
  {
    !Constant(Col(rows, j)) && Rep(rows, width, j) == j
  }

  /** The columns kept among the first `n`. */
  function Keep(rows: seq<Row>, width: nat, n: nat): (keep: seq<nat>)
    requires Table(rows, width) && n <= width
  {
    if n == 0 then []
    else if Kept(rows, width, n - 1) then Keep(rows, width, n - 1) + [n - 1]
    else Keep(rows, width, n - 1)
  }

  /** The kept columns in increasing order. */
  lemma {:induction false} KeepMeaning(rows: seq<Row>, width: nat, n: nat)
    requires Table(rows, width) && n <= width
    ensures var keep := Keep(rows, width, n);
            && Increasing(keep)
            && forall j: nat :: j in keep <==> j < n && Kept(rows, width, j)
  {
    hide Kept;
    if n > 0 {
      KeepMeaning(rows, width, n - 1);
      var front := Keep(rows, width, n - 1);
      assert forall i :: 0 <= i < |front| ==> front[i] in front;
    }
  }

  predicate Increasing(s: seq<nat>) {
    forall i, j :: 0 <= i < j < |s| ==> s[i] < s[j]
  }

  /** A column that varies has the contents of exactly one kept column. */
  lemma RepIsKept(rows: seq<Row>, width: nat, j: nat)
    requires Table(rows, width) && j < width && !Constant(Col(rows, j))
    ensures var r := Rep(rows, width, j);
            && r < width && Kept(rows, width, r) && Col(rows, r) == Col(rows, j)
            && forall i :: 0 <= i < width && Kept(rows, width, i) && Col(rows, i) == Col(rows, j) ==> i == r
  {
    hide Constant, FirstLike;
  }

  method IsConstant(c: seq<int>) returns (constant: bool)
    ensures constant == Constant(c)
  {
    var i := 0;
    while i < |c|
      invariant i <= |c| && forall a :: 0 <= a < i ==> c[a] == c[0]
    {
      if c[i] != c[0] {
        return false;
      }
      i := i + 1;
    }
    constant := true;
  }

  /** What is known of the columns before `n`: by contents, the first column that had them. */
  ghost predicate Seen(cols: map<seq<int>, nat>, rows: seq<Row>, width: nat, n: nat)
    requires Table(rows, width) && n <= width
  {
    && (forall c :: c in cols ==> cols[c] < n && Kept(rows, width, cols[c]) && Col(rows, cols[c]) == c)
    && (forall j :: 0 <= j < n && !Constant(Col(rows, j)) ==> Col(rows, j) in cols)
  }

  /** Each dropped repetition, and nothing else, is listed under the kept column it repeats, in order. */
  ghost predicate Aliases(aliases: map<nat, seq<nat>>, rows: seq<Row>, width: nat, n: nat)
    requires Table(rows, width) && n <= width
  {
    && (forall j: nat, r: nat :: (r in aliases && j in aliases[r]) <==> j < n && Repeats(rows, width, j, r))
    && forall r: nat :: r in aliases ==> Increasing(aliases[r])
  }

  /** Column `j` varies and repeats the kept column `r`. */
  predicate Repeats(rows: seq<Row>, width: nat, j: nat, r: nat)
    requires Table(rows, width) && j < width
  {
    !Constant(Col(rows, j)) && r == Rep(rows, width, j) && r != j
  }

  lemma SeenRep(cols: map<seq<int>, nat>, rows: seq<Row>, width: nat, j: nat)
    requires Table(rows, width) && j < width && Seen(cols, rows, width, j) && !Constant(Col(rows, j))
    ensures Col(rows, j) in cols ==> Repeats(rows, width, j, cols[Col(rows, j)]) && !Kept(rows, width, j)
    ensures Col(rows, j) !in cols ==> Kept(rows, width, j)
  {
    hide Constant, FirstLike;
    RepIsKept(rows, width, j);
    var r := Rep(rows, width, j);
    if r < j {
      assert !Constant(Col(rows, r));
    }
  }

  lemma SeenAdded(cols: map<seq<int>, nat>, rows: seq<Row>, width: nat, j: nat)
    requires Table(rows, width) && j < width && Seen(cols, rows, width, j) && Kept(rows, width, j)
    ensures Seen(cols[Col(rows, j) := j], rows, width, j + 1)
  {
    hide Constant, Rep;
  }

  lemma SeenKept(cols: map<seq<int>, nat>, rows: seq<Row>, width: nat, j: nat)
    requires Table(rows, width) && j < width && Seen(cols, rows, width, j)
    requires Constant(Col(rows, j)) || Col(rows, j) in cols
    ensures Seen(cols, rows, width, j + 1)
  {
    hide Constant, Kept;
  }

  /** Constant columns and repetitions of an earlier column are dropped; repetitions are noted. */
  method DedupeColumns(rows: seq<Row>, width: nat) returns (keep: seq<nat>, aliases: map<nat, seq<nat>>)
    requires Table(rows, width)
    ensures keep == Keep(rows, width, width)
    ensures Aliases(aliases, rows, width, width)
  {
    hide Constant, Rep, Aliases, Seen, Repeats;
    var cols: map<seq<int>, nat> := map[];
    keep, aliases := [], map[];
    NothingSeen(rows, width);
    var j := 0;
    while j < width
      invariant j <= width && keep == Keep(rows, width, j)
      invariant Seen(cols, rows, width, j) && Aliases(aliases, rows, width, j)
    {
      var col := Col(rows, j);
      var constant := IsConstant(col);
      if constant {
        AliasesKept(aliases, rows, width, j);
        SeenKept(cols, rows, width, j);
      } else {
        SeenRep(cols, rows, width, j);
        if col in cols {
          AliasAdded(aliases, rows, width, j, cols[col]);
          aliases := aliases[cols[col] := (if cols[col] in aliases then aliases[cols[col]] else []) + [j]];
          SeenKept(cols, rows, width, j);
        } else {
          AliasesKept(aliases, rows, width, j);
          SeenAdded(cols, rows, width, j);
          cols := cols[col := j];
          keep := keep + [j];
        }
      }
      j := j + 1;
    }
  }

  lemma NothingSeen(rows: seq<Row>, width: nat)
    requires Table(rows, width)
    ensures Aliases(map[], rows, width, 0) && Seen(map[], rows, width, 0)
  {
  }

  lemma AliasesKept(aliases: map<nat, seq<nat>>, rows: seq<Row>, width: nat, j: nat)
    requires Table(rows, width) && j < width && Aliases(aliases, rows, width, j)
    requires Constant(Col(rows, j)) || Kept(rows, width, j)
    ensures Aliases(aliases, rows, width, j + 1)
  {
    hide Constant, Rep;
  }

  lemma AliasAdded(aliases: map<nat, seq<nat>>, rows: seq<Row>, width: nat, j: nat, r: nat)
    requires Table(rows, width) && j < width && Aliases(aliases, rows, width, j) && Repeats(rows, width, j, r)
    ensures Aliases(aliases[r := (if r in aliases then aliases[r] else []) + [j]], rows, width, j + 1)
  {
    hide Constant, Rep;
    if r in aliases {
      assert forall i :: 0 <= i < |aliases[r]| ==> aliases[r][i] in aliases[r];
    }
  }

  // ---------------------------------------------------------------- said of the values

  /** Two triggers have different values in column `j`. */
  predicate Varies(rows: seq<Row>, width: nat, j: nat)
    requires Table(rows, width) && j < width
  {
    exists i, h :: 0 <= i < |rows| && 0 <= h < |rows| && rows[i].0[j] != rows[h].0[j]
  }

  /** At some trigger two columns have different values. */
  predicate Differ(rows: seq<Row>, width: nat, j: nat, m: nat)
    requires Table(rows, width) && j < width && m < width
  {
    exists i :: 0 <= i < |rows| && rows[i].0[j] != rows[i].0[m]
  }

  lemma ConstantIff(rows: seq<Row>, width: nat, j: nat)
    requires Table(rows, width) && j < width
    ensures Constant(Col(rows, j)) <==> !Varies(rows, width, j)
  {
    var c := Col(rows, j);
    if i, h :| 0 <= i < |rows| && 0 <= h < |rows| && rows[i].0[j] != rows[h].0[j] {
      assert c[i] != c[h];
    }
    if i, h :| 0 <= i < |c| && 0 <= h < |c| && c[i] != c[h] {
      assert rows[i].0[j] != rows[h].0[j];
    }
  }

  lemma DifferIff(rows: seq<Row>, width: nat, j: nat, m: nat)
    requires Table(rows, width) && j < width && m < width
    ensures Col(rows, j) != Col(rows, m) <==> Differ(rows, width, j, m)
  {
    if !Differ(rows, width, j, m) {
      assert Col(rows, j) == Col(rows, m);
    }
  }

  /** A column is kept if and only if its values vary and every column before it differs from it somewhere. */
  lemma KeptIff(rows: seq<Row>, width: nat, j: nat)
    requires Table(rows, width) && j < width
    ensures j in Keep(rows, width, width) <==>
            Varies(rows, width, j) && forall m :: 0 <= m < j ==> Differ(rows, width, j, m)
  {
    hide Constant, Varies, Differ, FirstLike, Keep;
    KeepMeaning(rows, width, width);
    ConstantIff(rows, width, j);
    forall m | 0 <= m < j ensures Col(rows, j) != Col(rows, m) <==> Differ(rows, width, j, m) {
      DifferIff(rows, width, j, m);
    }
  }

  /** It is listed under another if and only if it varies and that one is the first with its values everywhere. */
  lemma RepeatsIff(rows: seq<Row>, width: nat, j: nat, r: nat)
    requires Table(rows, width) && j < width
    ensures Repeats(rows, width, j, r) <==>
            && Varies(rows, width, j) && r < j && !Differ(rows, width, j, r)
            && forall m :: 0 <= m < r ==> Differ(rows, width, j, m)
  {
    hide Constant, Varies, Differ, FirstLike;
    ConstantIff(rows, width, j);
    forall m | 0 <= m < j ensures Col(rows, j) != Col(rows, m) <==> Differ(rows, width, j, m) {
      DifferIff(rows, width, j, m);
    }
  }
}
