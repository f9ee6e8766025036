/**
 Relation learning: the search for exact relations between a state and up to three features,
 with coefficients 1, -1, 2 and -2, smallest number of features first.
 */
module RelationSearch {
  import opened FeatureColumns

  const COEFS: seq<int> := [1, -1, 2, -2]
  const MAX_TERMS := 3

  // ---------------------------------------------------------------- what is enumerated

  function Prefixed<T>(x: T, cs: seq<seq<T>>): (r: seq<seq<T>>)
    ensures |r| == |cs|
    ensures forall i :: 0 <= i < |r| ==> r[i] == [x] + cs[i]
  {
    seq(|cs|, i requires 0 <= i < |cs| => [x] + cs[i])
  }

  /** `itertools.combinations`: in the order of `s`. */
  function Combinations(s: seq<nat>, k: nat): seq<seq<nat>> {
    if k == 0 then [[]]
    else if s == [] then []
    else Prefixed(s[0], Combinations(s[1..], k - 1)) + Combinations(s[1..], k)
  }

  function Extended(coefs: seq<int>, rest: seq<seq<int>>): seq<seq<int>> {
    if coefs == [] then [] else Prefixed(coefs[0], rest) + Extended(coefs[1..], rest)
  }

  /** `itertools.product`: the last coefficient varies fastest. */
  function Products(k: nat): seq<seq<int>> {
    if k == 0 then [[]] else Extended(COEFS, Products(k - 1))
  }

  predicate AllIn<T(==)>(c: seq<T>, s: seq<T>) {
    forall i :: 0 <= i < |c| ==> c[i] in s
  }

  lemma PrefixedIn<T>(x: T, cs: seq<seq<T>>, c: seq<T>)
    ensures c in Prefixed(x, cs) <==> c != [] && c[0] == x && c[1..] in cs
  {
    if c in Prefixed(x, cs) {
      var i :| 0 <= i < |cs| && Prefixed(x, cs)[i] == c;
      assert c[1..] == cs[i];
    }
    if c != [] && c[0] == x && c[1..] in cs {
      var i :| 0 <= i < |cs| && cs[i] == c[1..];
      assert Prefixed(x, cs)[i] == c;
    }
  }

  /** An increasing choice of `k` of the columns. */
  predicate Choice(s: seq<nat>, k: nat, c: seq<nat>) {
    |c| == k && Increasing(c) && AllIn(c, s)
  }

  /** Exactly the increasing choices are enumerated. */
  lemma {:induction false} CombinationsMeaning(s: seq<nat>, k: nat, c: seq<nat>)
    requires Increasing(s)
    ensures c in Combinations(s, k) <==> Choice(s, k, c)
  {
    hide Choice, Increasing, Combinations;
    if k == 0 || s == [] {
      FewCombinations(s, k, c);
    } else {
      TailIncreasing(s);
      CombinationsMeaning(s[1..], k, c);
      CombinationsStep(s, k, c);
      if c == [] {
        NoChoice(s, k);
        NoChoice(s[1..], k);
      } else {
        CombinationsMeaning(s[1..], k - 1, c[1..]);
        ChoiceSplits(s, k, c);
      }
    }
  }

  lemma CombinationsStep(s: seq<nat>, k: nat, c: seq<nat>)
    requires s != [] && k > 0
    ensures c in Combinations(s, k) <==>
            (c != [] && c[0] == s[0] && c[1..] in Combinations(s[1..], k - 1)) || c in Combinations(s[1..], k)
  {
    hide Prefixed;
    PrefixedIn(s[0], Combinations(s[1..], k - 1), c);
    ConcatIn(Prefixed(s[0], Combinations(s[1..], k - 1)), Combinations(s[1..], k), c);
  }

  lemma ConcatIn<T>(a: seq<T>, b: seq<T>, x: T)
    ensures x in a + b <==> x in a || x in b
  {
  }

  lemma FewCombinations(s: seq<nat>, k: nat, c: seq<nat>)
    requires k == 0 || s == []
    ensures c in Combinations(s, k) <==> Choice(s, k, c)
  {
    if k > 0 && c != [] {
      assert c[0] !in s;
    }
  }

  lemma NoChoice(s: seq<nat>, k: nat)
    requires k > 0
    ensures !Choice(s, k, [])
  {
  }

  lemma TailIncreasing(s: seq<nat>)
    requires Increasing(s) && s != []
    ensures Increasing(s[1..])
  {
  }

  /** An increasing choice starts with the first column, or does without it. */
  lemma ChoiceSplits(s: seq<nat>, k: nat, c: seq<nat>)
    requires Increasing(s) && s != [] && c != [] && k > 0
    ensures Choice(s, k, c) <==> Choice(s[1..], k, c) || (c[0] == s[0] && Choice(s[1..], k - 1, c[1..]))
  {
    if Choice(s, k, c) {
      if c[0] == s[0] {
        RestAbove(s, c[1..], c[0]);
      } else {
        FirstAbove(s, c[0]);
        RestAbove(s, c, s[0]);
      }
    }
    if Choice(s[1..], k, c) {
      ChoiceWidens(s, k, c);
    }
    if c[0] == s[0] && Choice(s[1..], k - 1, c[1..]) {
      ChoiceWidens(s, k - 1, c[1..]);
      ChoiceExtends(s, k, c);
    }
  }

  lemma ChoiceWidens(s: seq<nat>, k: nat, c: seq<nat>)
    requires s != [] && Choice(s[1..], k, c)
    ensures Choice(s, k, c)
  {
    forall i | 0 <= i < |c| ensures c[i] in s {
      assert c[i] in s[1..];
    }
  }

  lemma ChoiceExtends(s: seq<nat>, k: nat, c: seq<nat>)
    requires Increasing(s) && s != [] && c != [] && k > 0
    requires c[0] == s[0] && Choice(s[1..], k - 1, c[1..]) && Choice(s, k - 1, c[1..])
    ensures Choice(s, k, c)
  {
    forall i | 0 <= i < |c| ensures c[i] in s && (i > 0 ==> c[0] < c[i]) {
      if i > 0 {
        assert c[i] == c[1..][i - 1];
        assert c[i] in s[1..];
        var j :| 0 <= j < |s[1..]| && s[1..][j] == c[i];
        assert s[j + 1] == c[i];
      }
    }
    forall i, j | 0 <= i < j < |c| ensures c[i] < c[j] {
      if i > 0 {
        assert c[1..][i - 1] < c[1..][j - 1];
      }
    }
  }

  lemma FirstAbove(s: seq<nat>, x: nat)
    requires Increasing(s) && s != [] && x in s && x != s[0]
    ensures s[0] < x
  {
  }

  lemma RestAbove(s: seq<nat>, c: seq<nat>, low: nat)
    requires Increasing(s) && s != [] && s[0] <= low && AllIn(c, s) && forall i :: 0 <= i < |c| ==> low < c[i]
    ensures AllIn(c, s[1..])
  {
    forall i | 0 <= i < |c| ensures c[i] in s[1..] {
      var j :| 0 <= j < |s| && s[j] == c[i];
      assert s[1..][j - 1] == c[i];
    }
  }

  lemma {:induction false} ExtendedIn(coefs: seq<int>, rest: seq<seq<int>>, p: seq<int>)
    ensures p in Extended(coefs, rest) <==> p != [] && p[0] in coefs && p[1..] in rest
  {
    hide Prefixed;
    if coefs != [] {
      PrefixedIn(coefs[0], rest, p);
      ExtendedIn(coefs[1..], rest, p);
    }
  }

  /** Exactly the tuples of `k` coefficients. */
  lemma {:induction false} ProductsMeaning(k: nat, p: seq<int>)
    ensures p in Products(k) <==> |p| == k && AllIn(p, COEFS)
  {
    hide Extended;
    if k > 0 {
      ExtendedIn(COEFS, Products(k - 1), p);
      if p != [] {
        ProductsMeaning(k - 1, p[1..]);
        assert AllIn(p, COEFS) <==> p[0] in COEFS && AllIn(p[1..], COEFS) by {
          assert forall i :: 0 < i < |p| ==> p[i] == p[1..][i - 1];
        }
      }
    }
  }

  // ---------------------------------------------------------------- the order of the enumeration

  /** Lexicographically smaller. */
  predicate Before(a: seq<nat>, b: seq<nat>) {
    a != [] && b != [] && (a[0] < b[0] || (a[0] == b[0] && Before(a[1..], b[1..])))
  }

  /** 1, then -1, then 2, then -2. */
  function Rank(c: int): nat {
    if c == 1 then 0 else if c == -1 then 1 else if c == 2 then 2 else 3
  }

  predicate CoefsBefore(a: seq<int>, b: seq<int>) {
    a != [] && b != [] && (Rank(a[0]) < Rank(b[0]) || (a[0] == b[0] && CoefsBefore(a[1..], b[1..])))
  }

  /** Each choice once, in lexicographic order. */
  predicate Ascending(list: seq<seq<nat>>) {
    forall i, j :: 0 <= i < j < |list| ==> Before(list[i], list[j])
  }

  predicate CoefsAscending(list: seq<seq<int>>) {
    forall i, j :: 0 <= i < j < |list| ==> CoefsBefore(list[i], list[j])
  }

  lemma {:induction false} CombinationsAscend(s: seq<nat>, k: nat)
    requires Increasing(s)
    ensures Ascending(Combinations(s, k))
  {
    hide Before;
    if k > 0 && s != [] {
      TailIncreasing(s);
      var first, rest := Prefixed(s[0], Combinations(s[1..], k - 1)), Combinations(s[1..], k);
      CombinationsAscend(s[1..], k - 1);
      CombinationsAscend(s[1..], k);
      PrefixedAscends(s[0], Combinations(s[1..], k - 1));
      forall i, j | 0 <= i < |first| && 0 <= j < |rest| ensures Before(first[i], rest[j]) {
        StartsLater(s, k, rest[j]);
        FirstDecides(first[i], rest[j]);
      }
    }
  }

  lemma FirstDecides(a: seq<nat>, b: seq<nat>)
    requires a != [] && b != [] && a[0] < b[0]
    ensures Before(a, b)
  {
  }

  lemma PrefixedAscends(x: nat, list: seq<seq<nat>>)
    requires Ascending(list)
    ensures Ascending(Prefixed(x, list))
  {
    forall i, j | 0 <= i < j < |list| ensures Before([x] + list[i], [x] + list[j]) {
      assert ([x] + list[i])[1..] == list[i] && ([x] + list[j])[1..] == list[j];
    }
  }

  lemma StartsLater(s: seq<nat>, k: nat, c: seq<nat>)
    requires Increasing(s) && s != [] && k > 0 && c in Combinations(s[1..], k)
    ensures c != [] && s[0] < c[0]
  {
    hide Combinations;
    TailIncreasing(s);
    CombinationsMeaning(s[1..], k, c);
    assert c[0] in s[1..];
    var j :| 0 <= j < |s[1..]| && s[1..][j] == c[0];
    assert s[j + 1] == c[0];
  }

  lemma {:induction false} ExtendedAscends(coefs: seq<int>, rest: seq<seq<int>>)
    requires CoefsAscending(rest) && forall i, j :: 0 <= i < j < |coefs| ==> Rank(coefs[i]) < Rank(coefs[j])
    ensures CoefsAscending(Extended(coefs, rest))
  {
    hide CoefsBefore, Rank;
    if coefs != [] {
      var first, others := Prefixed(coefs[0], rest), Extended(coefs[1..], rest);
      ExtendedAscends(coefs[1..], rest);
      PrefixedCoefsAscend(coefs[0], rest);
      forall i, j | 0 <= i < |first| && 0 <= j < |others| ensures CoefsBefore(first[i], others[j]) {
        ExtendedIn(coefs[1..], rest, others[j]);
        var m :| 0 <= m < |coefs[1..]| && coefs[1..][m] == others[j][0];
        assert coefs[m + 1] == others[j][0];
        RankDecides(first[i], others[j]);
      }
    }
  }

  lemma RankDecides(a: seq<int>, b: seq<int>)
    requires a != [] && b != [] && Rank(a[0]) < Rank(b[0])
    ensures CoefsBefore(a, b)
  {
  }

  lemma PrefixedCoefsAscend(x: int, list: seq<seq<int>>)
    requires CoefsAscending(list)
    ensures CoefsAscending(Prefixed(x, list))
  {
    forall i, j | 0 <= i < j < |list| ensures CoefsBefore([x] + list[i], [x] + list[j]) {
      assert ([x] + list[i])[1..] == list[i] && ([x] + list[j])[1..] == list[j];
    }
  }

  lemma {:induction false} ProductsAscend(k: nat)
    ensures CoefsAscending(Products(k))
  {
    hide Extended, CoefsBefore;
    if k > 0 {
      ProductsAscend(k - 1);
      ExtendedAscends(COEFS, Products(k - 1));
    }
  }

  // ---------------------------------------------------------------- relations

  /** The combination of features. */
  function Pred(f: seq<int>, combo: seq<nat>, cs: seq<int>): int
    requires |combo| == |cs| && forall i :: 0 <= i < |combo| ==> combo[i] < |f|
  {
    if combo == [] then 0 else
      var m := |combo| - 1;
      Pred(f, combo[..m], cs[..m]) + cs[m] * f[combo[m]]
  }

  predicate Fits(combo: seq<nat>, cs: seq<int>, width: nat) {
    |combo| == |cs| && forall i :: 0 <= i < |combo| ==> combo[i] < width
  }

  /** At every trigger the state is the combination plus the offset. */
  predicate Holds(rows: seq<Row>, width: nat, combo: seq<nat>, cs: seq<int>, offset: int)
    requires Table(rows, width) && Fits(combo, cs, width)
  {
    forall i :: 0 <= i < |rows| ==> rows[i].1 == Pred(rows[i].0, combo, cs) + offset
  }

  datatype Found = Found(combo: seq<nat>, cs: seq<int>, offset: int)

  /** One of the combinations the search looks at, at `k` features. */
  predicate Candidate(rows: seq<Row>, width: nat, k: nat, combo: seq<nat>, cs: seq<int>)
    requires Table(rows, width)
  {
    && |combo| == |cs| == k
    && Increasing(combo) && (forall i :: 0 <= i < k ==> combo[i] < width && Kept(rows, width, combo[i]))
    && AllIn(cs, COEFS)
  }

  ghost predicate Valid(rows: seq<Row>, width: nat, k: nat, f: Found)
    requires Table(rows, width)
  {
    Candidate(rows, width, k, f.combo, f.cs) && Holds(rows, width, f.combo, f.cs, f.offset)
  }

  ghost predicate NoRelation(rows: seq<Row>, width: nat, k: nat)
    requires Table(rows, width)
  {
    forall f :: !Valid(rows, width, k, f)
  }

  /** Each relation once, by columns first and then by coefficients. */
  ghost predicate Listed(found: seq<Found>) {
    forall i, j :: 0 <= i < j < |found| ==> ListedBefore(found[i], found[j])
  }

  predicate ListedBefore(f: Found, g: Found) {
    Before(f.combo, g.combo) || (f.combo == g.combo && CoefsBefore(f.cs, g.cs))
  }

  /** The first trigger fixes the offset; the others must agree. */
  method Check(rows: seq<Row>, width: nat, combo: seq<nat>, cs: seq<int>) returns (ok: bool, offset: int)
    requires Table(rows, width) && Fits(combo, cs, width) && rows != []
    ensures ok ==> Holds(rows, width, combo, cs, offset)
    ensures forall d :: Holds(rows, width, combo, cs, d) ==> ok && d == offset
  {
    hide Pred;
    offset := rows[0].1 - Pred(rows[0].0, combo, cs);
    ok := true;
    var i := 0;
    while i < |rows|
      invariant i <= |rows|
      invariant forall j :: 0 <= j < i ==> rows[j].1 == Pred(rows[j].0, combo, cs) + offset
    {
      var d := rows[i].1 - Pred(rows[i].0, combo, cs);
      if d != offset {
        forall e ensures !Holds(rows, width, combo, cs, e) {
        }
        return false, offset;
      }
      i := i + 1;
    }
  }

  /** The relations of one choice of features, over all coefficients. */
  method SearchCombo(rows: seq<Row>, width: nat, combo: seq<nat>) returns (found: seq<Found>)
    requires Table(rows, width) && rows != [] && forall i :: 0 <= i < |combo| ==> combo[i] < width
    ensures forall f :: f in found <==>
              f.combo == combo && |f.cs| == |combo| && AllIn(f.cs, COEFS) && Holds(rows, width, combo, f.cs, f.offset)
    ensures Listed(found)
  {
    hide Holds, AllIn, Products, CoefsBefore, Before;
    found := [];
    var products := Products(|combo|);
    ProductsAscend(|combo|);
    var i := 0;
    while i < |products|
      invariant i <= |products| && Listed(found)
      invariant forall j, m :: 0 <= j < |found| && i <= m < |products| ==> CoefsBefore(found[j].cs, products[m])
      invariant forall f :: f in found ==>
        f.combo == combo && |f.cs| == |combo| && AllIn(f.cs, COEFS) && Holds(rows, width, combo, f.cs, f.offset)
      invariant forall j, d :: 0 <= j < i && |products[j]| == |combo| && Holds(rows, width, combo, products[j], d) ==>
        Found(combo, products[j], d) in found
    {
      var cs := products[i];
      ProductsMeaning(|combo|, cs);
      var ok, offset := Check(rows, width, combo, cs);
      if ok {
        found := found + [Found(combo, cs, offset)];
      }
      i := i + 1;
    }
    forall f: Found |
      f.combo == combo && |f.cs| == |combo| && AllIn(f.cs, COEFS) && Holds(rows, width, combo, f.cs, f.offset)
      ensures f in found
    {
      ProductsMeaning(|combo|, f.cs);
      var j :| 0 <= j < |products| && products[j] == f.cs;
    }
  }

  /** All relations of `k` kept features. */
  method SearchSize(rows: seq<Row>, width: nat, keep: seq<nat>, k: nat) returns (found: seq<Found>)
    requires Table(rows, width) && keep == Keep(rows, width, width) && k > 0
    ensures forall f :: f in found <==> Valid(rows, width, k, f)
    ensures Listed(found)
  {
    hide Holds, AllIn, Combinations, Kept, Keep, Increasing, CoefsBefore, Before;
    found := [];
    var combos := Combinations(keep, k);
    KeepMeaning(rows, width, width);
    CombinationsAscend(keep, k);
    var i := 0;
    while i < |combos|
      invariant i <= |combos| && Listed(found)
      invariant forall j, m :: 0 <= j < |found| && i <= m < |combos| ==> Before(found[j].combo, combos[m])
      invariant forall f :: f in found ==> Valid(rows, width, k, f)
      invariant forall j, f: Found :: 0 <= j < i && f.combo == combos[j] && Valid(rows, width, k, f) ==> f in found
    {
      ComboIsCandidate(rows, width, keep, k, combos[i]);
      var more := SearchCombo(rows, width, combos[i]);
      forall f: Found | f in more ensures Valid(rows, width, k, f) {
      }
      AppendListed(found, more, combos[i]);
      found := found + more;
      i := i + 1;
    }
    forall f: Found | Valid(rows, width, k, f) ensures f in found {
      CandidateIsCombo(rows, width, keep, k, f.combo, f.cs);
      var j :| 0 <= j < |combos| && combos[j] == f.combo;
    }
  }

  lemma AppendListed(found: seq<Found>, more: seq<Found>, combo: seq<nat>)
    requires Listed(found) && Listed(more)
    requires forall j :: 0 <= j < |found| ==> Before(found[j].combo, combo)
    requires forall f :: f in more ==> f.combo == combo
    ensures Listed(found + more)
    ensures forall j :: |found| <= j < |found| + |more| ==> (found + more)[j].combo == combo
  {
    hide Before, CoefsBefore;
    forall j | |found| <= j < |found| + |more| ensures (found + more)[j].combo == combo {
      assert more[j - |found|] in more;
    }
  }

  lemma ComboIsCandidate(rows: seq<Row>, width: nat, keep: seq<nat>, k: nat, combo: seq<nat>)
    requires Table(rows, width) && keep == Keep(rows, width, width) && k > 0 && combo in Combinations(keep, k)
    ensures rows != [] && |combo| == k && Increasing(combo)
    ensures forall i :: 0 <= i < |combo| ==> combo[i] < width && Kept(rows, width, combo[i])
  {
    hide Combinations, Keep, Rep;
    KeepMeaning(rows, width, width);
    CombinationsMeaning(keep, k, combo);
    assert combo[0] in keep;
    assert !Constant(Col(rows, combo[0]));
  }

  lemma CandidateIsCombo(rows: seq<Row>, width: nat, keep: seq<nat>, k: nat, combo: seq<nat>, cs: seq<int>)
    requires Table(rows, width) && keep == Keep(rows, width, width) && Candidate(rows, width, k, combo, cs)
    ensures combo in Combinations(keep, k)
  {
    hide Combinations, Keep, Kept;
    KeepMeaning(rows, width, width);
    CombinationsMeaning(keep, k, combo);
  }

  /** What the search returns: all relations of the smallest size that has any, up to three. */
  ghost predicate Smallest(rows: seq<Row>, width: nat, found: seq<Found>, k: nat)
    requires Table(rows, width)
  {
    && 1 <= k <= MAX_TERMS
    && (forall f :: f in found <==> Valid(rows, width, k, f))
    && forall m :: 1 <= m < k ==> NoRelation(rows, width, m)
  }

  /** The number of features in what was found; three if nothing was. */
  function SizeOf(found: seq<Found>): nat {
    if found == [] then MAX_TERMS else |found[0].combo|
  }

  method ExactRelations(rows: seq<Row>, width: nat) returns (found: seq<Found>)
    requires Table(rows, width)
    ensures Smallest(rows, width, found, SizeOf(found))
    ensures Listed(found)
  {
    hide Valid, Keep, Listed;
    NoneListed();
    var keep, _ := DedupeColumns(rows, width);
    found := [];
    var k := 1;
    while k <= MAX_TERMS
      invariant 1 <= k <= MAX_TERMS + 1 && found == [] && Listed(found)
      invariant forall m :: 1 <= m < k ==> NoRelation(rows, width, m)
    {
      found := SearchSize(rows, width, keep, k);
      if found != [] {
        FoundSize(rows, width, found[0], k);
        return;
      }
      assert NoRelation(rows, width, k) by {
        forall f: Found ensures !Valid(rows, width, k, f) {
          assert f !in found;
        }
      }
      k := k + 1;
    }
    assert NoRelation(rows, width, MAX_TERMS);
  }

  lemma NoneListed()
    ensures Listed([])
  {
  }

  lemma FoundSize(rows: seq<Row>, width: nat, f: Found, k: nat)
    requires Table(rows, width) && Valid(rows, width, k, f)
    ensures |f.combo| == k
  {
  }
}
