/** Dictionaries of accumulated real amounts, as `d[k] = d.get(k, 0.0) + x` builds them. */
module RealMaps {
  import opened Sums
  import opened Vectors

  function Get<K(==)>(m: map<K, real>, k: K): real {
    if k in m then m[k] else 0.0
  }

  function Bump<K(==)>(m: map<K, real>, k: K, x: real): map<K, real> {
    m[k := Get(m, k) + x]
  }

  /** The sum of a dictionary's values. */
  ghost function Total<K>(m: map<K, real>): real
    decreases |m.Keys|
  {
    if m.Keys == {} then 0.0 else
      var k := PickKey(m);
      assert (m - {k}).Keys == m.Keys - {k};
      m[k] + Total(m - {k})
  }

  lemma {:induction false} TotalRemove<K>(m: map<K, real>, k: K)
    requires k in m
    ensures Total(m) == m[k] + Total(m - {k})
    decreases |m.Keys|
  {
    var c := PickKey(m);
    if c != k {
      var without := m - {c};
      assert without.Keys == m.Keys - {c};
      TotalRemove(without, k);
      var rest := m - {k};
      assert rest.Keys == m.Keys - {k};
      TotalRemove(rest, c);
      assert without - {k} == rest - {c};
    }
  }

  lemma TotalBump<K>(m: map<K, real>, k: K, x: real)
    ensures Total(Bump(m, k, x)) == Total(m) + x
  {
    var b := Bump(m, k, x);
    TotalRemove(b, k);
    if k in m {
      TotalRemove(m, k);
      assert b - {k} == m - {k};
    } else {
      assert b - {k} == m;
    }
  }

  predicate Distinct<K(==)>(ks: seq<K>) {
    forall i, j :: 0 <= i < j < |ks| ==> ks[i] != ks[j]
  }

  function Gets<K(==)>(m: map<K, real>, ks: seq<K>): (r: Vec)
    ensures |r| == |ks|
    ensures forall i :: 0 <= i < |ks| ==> r[i] == Get(m, ks[i])
  {
    seq(|ks|, i requires 0 <= i < |ks| => Get(m, ks[i]))
  }

  /** Reading a dictionary along any list that covers its keys once gives its whole sum. */
  lemma {:induction false} TotalOver<K>(m: map<K, real>, ks: seq<K>)
    requires Distinct(ks) && forall k :: k in m ==> k in ks
    ensures Total(m) == Sum(Gets(m, ks))
    decreases |ks|
  {
    if ks != [] {
      var n := |ks| - 1;
      var k := ks[n];
      var rest := m - {k};
      forall q | q in rest ensures q in ks[..n] {
        var i :| 0 <= i < |ks| && ks[i] == q;
        assert ks[..n][i] == q;
      }
      TotalOver(rest, ks[..n]);
      assert Gets(m, ks)[..n] == Gets(rest, ks[..n]);
      if k in m {
        TotalRemove(m, k);
      } else {
        assert rest == m;
      }
    } else {
      assert m.Keys == {};
    }
  }

  /** `for k, x in zip(ks, xs): m[k] = m.get(k, 0.0) + x` */
  function AddAll<K(==)>(m: map<K, real>, ks: seq<K>, xs: Vec): map<K, real>
    requires |ks| == |xs|
  {
    if ks == [] then m else
      var n := |ks| - 1;
      Bump(AddAll(m, ks[..n], xs[..n]), ks[n], xs[n])
  }

  lemma {:induction false} AddAllElsewhere<K>(m: map<K, real>, ks: seq<K>, xs: Vec, k: K)
    requires |ks| == |xs| && k !in ks
    ensures Get(AddAll(m, ks, xs), k) == Get(m, k)
  {
    if ks != [] {
      var n := |ks| - 1;
      AddAllElsewhere(m, ks[..n], xs[..n], k);
    }
  }

  lemma {:induction false} AddAllAt<K>(m: map<K, real>, ks: seq<K>, xs: Vec, i: nat)
    requires |ks| == |xs| && i < |ks| && Distinct(ks)
    ensures Get(AddAll(m, ks, xs), ks[i]) == Get(m, ks[i]) + xs[i]
  {
    var n := |ks| - 1;
    if i == n {
      AddAllElsewhere(m, ks[..n], xs[..n], ks[n]);
    } else {
      AddAllAt(m, ks[..n], xs[..n], i);
    }
  }

  lemma {:induction false} AddAllKeys<K>(m: map<K, real>, ks: seq<K>, xs: Vec)
    requires |ks| == |xs|
    ensures AddAll(m, ks, xs).Keys == m.Keys + set k | k in ks
  {
    if ks == [] {
      assert (set k | k in ks) == {};
    } else {
      var n := |ks| - 1;
      AddAllKeys(m, ks[..n], xs[..n]);
      assert ks == ks[..n] + [ks[n]];
      assert (set k | k in ks) == (set k | k in ks[..n]) + {ks[n]};
    }
  }
}
