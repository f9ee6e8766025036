/** Finite sums over sequences and maps of natural numbers. */
module Sums {

  function SumSeq(s: seq<nat>): nat {
    if |s| == 0 then 0 else SumSeq(s[..|s| - 1]) + s[|s| - 1]
  }

  lemma {:induction false} SumSeqUpdate(s: seq<nat>, i: nat, n: nat)
    requires i < |s|
    ensures SumSeq(s[i := s[i] + n]) == SumSeq(s) + n
  {
    var u := s[i := s[i] + n];
    if i == |s| - 1 {
      assert u[..|u| - 1] == s[..|s| - 1];
    } else {
      assert u[..|u| - 1] == s[..|s| - 1][i := s[i] + n];
      SumSeqUpdate(s[..|s| - 1], i, n);
    }
  }

  lemma {:induction false} SumSeqAppend(s: seq<nat>, n: nat)
    ensures SumSeq(s + [n]) == SumSeq(s) + n
  {
    assert (s + [n])[..|s|] == s;
  }

  function Zeros(n: nat): (z: seq<nat>)
    ensures |z| == n
    ensures forall i :: 0 <= i < n ==> z[i] == 0
  {
    seq(n, _ => 0)
  }

  lemma {:induction false} SumZeros(z: seq<nat>)
    requires forall i :: 0 <= i < |z| ==> z[i] == 0
    ensures SumSeq(z) == 0
  {
    if |z| > 0 {
      SumZeros(z[..|z| - 1]);
    }
  }

  ghost function PickKey<K, V>(m: map<K, V>): (k: K)
    requires m.Keys != {}
    ensures k in m
  {
    var k :| k in m.Keys; k
  }

  /** The sum of a map's values. */
  ghost function SumMap<K>(m: map<K, nat>): nat
    decreases |m.Keys|
  {
    if m.Keys == {} then 0 else
      var k := PickKey(m);
      assert (m - {k}).Keys == m.Keys - {k};
      m[k] + SumMap(m - {k})
  }

  lemma {:induction false} SumMapRemove<K>(m: map<K, nat>, k: K)
    requires k in m
    ensures SumMap(m) == m[k] + SumMap(m - {k})
    decreases |m.Keys|
  {
    var c := PickKey(m);
    if c != k {
      var without := m - {c};
      assert without.Keys == m.Keys - {c};
      SumMapRemove(without, k);
      var rest := m - {k};
      assert rest.Keys == m.Keys - {k};
      SumMapRemove(rest, c);
      assert without - {k} == rest - {c};
    }
  }

  lemma {:induction false} SumMapPut<K>(m: map<K, nat>, k: K, v: nat)
    ensures SumMap(m[k := v]) == SumMap(m) - (if k in m then m[k] else 0) + v
  {
    SumMapRemove(m[k := v], k);
    if k in m {
      SumMapRemove(m, k);
      assert m[k := v] - {k} == m - {k};
    } else {
      assert m[k := v] - {k} == m;
    }
  }
}
