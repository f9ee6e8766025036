/**
 Who gets a key of their own: the answer of the table said on the bytes, the requests keyed so far
 and the order in which regions first got a key, with the budgets written out.
 */
module KeyLaws {
  import opened KeyEncoding
  import opened KeyTable
  import A = Attribution

  // ---------------------------------------------------------------- which regions are counted

  /** This request just got a key of its own. */
  ghost predicate JustKeyed(before: Table, after: Table, q: Request) {
    q !in before.keys && q in after.keys
  }

  /** The regions with keys of their own, in the order they got their first. */
  ghost function Regions(cfg: A.Config, ops: Ops): seq<string>
    requires Proper(ops)
  {
    match ops
    case Nil => []
    case Snoc(p, Allocate(n)) => Regions(cfg, p)
    case Snoc(p, Ask(q, parent)) =>
      if JustKeyed(After(cfg, EMPTY, p), After(cfg, EMPTY, ops), q) && q.region !in Regions(cfg, p)
      then Regions(cfg, p) + [q.region] else Regions(cfg, p)
  }

  /** Rows stand for the first 64 of these regions. */
  ghost predicate RowsAre(counts: seq<(string, nat)>, regions: seq<string>) {
    && |counts| == (if |regions| <= 64 then |regions| else 64)
    && forall i :: 0 <= i < |counts| ==> counts[i].0 == regions[i]
  }

  lemma ChargeRows(counts: seq<(string, nat)>, regions: seq<string>, region: string)
    requires RowsAre(counts, regions) && Charge(counts, region).1 && |region| < RNAME_MAX
    ensures RowsAre(Charge(counts, region).0, if region in regions then regions else regions + [region])
  {
    var i := RowOf(counts, region);
    if i < |counts| {
      assert regions[i] == region;
    } else if region in regions {
      var j :| 0 <= j < |regions| && regions[j] == region;
      assert j >= |counts|;
    }
  }

  lemma AskRows(cfg: A.Config, t: Table, q: Request, parent: string, regions: seq<string>)
    requires WellFormed(q) && RowsAre(t.counts, regions)
    ensures var u := Get(cfg, t, q, parent).0;
            RowsAre(u.counts, if JustKeyed(t, u, q) && q.region !in regions then regions + [q.region] else regions)
  {
    hide RowsAre, Charge;
    if q !in t.keys && !OutOfMemory(cfg, t) && Charge(t.counts, q.region).1 {
      ChargeRows(t.counts, regions, q.region);
    } else {
      RefusedRows(t, q, parent);
    }
  }

  /** A request refused its key leaves the rows alone. */
  lemma RefusedRows(t: Table, q: Request, parent: string)
    ensures Bucket(t, q, parent).0.counts == t.counts && Bucket(t, q, parent).0.keys == t.keys
  {
  }

  lemma {:induction false} RegionsAreRows(cfg: A.Config, ops: Ops)
    requires Proper(ops)
    ensures RowsAre(After(cfg, EMPTY, ops).counts, Regions(cfg, ops))
  {
    hide RowsAre, Get, JustKeyed;
    match ops
    case Nil => NoRows();
    case Snoc(p, Allocate(n)) => RegionsAreRows(cfg, p);
    case Snoc(p, Ask(q, parent)) =>
      RegionsAreRows(cfg, p);
      AskRows(cfg, After(cfg, EMPTY, p), q, parent, Regions(cfg, p));
  }

  lemma NoRows()
    ensures RowsAre([], [])
  {
  }

  // ---------------------------------------------------------------- who gets a key

  /** One more array of 8-byte counters fits into 96 GiB. */
  predicate FitsMemory(cfg: A.Config, bytes: nat) {
    bytes + 8 * cfg.maxSlots <= 96 * 0x4000_0000
  }

  /** Not one of the first 64 regions that got a key, or one with fewer than 128 keyed requests. */
  ghost predicate HasRoom(t: Table, regions: seq<string>, region: string) {
    || (forall i :: 0 <= i < |regions| && i < 64 ==> regions[i] != region)
    || |KeyedOf(t.keys, region)| < 128
  }

  lemma ChargedIff(t: Table, regions: seq<string>, region: string)
    requires TableOk(t) && RowsAre(t.counts, regions)
    ensures Charge(t.counts, region).1 <==> HasRoom(t, regions, region)
  {
    hide KeysOk, BucketsOk, KeyedOf, RowsCover;
    var i := RowOf(t.counts, region);
    if i < |t.counts| {
      assert RowOk(t.counts, t.keys, i);
      assert regions[i] == region;
    }
  }

  /**
   In every reachable table, a request without a key gets one of its own if and only if a counter
   array still fits into 96 GiB, and its region has fewer than 128 keyed requests or is not one of
   the first 64 regions that got a key. Any other request gets its region's bucket.
   */
  lemma OwnKeyIff(cfg: A.Config, ops: Ops, q: Request, parent: string)
    requires Proper(ops) && WellFormed(q) && q !in After(cfg, EMPTY, ops).keys
    ensures var t := After(cfg, EMPTY, ops);
            var (u, k) := Get(cfg, t, q, parent);
            && (q in u.keys <==> FitsMemory(cfg, t.bytes) && HasRoom(t, Regions(cfg, ops), q.region))
            && (q in u.keys ==> IsNew(t, u, k, q, parent))
            && (q !in u.keys ==> IsBucket(t, u, k, q.region, q.root, parent))
  {
    hide TableOk, Charge, NewKey, NewBucket, IsNew, IsBucket, HasRoom, RowsAre;
    var t := After(cfg, EMPTY, ops);
    ReachableOk(cfg, ops);
    RegionsAreRows(cfg, ops);
    ChargedIff(t, Regions(cfg, ops), q.region);
    NewIs(t, q, parent, Charge(t.counts, q.region).0);
    BucketIs(t, q, parent);
  }

  /** What a text of at most 159 characters leaves of `s`. */
  predicate Clipped(c: string, s: string) {
    if |s| <= 159 then c == s else c == s[..159]
  }

  /** One more key, for this request, with the next number and exactly what it declared. */
  predicate IsNew(t: Table, u: Table, k: KeyRec, q: Request, parent: string) {
    && u.keys == t.keys[q := k] && u.others == t.others && u.nkeys == t.nkeys + 1 && u.bytes == t.bytes
    && k.index == t.nkeys && !k.overflow && k.region == q.region && k.root == q.root && Clipped(k.parent, parent)
    && if q.names == [""] then k.kname == [] && k.kval == [] else k.kname == q.names && k.kval == q.vals
  }

  /** The region's bucket, made with the next number if there was none; nobody's key changes. */
  predicate IsBucket(t: Table, u: Table, k: KeyRec, region: string, root: string, parent: string) {
    && u.keys == t.keys && u.counts == t.counts && u.bytes == t.bytes
    && if region in t.others then u == t && k == t.others[region]
       else && u.others == t.others[region := k] && u.nkeys == t.nkeys + 1 && k.index == t.nkeys
            && k.overflow && k.region == region && k.root == root && Clipped(k.parent, parent)
            && k.kname == [] && k.kval == []
  }

  lemma NewIs(t: Table, q: Request, parent: string, counts: seq<(string, nat)>)
    requires WellFormed(q)
    ensures var k := NewKey(t.nkeys, q, parent);
            IsNew(t, t.(keys := t.keys[q := k], counts := counts, nkeys := t.nkeys + 1), k, q, parent)
  {
    var k := NewKey(t.nkeys, q, parent);
    NewKeyDescribes(t.nkeys, q, parent);
    if q.names != [""] {
      assert Declared(q) == |q.names|;
      assert q.names[..|q.names|] == q.names && q.vals[..|q.vals|] == q.vals;
    }
  }

  lemma BucketIs(t: Table, q: Request, parent: string)
    requires WellFormed(q)
    ensures var (u, k) := Bucket(t, q, parent); IsBucket(t, u, k, q.region, q.root, parent)
  {
  }

  // ---------------------------------------------------------------- key numbers

  /** Numbers below `n`, none twice. */
  ghost predicate Apart<K(!new)>(m: map<K, KeyRec>, n: nat) {
    && (forall q :: q in m ==> m[q].index < n)
    && forall p, q :: p in m && q in m && p != q ==> m[p].index != m[q].index
  }

  ghost predicate NoneShared<K(!new), L(!new)>(m: map<K, KeyRec>, l: map<L, KeyRec>) {
    forall p, q :: p in m && q in l ==> m[p].index != l[q].index
  }

  lemma ApartGrows<K(!new)>(m: map<K, KeyRec>, n: nat, q: K, k: KeyRec)
    requires Apart(m, n) && q !in m && k.index == n
    ensures Apart(m[q := k], n + 1) && |m[q := k]| == |m| + 1
  {
    assert m[q := k].Keys == m.Keys + {q};
  }

  lemma ApartStays<K(!new)>(m: map<K, KeyRec>, n: nat)
    requires Apart(m, n)
    ensures Apart(m, n + 1)
  {
  }

  lemma NoneSharedGrows<K(!new), L(!new)>(m: map<K, KeyRec>, l: map<L, KeyRec>, n: nat, q: K, k: KeyRec)
    requires NoneShared(m, l) && Apart(l, n) && k.index == n
    ensures NoneShared(m[q := k], l) && NoneShared(l, m[q := k])
  {
  }

  lemma NoneSharedTurned<K(!new), L(!new)>(m: map<K, KeyRec>, l: map<L, KeyRec>)
    requires NoneShared(m, l)
    ensures NoneShared(l, m)
  {
  }

  /** Every key and bucket has a number of its own, and the numbers are those below the number of keys. */
  ghost predicate Numbered(t: Table) {
    && t.nkeys == |t.keys| + |t.others|
    && Apart(t.keys, t.nkeys) && Apart(t.others, t.nkeys) && NoneShared(t.keys, t.others)
  }

  lemma NewIsNumbered(t: Table, u: Table, k: KeyRec, q: Request, parent: string)
    requires Numbered(t) && q !in t.keys && IsNew(t, u, k, q, parent)
    ensures Numbered(u)
  {
    hide Clipped, Apart, NoneShared;
    ApartGrows(t.keys, t.nkeys, q, k);
    ApartStays(t.others, t.nkeys);
    NoneSharedGrows(t.keys, t.others, t.nkeys, q, k);
  }

  lemma BucketIsNumbered(t: Table, u: Table, k: KeyRec, region: string, root: string, parent: string)
    requires Numbered(t) && IsBucket(t, u, k, region, root, parent)
    ensures Numbered(u)
  {
    hide Clipped, Apart, NoneShared;
    if region !in t.others {
      ApartGrows(t.others, t.nkeys, region, k);
      ApartStays(t.keys, t.nkeys);
      NoneSharedTurned(t.keys, t.others);
      NoneSharedGrows(t.others, t.keys, t.nkeys, region, k);
    }
  }

  /** In every reachable table, keys and buckets are numbered from 0 without gap or repetition. */
  lemma {:induction false} KeysAreNumbered(cfg: A.Config, ops: Ops)
    requires Proper(ops)
    ensures Numbered(After(cfg, EMPTY, ops))
  {
    hide Get, Numbered, IsNew, IsBucket, HasRoom, Regions, Clipped;
    match ops
    case Nil => NoneNumbered();
    case Snoc(p, Allocate(n)) =>
      KeysAreNumbered(cfg, p);
      var t := After(cfg, EMPTY, p);
      BytesUnnumbered(t, t.bytes + n);
    case Snoc(p, Ask(q, parent)) =>
      KeysAreNumbered(cfg, p);
      var t := After(cfg, EMPTY, p);
      var (u, k) := Get(cfg, t, q, parent);
      if q in t.keys {
        SameAgain(cfg, t, q, parent);
      } else {
        OwnKeyIff(cfg, p, q, parent);
        if q in u.keys {
          NewIsNumbered(t, u, k, q, parent);
        } else {
          BucketIsNumbered(t, u, k, q.region, q.root, parent);
        }
      }
  }

  lemma NoneNumbered()
    ensures Numbered(EMPTY)
  {
  }

  lemma BytesUnnumbered(t: Table, bytes: nat)
    requires Numbered(t)
    ensures Numbered(t.(bytes := bytes))
  {
  }

  /** A request with a key gets that key, and changes nothing. */
  lemma SameAgain(cfg: A.Config, t: Table, q: Request, parent: string)
    requires WellFormed(q) && q in t.keys
    ensures Get(cfg, t, q, parent) == (t, t.keys[q])
  {
  }
}
