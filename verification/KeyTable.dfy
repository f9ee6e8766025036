/**
 Region keys as a plain map, with the two budgets that send a new state combination to its
 region's shared bucket.  This is the specification of the client's three-level cache.
 */
module KeyTable {
  import opened KeyEncoding
  import A = Attribution

  const KEYS_PER_REGION: nat := 128
  const TRACKED_REGIONS: nat := 64

  /** A key: its number, the copies it owns, and where it was first begun. */
  datatype KeyRec = KeyRec(
    index: nat, region: string, parent: string, root: string, overflow: bool,
    kname: seq<string>, kval: seq<int>)

  /** Keys by request, buckets by region, the per-region counts and the bytes of counter arrays. */
  datatype Table = Table(
    keys: map<Request, KeyRec>, others: map<string, KeyRec>,
    counts: seq<(string, nat)>, nkeys: nat, bytes: nat)

  // ---------------------------------------------------------------- the per-region budget

  /** The row of this region, or the number of rows. */
  function RowOf(counts: seq<(string, nat)>, region: string): (i: nat)
    ensures i <= |counts|
    ensures i < |counts| ==> counts[i].0 == region
    ensures forall j :: 0 <= j < i ==> counts[j].0 != region
  {
    if counts == [] then 0
    else if counts[0].0 == region then 0
    else 1 + RowOf(counts[1..], region)
  }

  /** May one more combination of this region have a key of its own?  Counts it if so. */
  function Charge(counts: seq<(string, nat)>, region: string): (r: (seq<(string, nat)>, bool)) {
    var i := RowOf(counts, region);
    if i < |counts| then
      if counts[i].1 >= KEYS_PER_REGION then (counts, false)
      else (counts[i := (counts[i].0, counts[i].1 + 1)], true)
    else if |counts| < TRACKED_REGIONS then (counts + [(Truncate(region, RNAME_MAX), 1)], true)
    else (counts, true)
  }

  // ---------------------------------------------------------------- the plain map

  /** One unnamed state is no declared state. */
  function Declared(q: Request): nat {
    if |q.names| == 1 && q.names[0] == "" then 0 else |q.names|
  }

  function NewKey(n: nat, q: Request, parent: string): KeyRec
    requires |q.names| == |q.vals|
  {
    KeyRec(n, Truncate(q.region, RNAME_MAX), Truncate(parent, RNAME_MAX), Truncate(q.root, RNAME_MAX), false,
           seq(Declared(q), i requires 0 <= i < Declared(q) => Truncate(q.names[i], STATE_NAME_MAX)),
           q.vals[..Declared(q)])
  }

  function NewBucket(n: nat, q: Request, parent: string): KeyRec {
    KeyRec(n, Truncate(q.region, RNAME_MAX), Truncate(parent, RNAME_MAX), Truncate(q.root, RNAME_MAX), true, [], [])
  }

  predicate OutOfMemory(cfg: A.Config, t: Table) {
    t.bytes + A.ArrayBytes(cfg) > A.COUNTER_BUDGET
  }

  /** The region's shared bucket. */
  function Bucket(t: Table, q: Request, parent: string): (Table, KeyRec) {
    if q.region in t.others then (t, t.others[q.region])
    else
      var k := NewBucket(t.nkeys, q, parent);
      (t.(others := t.others[q.region := k], nkeys := t.nkeys + 1), k)
  }

  /** The key of a request: the one it got before, a new one within the budgets, else the bucket. */
  function Get(cfg: A.Config, t: Table, q: Request, parent: string): (Table, KeyRec)
    requires |q.names| == |q.vals|
  {
    if q in t.keys then (t, t.keys[q])
    else if OutOfMemory(cfg, t) then Bucket(t, q, parent)
    else
      var (counts, ok) := Charge(t.counts, q.region);
      if ok then
        var k := NewKey(t.nkeys, q, parent);
        (t.(keys := t.keys[q := k], counts := counts, nkeys := t.nkeys + 1), k)
      else Bucket(t, q, parent)
  }

  const EMPTY := Table(map[], map[], [], 0, 0)

  // ---------------------------------------------------------------- runs of the table

  /** Any thread asks for a key, or counter arrays are allocated. */
  datatype Op = Ask(q: Request, parent: string) | Allocate(n: nat)

  datatype Ops = Nil | Snoc(before: Ops, op: Op)

  ghost predicate Proper(ops: Ops) {
    match ops
    case Nil => true
    case Snoc(p, op) => Proper(p) && (op.Ask? ==> WellFormed(op.q))
  }

  ghost function After(cfg: A.Config, t: Table, ops: Ops): Table
    requires Proper(ops)
  {
    match ops
    case Nil => t
    case Snoc(p, Ask(q, parent)) => Get(cfg, After(cfg, t, p), q, parent).0
    case Snoc(p, Allocate(n)) => var s := After(cfg, t, p); s.(bytes := s.bytes + n)
  }

  // ---------------------------------------------------------------- invariant

  /** Requests of a region that have a key of their own. */
  ghost function KeyedOf(keys: map<Request, KeyRec>, region: string): set<Request> {
    set q | q in keys && q.region == region
  }

  /** Key `k` carries exactly what the request declared. */
  ghost predicate Describes(k: KeyRec, q: Request) {
    && !k.overflow && k.region == q.region && k.root == q.root
    && |k.kname| == |k.kval| == Declared(q) <= |q.names| == |q.vals|
    && k.kname == q.names[..Declared(q)] && k.kval == q.vals[..Declared(q)]
  }

  ghost predicate KeysOk(t: Table) {
    && (forall q :: q in t.keys ==> WellFormed(q) && Describes(t.keys[q], q) && t.keys[q].index < t.nkeys)
    && (forall p, q :: p in t.keys && q in t.keys && t.keys[p].index == t.keys[q].index ==> p == q)
  }

  ghost predicate BucketsOk(t: Table) {
    forall r :: r in t.others ==>
      && |r| < RNAME_MAX && Plain(r) && t.others[r].overflow && t.others[r].region == r
      && t.others[r].index < t.nkeys && t.others[r].kname == []
  }

  /** Every row counts the keys of its region; regions without a row have no keys while rows are left. */
  ghost predicate CountsOk(counts: seq<(string, nat)>, keys: map<Request, KeyRec>) {
    && |counts| <= TRACKED_REGIONS
    && (forall i :: 0 <= i < |counts| ==> RowOk(counts, keys, i))
    && RowsCover(counts, keys)
  }

  ghost predicate RowsCover(counts: seq<(string, nat)>, keys: map<Request, KeyRec>) {
    forall q :: q in keys ==> RowOf(counts, q.region) < |counts| || |counts| == TRACKED_REGIONS
  }

  ghost predicate RowOk(counts: seq<(string, nat)>, keys: map<Request, KeyRec>, i: nat)
    requires i < |counts|
  {
    && RowOf(counts, counts[i].0) == i && counts[i].1 <= KEYS_PER_REGION
    && |KeyedOf(keys, counts[i].0)| == counts[i].1
  }

  ghost predicate TableOk(t: Table) {
    KeysOk(t) && BucketsOk(t) && CountsOk(t.counts, t.keys)
  }

  lemma NewKeyDescribes(n: nat, q: Request, parent: string)
    requires WellFormed(q)
    ensures Describes(NewKey(n, q, parent), q)
  {
    var k := NewKey(n, q, parent);
    assert k.kname == q.names[..Declared(q)];
  }

  lemma {:induction false} RowOfUpdate(counts: seq<(string, nat)>, i: nat, n: nat, region: string)
    requires i < |counts|
    ensures RowOf(counts[i := (counts[i].0, n)], region) == RowOf(counts, region)
  {
    var c := counts[i := (counts[i].0, n)];
    if counts[0].0 != region {
      if i > 0 {
        assert c[1..] == counts[1..][i - 1 := (counts[i].0, n)];
        RowOfUpdate(counts[1..], i - 1, n, region);
      } else {
        assert c[1..] == counts[1..];
      }
    }
  }

  lemma {:induction false} RowOfAppend(counts: seq<(string, nat)>, row: (string, nat), region: string)
    ensures RowOf(counts + [row], region)
         == if RowOf(counts, region) < |counts| then RowOf(counts, region)
            else if row.0 == region then |counts| else |counts| + 1
  {
    if counts == [] {
      assert (counts + [row])[1..] == [];
    } else if counts[0].0 != region {
      assert (counts + [row])[1..] == counts[1..] + [row];
      RowOfAppend(counts[1..], row, region);
    }
  }

  lemma KeyedAfter(keys: map<Request, KeyRec>, q: Request, k: KeyRec, region: string)
    requires q !in keys
    ensures |KeyedOf(keys[q := k], region)| == |KeyedOf(keys, region)| + (if q.region == region then 1 else 0)
  {
    if q.region == region {
      assert KeyedOf(keys[q := k], region) == KeyedOf(keys, region) + {q};
    } else {
      assert KeyedOf(keys[q := k], region) == KeyedOf(keys, region);
    }
  }

  /** A new key within budget: its region's row counts it. */
  lemma KeyAdded(t: Table, q: Request, parent: string)
    requires TableOk(t) && WellFormed(q) && q !in t.keys && Charge(t.counts, q.region).1
    ensures var k := NewKey(t.nkeys, q, parent);
            TableOk(t.(keys := t.keys[q := k], counts := Charge(t.counts, q.region).0, nkeys := t.nkeys + 1))
  {
    hide CountsOk, Charge;
    var k := NewKey(t.nkeys, q, parent);
    NewKeyDescribes(t.nkeys, q, parent);
    CountsAdded(t.counts, t.keys, q, k);
  }

  lemma CountsAdded(counts: seq<(string, nat)>, keys: map<Request, KeyRec>, q: Request, k: KeyRec)
    requires CountsOk(counts, keys) && q !in keys && |q.region| < RNAME_MAX && Charge(counts, q.region).1
    ensures CountsOk(Charge(counts, q.region).0, keys[q := k])
  {
    var row := RowOf(counts, q.region);
    if row < |counts| {
      RowGrows(counts, keys, q, k);
    } else if |counts| < TRACKED_REGIONS {
      RowStarts(counts, keys, q, k);
    } else {
      OtherRowsKeep(counts, keys, q, k);
    }
  }

  /** The region has a row. */
  lemma RowGrows(counts: seq<(string, nat)>, keys: map<Request, KeyRec>, q: Request, k: KeyRec)
    requires CountsOk(counts, keys) && q !in keys
    requires var row := RowOf(counts, q.region); row < |counts| && counts[row].1 < KEYS_PER_REGION
    ensures var row := RowOf(counts, q.region);
            CountsOk(counts[row := (counts[row].0, counts[row].1 + 1)], keys[q := k])
  {
    hide RowOf, RowOk, RowsCover;
    var row := RowOf(counts, q.region);
    var counts' := counts[row := (counts[row].0, counts[row].1 + 1)];
    var keys' := keys[q := k];
    forall i | 0 <= i < |counts'| ensures RowOk(counts', keys', i) {
      RowGrowsAt(counts, keys, q, k, i);
    }
    forall region ensures RowOf(counts', region) == RowOf(counts, region) {
      RowOfUpdate(counts, row, counts[row].1 + 1, region);
    }
    RowGrowsCovers(counts, counts', keys, q, k);
  }

  lemma RowGrowsCovers(
    counts: seq<(string, nat)>, counts': seq<(string, nat)>, keys: map<Request, KeyRec>, q: Request, k: KeyRec)
    requires RowsCover(counts, keys) && RowOf(counts, q.region) < |counts| == |counts'|
    requires forall region :: RowOf(counts', region) == RowOf(counts, region)
    ensures RowsCover(counts', keys[q := k])
  {
  }

  lemma RowGrowsAt(counts: seq<(string, nat)>, keys: map<Request, KeyRec>, q: Request, k: KeyRec, i: nat)
    requires CountsOk(counts, keys) && q !in keys && i < |counts|
    requires var row := RowOf(counts, q.region); row < |counts| && counts[row].1 < KEYS_PER_REGION
    ensures var row := RowOf(counts, q.region);
            RowOk(counts[row := (counts[row].0, counts[row].1 + 1)], keys[q := k], i)
  {
    hide RowOf, KeyedOf;
    var row := RowOf(counts, q.region);
    assert RowOk(counts, keys, i) && RowOk(counts, keys, row);
    KeyedAfter(keys, q, k, counts[i].0);
    RowOfUpdate(counts, row, counts[row].1 + 1, counts[i].0);
  }

  /** The region gets a row. */
  lemma RowStarts(counts: seq<(string, nat)>, keys: map<Request, KeyRec>, q: Request, k: KeyRec)
    requires CountsOk(counts, keys) && q !in keys
    requires RowOf(counts, q.region) == |counts| < TRACKED_REGIONS
    ensures CountsOk(counts + [(q.region, 1)], keys[q := k])
  {
    hide RowOf;
    var counts', keys' := counts + [(q.region, 1)], keys[q := k];
    assert KeyedOf(keys, q.region) == {};
    forall i | 0 <= i < |counts'| ensures RowOk(counts', keys', i) {
      KeyedAfter(keys, q, k, counts'[i].0);
      RowOfAppend(counts, (q.region, 1), counts'[i].0);
      if i < |counts| {
        assert RowOk(counts, keys, i);
      }
    }
    forall p | p in keys' ensures RowOf(counts', p.region) < |counts'| {
      RowOfAppend(counts, (q.region, 1), p.region);
    }
  }

  /** The region has no row and never will. */
  lemma OtherRowsKeep(counts: seq<(string, nat)>, keys: map<Request, KeyRec>, q: Request, k: KeyRec)
    requires CountsOk(counts, keys) && q !in keys
    requires RowOf(counts, q.region) == |counts| == TRACKED_REGIONS
    ensures CountsOk(counts, keys[q := k])
  {
    var keys' := keys[q := k];
    forall i | 0 <= i < |counts| ensures RowOk(counts, keys', i) {
      assert RowOk(counts, keys, i);
      KeyedAfter(keys, q, k, counts[i].0);
    }
  }

  lemma GetOk(cfg: A.Config, t: Table, q: Request, parent: string)
    requires TableOk(t) && WellFormed(q)
    ensures TableOk(Get(cfg, t, q, parent).0)
  {
    hide TableOk, Charge;
    if q !in t.keys && !OutOfMemory(cfg, t) && Charge(t.counts, q.region).1 {
      KeyAdded(t, q, parent);
    } else if q !in t.keys {
      BucketOk(t, q, parent);
    }
  }

  lemma BucketOk(t: Table, q: Request, parent: string)
    requires TableOk(t) && WellFormed(q)
    ensures TableOk(Bucket(t, q, parent).0)
  {
    hide CountsOk;
    var t' := Bucket(t, q, parent).0;
    assert t'.counts == t.counts && t'.keys == t.keys;
  }

  lemma {:induction false} ReachableOk(cfg: A.Config, ops: Ops)
    requires Proper(ops)
    ensures TableOk(After(cfg, EMPTY, ops))
  {
    match ops
    case Nil =>
    case Snoc(p, Ask(q, parent)) =>
      ReachableOk(cfg, p);
      GetOk(cfg, After(cfg, EMPTY, p), q, parent);
    case Snoc(p, Allocate(n)) =>
      ReachableOk(cfg, p);
  }

  // ---------------------------------------------------------------- budgets

  /** In every reachable table, each of the first 64 regions keyed has at most 128 keys of its own;
      every region has at most one bucket; keys have distinct numbers. */
  lemma BudgetsKept(cfg: A.Config, ops: Ops, region: string)
    requires Proper(ops)
    ensures var t := After(cfg, EMPTY, ops);
      && |t.counts| <= TRACKED_REGIONS
      && (RowOf(t.counts, region) < |t.counts| ==> |KeyedOf(t.keys, region)| <= KEYS_PER_REGION)
      && (KeyedOf(t.keys, region) != {} && RowOf(t.counts, region) == |t.counts| ==> |t.counts| == TRACKED_REGIONS)
      && (forall p, q :: p in t.keys && q in t.keys && t.keys[p].index == t.keys[q].index ==> p == q)
  {
    ReachableOk(cfg, ops);
    var t := After(cfg, EMPTY, ops);
    if RowOf(t.counts, region) < |t.counts| {
      assert RowOk(t.counts, t.keys, RowOf(t.counts, region));
    }
  }

  // ---------------------------------------------------------------- stickiness

  /** This request has `k`, and will always have it. */
  ghost predicate Settled(cfg: A.Config, t: Table, q: Request, k: KeyRec) {
    if q in t.keys then t.keys[q] == k
    else
      && q.region in t.others && t.others[q.region] == k
      && (OutOfMemory(cfg, t) || Full(t.counts, q.region))
  }

  /** The region has used up its budget. */
  predicate Full(counts: seq<(string, nat)>, region: string) {
    RowOf(counts, region) < |counts| && counts[RowOf(counts, region)].1 >= KEYS_PER_REGION
  }

  lemma GetSettles(cfg: A.Config, t: Table, q: Request, parent: string)
    requires WellFormed(q)
    ensures var (t', k) := Get(cfg, t, q, parent); Settled(cfg, t', q, k)
  {
  }

  lemma SettledAnswers(cfg: A.Config, t: Table, q: Request, k: KeyRec, parent: string)
    requires WellFormed(q) && Settled(cfg, t, q, k)
    ensures Get(cfg, t, q, parent) == (t, k)
  {
  }

  lemma FullStays(counts: seq<(string, nat)>, charged: string, region: string)
    requires Full(counts, region) && Charge(counts, charged).1
    ensures Full(Charge(counts, charged).0, region)
  {
    var i := RowOf(counts, charged);
    if i < |counts| {
      RowOfUpdate(counts, i, counts[i].1 + 1, region);
    } else if |counts| < TRACKED_REGIONS {
      RowOfAppend(counts, (Truncate(charged, RNAME_MAX), 1), region);
    }
  }

  lemma SettledStays(cfg: A.Config, t: Table, q: Request, k: KeyRec, p: Request, parent: string)
    requires WellFormed(q) && WellFormed(p) && Settled(cfg, t, q, k)
    ensures Settled(cfg, Get(cfg, t, p, parent).0, q, k)
  {
    if p != q && p !in t.keys && !OutOfMemory(cfg, t) && Charge(t.counts, p.region).1 {
      if q !in t.keys {
        FullStays(t.counts, p.region, q.region);
      }
    } else if p == q {
      SettledAnswers(cfg, t, q, k, parent);
    }
  }

  lemma {:induction false} SettledForever(cfg: A.Config, t: Table, q: Request, k: KeyRec, ops: Ops)
    requires WellFormed(q) && Settled(cfg, t, q, k) && Proper(ops)
    ensures Settled(cfg, After(cfg, t, ops), q, k)
  {
    match ops
    case Nil =>
    case Snoc(p, Ask(r, parent)) =>
      SettledForever(cfg, t, q, k, p);
      SettledStays(cfg, After(cfg, t, p), q, k, r, parent);
    case Snoc(p, Allocate(n)) =>
      SettledForever(cfg, t, q, k, p);
  }

  /** Once a combination has its key it keeps it, and once it is in the bucket it stays there:
      whatever any thread asks or allocates in between, the next answer is the same. */
  lemma KeysAreSticky(cfg: A.Config, t: Table, q: Request, parent: string, ops: Ops, parent': string)
    requires WellFormed(q) && Proper(ops)
    ensures var (t1, k) := Get(cfg, t, q, parent);
            Get(cfg, After(cfg, t1, ops), q, parent').1 == k
  {
    var (t1, k) := Get(cfg, t, q, parent);
    GetSettles(cfg, t, q, parent);
    SettledForever(cfg, t1, q, k, ops);
    SettledAnswers(cfg, After(cfg, t1, ops), q, k, parent');
  }

  /** Two requests share a key of their own only if they are the same request. */
  lemma KeysSeparate(cfg: A.Config, ops: Ops, p: Request, q: Request)
    requires Proper(ops)
    requires var t := After(cfg, EMPTY, ops); p in t.keys && q in t.keys && t.keys[p] == t.keys[q]
    ensures p == q
  {
    ReachableOk(cfg, ops);
  }
}
