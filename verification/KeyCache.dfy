/**
 The client's lookup of a region key: a content-hashed array in front of a per-thread table in
 front of the shared table.  Whatever the caches hold, the answer is the one the plain map
 in `KeyTable` gives.
 */
module KeyCache {
  import opened Options
  import opened Fnv
  import opened KeyEncoding
  import opened KeyTable
  import A = Attribution

  const FAST_SLOTS: nat := 512

  /** A slot of the array: the hash it was filled under, and the key (None: never filled). */
  datatype FastSlot = FastSlot(hash: nat, key: Option<KeyRec>)

  /** Does this key describe exactly this request?  Buckets never do. */
  predicate KeyMatches(k: KeyRec, q: Request)
    requires |q.names| == |q.vals|
  {
    var want := Declared(q);
    && !k.overflow && |k.kname| == |k.kval| == want && k.region == q.region && k.root == q.root
    && forall i :: 0 <= i < want ==> k.kval[i] == q.vals[i] && k.kname[i] == q.names[i]
  }

  // ---------------------------------------------------------------- what the caches hold

  ghost predicate FiledKey(t: Table, s: string) {
    exists q :: q in t.keys && |q.names| == |q.vals| && Encode(q) == s
  }

  ghost predicate FiledBucket(t: Table, s: string) {
    exists r :: r in t.others && EncodeOther(r) == s
  }

  ghost predicate KeysFiled(t: Table, filed: map<string, KeyRec>) {
    forall q :: q in t.keys ==> |q.names| == |q.vals| && Encode(q) in filed && filed[Encode(q)] == t.keys[q]
  }

  ghost predicate BucketsFiled(t: Table, filed: map<string, KeyRec>) {
    forall r :: r in t.others ==> EncodeOther(r) in filed && filed[EncodeOther(r)] == t.others[r]
  }

  ghost predicate NothingElseFiled(t: Table, filed: map<string, KeyRec>) {
    forall s :: s in filed ==> FiledKey(t, s) || FiledBucket(t, s)
  }

  /** The shared string table files exactly the keys and buckets of the plain map. */
  ghost predicate Files(t: Table, filed: map<string, KeyRec>) {
    KeysFiled(t, filed) && BucketsFiled(t, filed) && NothingElseFiled(t, filed)
  }

  /** A filled slot holds a bucket, or the key of some request that hashes to the slot's hash. */
  ghost predicate Remembered(t: Table, slot: FastSlot) {
    slot.key.Some? ==>
      || slot.key.value.overflow
      || exists q :: q in t.keys && t.keys[q] == slot.key.value && |q.names| == |q.vals| && Hash(q) == slot.hash
  }

  ghost predicate FastOk(t: Table, fast: seq<FastSlot>) {
    forall h :: 0 <= h < |fast| ==> Remembered(t, fast[h])
  }

  /** A thread's own table repeats entries of the shared one. */
  ghost predicate CacheOk(filed: map<string, KeyRec>, cache: map<string, KeyRec>) {
    forall s :: s in cache ==> s in filed && filed[s] == cache[s]
  }

  /** Nothing already filed is refiled. */
  ghost predicate Extends(t: Table, filed: map<string, KeyRec>, t': Table, filed': map<string, KeyRec>) {
    && (forall q :: q in t.keys ==> q in t'.keys && t'.keys[q] == t.keys[q])
    && (forall s :: s in filed ==> s in filed' && filed'[s] == filed[s])
  }

  /** Another thread's new keys leave this thread's caches right. */
  lemma CachesSurvive(t: Table, filed: map<string, KeyRec>, t': Table, filed': map<string, KeyRec>,
                      fast: seq<FastSlot>, cache: map<string, KeyRec>)
    requires Extends(t, filed, t', filed') && FastOk(t, fast) && CacheOk(filed, cache)
    ensures FastOk(t', fast) && CacheOk(filed', cache)
  {
    forall h | 0 <= h < |fast| ensures Remembered(t', fast[h]) {
      assert Remembered(t, fast[h]);
    }
  }

  // ---------------------------------------------------------------- the three levels

  /** Level one: a slot that hashes alike and matches holds this very request's key. */
  lemma FastHit(t: Table, slot: FastSlot, q: Request)
    requires KeysOk(t) && WellFormed(q) && Remembered(t, slot) && slot.key.Some? && slot.hash == Hash(q)
    requires KeyMatches(slot.key.value, q)
    ensures q in t.keys && t.keys[q] == slot.key.value
  {
    hide Hash;
    var k := slot.key.value;
    var p :| p in t.keys && t.keys[p] == k && |p.names| == |p.vals| && Hash(p) == slot.hash;
    assert WellFormed(p) && Describes(k, p);
    SameDeclaration(p, q, k);
    if Declared(q) == 0 {
      assert p.names == [""] == q.names;
      UnnamedHashInjective(p, q);
    }
    assert p == q;
  }

  lemma SameDeclaration(p: Request, q: Request, k: KeyRec)
    requires WellFormed(p) && WellFormed(q) && Describes(k, p) && KeyMatches(k, q)
    ensures p.region == q.region && p.root == q.root && Declared(p) == Declared(q)
    ensures Declared(q) > 0 ==> p.names == q.names && p.vals == q.vals
  {
    assert Declared(p) == Declared(q) == |k.kname|;
    if Declared(q) > 0 {
      assert |p.names| == |q.names| == |k.kname|;
      assert p.names == k.kname && p.vals == k.kval;
      forall i | 0 <= i < |p.names| ensures p.names[i] == q.names[i] && p.vals[i] == q.vals[i] {
        assert k.kname[i] == q.names[i] && k.kval[i] == q.vals[i];
      }
    }
  }

  /** Levels two and three: a text is filed exactly for the requests that have a key. */
  lemma FiledIffKeyed(t: Table, filed: map<string, KeyRec>, q: Request)
    requires TableOk(t) && Files(t, filed) && WellFormed(q)
    ensures Encode(q) in filed <==> q in t.keys
    ensures q in t.keys ==> filed[Encode(q)] == t.keys[q]
  {
    hide Encode, EncodeOther;
    if Encode(q) in filed {
      if FiledKey(t, Encode(q)) {
        var p :| p in t.keys && |p.names| == |p.vals| && Encode(p) == Encode(q);
        EncodeInjective(p, q);
      } else {
        var r :| r in t.others && EncodeOther(r) == Encode(q);
        NoCollisionWithOther(q, r);
      }
    }
  }

  lemma FiledIffBucket(t: Table, filed: map<string, KeyRec>, region: string)
    requires TableOk(t) && Files(t, filed) && |region| < RNAME_MAX && Plain(region)
    ensures EncodeOther(region) in filed <==> region in t.others
    ensures region in t.others ==> filed[EncodeOther(region)] == t.others[region]
  {
    hide Encode, EncodeOther;
    if EncodeOther(region) in filed {
      if FiledKey(t, EncodeOther(region)) {
        var p :| p in t.keys && |p.names| == |p.vals| && Encode(p) == EncodeOther(region);
        NoCollisionWithOther(p, region);
      } else {
        var r :| r in t.others && EncodeOther(r) == EncodeOther(region);
        EncodeOtherInjective(r, region);
      }
    }
  }

  lemma KeyFiled(t: Table, filed: map<string, KeyRec>, q: Request, k: KeyRec)
    requires TableOk(t) && Files(t, filed) && WellFormed(q) && q !in t.keys
    ensures Files(t.(keys := t.keys[q := k]), filed[Encode(q) := k])
    ensures Encode(q) !in filed
  {
    hide Encode, EncodeOther, TableOk, FiledKey, FiledBucket, NothingElseFiled;
    FiledIffKeyed(t, filed, q);
    var t', filed' := t.(keys := t.keys[q := k]), filed[Encode(q) := k];
    KeyFiledOnly(t, filed, q, k);
  }

  lemma KeyFiledOnly(t: Table, filed: map<string, KeyRec>, q: Request, k: KeyRec)
    requires NothingElseFiled(t, filed) && |q.names| == |q.vals|
    ensures NothingElseFiled(t.(keys := t.keys[q := k]), filed[Encode(q) := k])
  {
    hide Encode, EncodeOther;
    var t', filed' := t.(keys := t.keys[q := k]), filed[Encode(q) := k];
    forall s | s in filed' ensures FiledKey(t', s) || FiledBucket(t', s) {
      if s == Encode(q) {
        assert q in t'.keys;
      } else if FiledKey(t, s) {
        var p :| p in t.keys && |p.names| == |p.vals| && Encode(p) == s;
        assert p in t'.keys;
      } else {
        assert FiledBucket(t, s);
      }
    }
  }

  lemma BucketFiled(t: Table, filed: map<string, KeyRec>, region: string, k: KeyRec)
    requires TableOk(t) && Files(t, filed) && |region| < RNAME_MAX && Plain(region) && region !in t.others
    ensures Files(t.(others := t.others[region := k]), filed[EncodeOther(region) := k])
    ensures EncodeOther(region) !in filed
  {
    hide Encode, EncodeOther, TableOk, FiledKey, FiledBucket, NothingElseFiled;
    FiledIffBucket(t, filed, region);
    BucketFiledOnly(t, filed, region, k);
  }

  lemma BucketFiledOnly(t: Table, filed: map<string, KeyRec>, region: string, k: KeyRec)
    requires NothingElseFiled(t, filed)
    ensures NothingElseFiled(t.(others := t.others[region := k]), filed[EncodeOther(region) := k])
  {
    hide Encode, EncodeOther;
    var t', filed' := t.(others := t.others[region := k]), filed[EncodeOther(region) := k];
    forall s | s in filed' ensures FiledKey(t', s) || FiledBucket(t', s) {
      if s == EncodeOther(region) {
        assert region in t'.others;
      } else if FiledBucket(t, s) {
        var r :| r in t.others && EncodeOther(r) == s;
        assert r in t'.others;
      } else {
        assert FiledKey(t, s);
      }
    }
  }

  lemma FilesIgnores(t: Table, t': Table, filed: map<string, KeyRec>)
    requires Files(t, filed) && t'.keys == t.keys && t'.others == t.others
    ensures Files(t', filed)
  {
    assert NothingElseFiled(t', filed) by {
      forall s | s in filed ensures FiledKey(t', s) || FiledBucket(t', s) {
        assert FiledKey(t, s) || FiledBucket(t, s);
      }
    }
  }

  /** What a lookup answers may be remembered under the request's hash. */
  lemma AnswerRemembered(cfg: A.Config, t: Table, q: Request, parent: string)
    requires TableOk(t) && WellFormed(q)
    ensures var (t', k) := Get(cfg, t, q, parent); Remembered(t', FastSlot(Hash(q), Some(k)))
  {
    hide Hash;
    var (t', k) := Get(cfg, t, q, parent);
    if q in t'.keys && t'.keys[q] == k {
    } else {
      assert k.overflow;
    }
  }

  lemma RememberOk(t: Table, fast: seq<FastSlot>, h: nat, slot: FastSlot)
    requires h < |fast| && FastOk(t, fast) && Remembered(t, slot)
    ensures FastOk(t, fast[h := slot])
  {
  }

  // ---------------------------------------------------------------- the hash

  method ComputeHash(q: Request) returns (hv: nat)
    requires |q.names| == |q.vals|
    ensures hv == Hash(q)
  {
    hv := MixString(BASIS, q.region);
    hv := MixString(hv, q.root);
    ghost var h := hv;
    for i := 0 to |q.names|
      invariant hv == HashStates(h, q.names[..i], q.vals[..i])
    {
      assert q.names[..i + 1][..i] == q.names[..i] && q.vals[..i + 1][..i] == q.vals[..i];
      hv := MixString(hv, q.names[i]);
      hv := Mix(hv, Unsigned(q.vals[i]));
    }
    assert q.names[..|q.names|] == q.names && q.vals[..|q.vals|] == q.vals;
  }

  method MixString(h: nat, s: string) returns (hv: nat)
    ensures hv == HashString(h, s)
  {
    hv := h;
    for i := 0 to |s|
      invariant hv == HashString(h, s[..i])
    {
      assert s[..i + 1][..i] == s[..i];
      hv := Mix(hv, s[i] as nat);
    }
    assert s[..|s|] == s;
  }

  // ---------------------------------------------------------------- the shared table

  class Registry {
    const cfg: A.Config
    var filed: map<string, KeyRec>
    var keys: seq<KeyRec>            // in order of creation
    var counts: seq<(string, nat)>
    var counterBytes: nat
    ghost var table: Table

    ghost predicate Valid()
      reads this
    {
      && TableOk(table) && Files(table, filed)
      && table.nkeys == |keys| && table.counts == counts && table.bytes == counterBytes
    }

    constructor (cfg: A.Config)
      ensures Valid() && this.cfg == cfg && table == EMPTY
    {
      this.cfg := cfg;
      filed, keys, counts, counterBytes, table := map[], [], [], 0, EMPTY;
    }

    /** Linear search of the region's row, then the count. */
    method RegionKeyBudget(region: string) returns (ok: bool)
      modifies this`counts
      ensures (counts, ok) == Charge(old(counts), region)
    {
      for i := 0 to |counts|
        invariant counts == old(counts)
        invariant RowOf(counts, region) >= i
      {
        if counts[i].0 == region {
          if counts[i].1 >= KEYS_PER_REGION {
            return false;
          }
          counts := counts[i := (counts[i].0, counts[i].1 + 1)];
          return true;
        }
      }
      if |counts| < TRACKED_REGIONS {
        counts := counts + [(Truncate(region, RNAME_MAX), 1)];
      }
      return true;
    }

    /** Look the text up, or file a new key or the region's bucket; says what text it is filed under. */
    method LookupOrCreate(q: Request, parent: string, kbuf: string) returns (k: KeyRec, under: string)
      requires Valid() && WellFormed(q) && kbuf == Encode(q)
      modifies this
      ensures Valid() && (table, k) == Get(cfg, old(table), q, parent) && counterBytes == old(counterBytes)
      ensures under in filed && filed[under] == k && Texts(q, under)
      ensures Extends(old(table), old(filed), table, filed)
    {
      hide Encode, EncodeOther, TableOk, Files;
      GetOk(cfg, table, q, parent);
      FiledIffKeyed(table, filed, q);
      if kbuf in filed {
        return filed[kbuf], kbuf;
      }
      var overflow := counterBytes + A.ArrayBytes(cfg) > A.COUNTER_BUDGET;
      if !overflow {
        var ok := RegionKeyBudget(q.region);
        overflow := !ok;
      }
      if overflow {
        k, under := FileBucket(q, parent);
      } else {
        k := FileKey(q, parent);
        under := kbuf;
      }
    }

    method FileKey(q: Request, parent: string) returns (k: KeyRec)
      requires WellFormed(q) && q !in table.keys
      requires TableOk(table) && Files(table, filed)
      requires table.nkeys == |keys| && table.bytes == counterBytes && (counts, true) == Charge(table.counts, q.region)
      modifies this`filed, this`keys, this`table
      ensures k == NewKey(old(table).nkeys, q, parent) && Valid()
      ensures table == old(table).(keys := old(table).keys[q := k], counts := counts, nkeys := old(table).nkeys + 1)
      ensures Encode(q) in filed && filed[Encode(q)] == k
      ensures Extends(old(table), old(filed), table, filed)
    {
      hide Encode, EncodeOther, Charge, TableOk, Files, NewKey;
      KeyAdded(table, q, parent);
      k := NewKey(|keys|, q, parent);
      KeyFiled(table, filed, q, k);
      FilesIgnores(table.(keys := table.keys[q := k]),
                    table.(keys := table.keys[q := k], counts := counts, nkeys := table.nkeys + 1),
                    filed[Encode(q) := k]);
      keys := keys + [k];
      filed := filed[Encode(q) := k];
      table := table.(keys := table.keys[q := k], counts := counts, nkeys := table.nkeys + 1);
    }

    method FileBucket(q: Request, parent: string) returns (k: KeyRec, under: string)
      requires Valid() && WellFormed(q)
      modifies this`filed, this`keys, this`table
      ensures (table, k) == Bucket(old(table), q, parent) && Valid()
      ensures under in filed && filed[under] == k && under == EncodeOther(q.region)
      ensures Extends(old(table), old(filed), table, filed)
    {
      hide Encode, EncodeOther, TableOk, Files, NewBucket;
      BucketOk(table, q, parent);
      FiledIffBucket(table, filed, q.region);
      under := EncodeOther(q.region);
      if under in filed {
        return filed[under], under;
      }
      k := NewBucket(|keys|, q, parent);
      BucketFiled(table, filed, q.region, k);
      FilesIgnores(table.(others := table.others[q.region := k]),
                   table.(others := table.others[q.region := k], nkeys := table.nkeys + 1), filed[under := k]);
      keys := keys + [k];
      filed := filed[under := k];
      table := table.(others := table.others[q.region := k], nkeys := table.nkeys + 1);
    }
  }

  /** The texts a request can be filed under: its own, or its region's bucket's. */
  predicate Texts(q: Request, text: string)
    requires |q.names| == |q.vals|
  {
    text == Encode(q) || text == EncodeOther(q.region)
  }

  // ---------------------------------------------------------------- a thread's caches

  /** The slot holds this very request's key. */
  predicate Hits(slot: FastSlot, q: Request)
    requires |q.names| == |q.vals|
  {
    slot.hash == Hash(q) && slot.key.Some? && KeyMatches(slot.key.value, q)
  }

  /** The slot of the request's hash holds its key; the thread's table is as it was, or has one text of the
      request more, and has one unless the slot held the key before. */
  ghost predicate Cached(slots: seq<FastSlot>, slots': seq<FastSlot>, cache: map<string, KeyRec>,
                         cache': map<string, KeyRec>, q: Request, k: KeyRec)
    requires |q.names| == |q.vals| && |slots| == FAST_SLOTS
  {
    var h := Hash(q) % FAST_SLOTS;
    && slots' == slots[h := FastSlot(Hash(q), Some(k))]
    && (cache' == cache || exists text :: Texts(q, text) && text !in cache && cache' == cache[text := k])
    && (!Hits(slots[h], q) ==> exists text :: Texts(q, text) && text in cache')
  }

  class ThreadCache {
    const fast: array<FastSlot>
    var cache: map<string, KeyRec>

    ghost predicate Valid(g: Registry)
      reads this, fast, g
    {
      fast.Length == FAST_SLOTS && FastOk(g.table, fast[..]) && CacheOk(g.filed, cache)
    }

    constructor (g: Registry)
      ensures Valid(g) && fresh(fast)
    {
      fast := new FastSlot[FAST_SLOTS](_ => FastSlot(0, None));
      cache := map[];
    }

    method Remember(h: nat, hv: nat, k: KeyRec)
      requires h < fast.Length
      modifies fast
      ensures fast[..] == old(fast[..])[h := FastSlot(hv, Some(k))]
    {
      fast[h] := FastSlot(hv, Some(k));
    }

    /** The key of a request, through the array, the thread's table and the shared table. */
    method GetKey(g: Registry, q: Request, parent: string) returns (k: KeyRec)
      requires g.Valid() && Valid(g) && WellFormed(q)
      modifies g, this, fast
      ensures g.Valid() && Valid(g)
      ensures (g.table, k) == Get(g.cfg, old(g.table), q, parent)
      ensures Extends(old(g.table), old(g.filed), g.table, g.filed)
      ensures Cached(old(fast[..]), fast[..], old(cache), cache, q, k)
    {
      hide Hash, Encode, EncodeOther, Get, Files, TableOk, Remembered, KeyMatches, Extends;
      Unchanged(g.table, g.filed);
      AnswerRemembered(g.cfg, g.table, q, parent);
      var hv := ComputeHash(q);
      var h := hv % FAST_SLOTS;
      var slot := fast[h];
      if slot.hash == hv && slot.key.Some? && KeyMatches(slot.key.value, q) {
        HitAnswers(g.cfg, g.table, slot, q, parent);
        return slot.key.value;
      }
      var kbuf := Encode(q);
      if kbuf in cache {
        k := cache[kbuf];
        CachedAnswers(g.cfg, g.table, g.filed, q, parent);
        RememberOk(g.table, fast[..], h, FastSlot(hv, Some(k)));
        Remember(h, hv, k);
        return;
      }
      ghost var t, f, slots := g.table, g.filed, fast[..];
      var under;
      k, under := g.LookupOrCreate(q, parent, kbuf);
      CachesSurvive(t, f, g.table, g.filed, slots, cache);
      if under !in cache {
        cache := cache[under := k];
      }
      RememberOk(g.table, slots, h, FastSlot(hv, Some(k)));
      Remember(h, hv, k);
    }
  }

  lemma Unchanged(t: Table, filed: map<string, KeyRec>)
    ensures Extends(t, filed, t, filed)
  {
  }

  lemma HitAnswers(cfg: A.Config, t: Table, slot: FastSlot, q: Request, parent: string)
    requires TableOk(t) && WellFormed(q) && Remembered(t, slot) && slot.key.Some? && slot.hash == Hash(q)
    requires KeyMatches(slot.key.value, q)
    ensures Get(cfg, t, q, parent) == (t, slot.key.value)
  {
    FastHit(t, slot, q);
  }

  lemma CachedAnswers(cfg: A.Config, t: Table, filed: map<string, KeyRec>, q: Request, parent: string)
    requires TableOk(t) && Files(t, filed) && WellFormed(q) && Encode(q) in filed
    ensures Get(cfg, t, q, parent) == (t, filed[Encode(q)])
  {
    FiledIffKeyed(t, filed, q);
  }
}
