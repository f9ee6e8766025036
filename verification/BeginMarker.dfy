/**
 A begin marker as the client runs it: the key is looked up through the thread's caches, and the
 frame is pushed under it. One call is the step that `RequestRuns` takes for the marker.
 */
module BeginMarker {
  import opened Attribution
  import opened KeyEncoding
  import opened RequestRuns
  import K = KeyTable
  import KeyCache
  import Client

  lemma BytesFile(t: K.Table, filed: map<string, K.KeyRec>, bytes: nat)
    requires K.TableOk(t) && KeyCache.Files(t, filed)
    ensures K.TableOk(t.(bytes := bytes)) && KeyCache.Files(t.(bytes := bytes), filed)
  {
    hide K.TableOk;
    BytesOk(t, bytes);
    KeyCache.FilesIgnores(t, t.(bytes := bytes), filed);
  }

  lemma BytesFast(t: K.Table, fast: seq<KeyCache.FastSlot>, bytes: nat)
    requires KeyCache.FastOk(t, fast)
    ensures KeyCache.FastOk(t.(bytes := bytes), fast)
  {
    forall h | 0 <= h < |fast| ensures KeyCache.Remembered(t.(bytes := bytes), fast[h]) {
      assert KeyCache.Remembered(t, fast[h]);
    }
  }

  /** The two tables share one count of allocated bytes. */
  method Allocated(g: KeyCache.Registry, c: KeyCache.ThreadCache, bytes: nat)
    requires g.Valid() && c.Valid(g)
    modifies g`counterBytes, g`table
    ensures g.Valid() && c.Valid(g)
    ensures g.table == old(g.table).(bytes := bytes) && g.counterBytes == bytes
  {
    hide K.TableOk, KeyCache.Files, KeyCache.FastOk;
    BytesFile(g.table, g.filed, bytes);
    BytesFast(g.table, c.fast[..], bytes);
    g.counterBytes := bytes;
    g.table := g.table.(bytes := bytes);
  }

  method BeginCommon(p: Client.Profiler, th: Client.ThreadRec, g: KeyCache.Registry, c: KeyCache.ThreadCache,
                     region: string, names: seq<string>, vals: seq<int>)
    requires p.Valid() && th in p.threads && g.Valid() && c.Valid(g)
    requires g.cfg == p.cfg && g.counterBytes == p.counterBytes
    requires CallEnabled(p.cfg, p.model, Marker(th.pos, region, names, vals))
    requires WellFormed(RequestOf(th.stack, region, names, vals))
    modifies p, p.threads`cur, p.threads`followed, th`stack, g, c, c.fast
    ensures p.Valid() && p.threads == old(p.threads) && g.Valid() && c.Valid(g)
    ensures g.counterBytes == p.counterBytes
    ensures var w := StepWhole(p.cfg, Whole(old(p.model), old(g.table), []), Marker(th.pos, region, names, vals));
            p.model == w.s && g.table == w.table
  {
    hide Attribution.Begin, K.Get, K.TableOk, KeyCache.Files, KeyCache.FastOk, KeyCache.CacheOk, WellFormed;
    hide KeyCache.Cached, KeyCache.Extends;
    assert th.View() == p.model.threads[th.pos];
    var name := if region == "" then UNNAMED else region;
    if |th.stack| >= MAX_DEPTH {
      p.Begin(th, Key(0, name));
      Allocated(g, c, p.counterBytes);
      return;
    }
    var parent := if |th.stack| > 0 then th.stack[|th.stack| - 1].key.region else "";
    var root := if |th.stack| > 0 then th.stack[0].key.region else "";
    var k := c.GetKey(g, Request(name, names, vals, root), parent);
    p.Begin(th, Key(k.index, k.region));
    Allocated(g, c, p.counterBytes);
  }
}
