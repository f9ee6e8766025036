/**
 The client's callbacks as they are written: thread records and globals updated in place.
 Each callback is proved to take the step of the state machine in `Attribution`, so every
 property of runs proved there is a property of this code.
 */
module Client {
  import opened Options
  import opened Sums
  import opened Attribution
  import opened Reports

  class ThreadRec {
    ghost const pos: nat          // position in the client's thread list
    const index: nat              // slot in the per-key array tables
    var total: nat
    var cur: Place
    var followed: Place
    var alive: bool
    var stack: seq<Frame>         // the open frames, outermost first
    var stats: map<Key, KStats>
    var trace: seq<TraceRec>

    ghost function View(): Thread
      reads this
    {
      Thread(total, cur, followed, index, alive, stack, stats, trace)
    }

    constructor (ghost pos: nat, index: nat)
      ensures this.pos == pos
      ensures View() == Thread(0, Dummy, Dummy, index, true, [], map[], [])
    {
      this.pos, this.index := pos, index;
      total, cur, followed, alive, stack := 0, Dummy, Dummy, true, [];
      stats, trace := map[], [];
    }

    method SetCur(p: Place)
      modifies this`cur, this`followed
      ensures View() == Attribution.SetCur(old(View()), p)
    {
      cur, followed := p, p;
    }

    method Steer(p: Place)
      modifies this`cur, this`followed
      ensures View() == Attribution.Steer(old(View()), p)
    {
      if cur == followed {
        cur, followed := p, p;
      }
    }

    /** Close the top frame: statistics, pop, and the parent's children count. */
    method CloseTop(seqEnd: nat, implicit: bool) returns (rec: TraceRec)
      requires stack != []
      modifies this`stack, this`stats
      ensures rec == ClosingRec(old(View()), seqEnd, implicit)
      ensures View() == Popped(old(View()), seqEnd, implicit)
    {
      var d := |stack| - 1;
      var f := stack[d];
      var incl := total - f.totalAtBegin;
      var self := incl - f.childrenIncl;
      rec := TraceRec(f.key, f.seqBegin, seqEnd, f.totalAtBegin, incl, self, implicit);
      var s := if f.key in stats then stats[f.key] else FRESH_STATS;
      stats := stats[f.key := AddToStats(s, incl, self, implicit)];
      stack := stack[..d];
      if d > 0 {
        stack := stack[d - 1 := stack[d - 1].(childrenIncl := stack[d - 1].childrenIncl + incl)];
      }
    }

    /** The innermost open frame of `region`, or -1. */
    method Find(region: string) returns (i: int)
      ensures i == FindFrame(stack, region)
    {
      i := |stack| - 1;
      while i >= 0
        invariant -1 <= i < |stack|
        invariant FindFrame(stack[..i + 1], region) == FindFrame(stack, region)
      {
        assert stack[..i + 1][..i] == stack[..i];
        if stack[i].key.region == region { return; }
        i := i - 1;
      }
    }
  }

  function Added(a: seq<nat>, slot: nat, n: nat): seq<nat>
    requires slot < |a|
  {
    var v: nat := a[slot] + n;
    a[slot := v]
  }

  class Profiler {
    const cfg: Config
    var threads: seq<ThreadRec>   // creation order; the list itself is walked newest first
    var leader: ThreadRec?
    var shared: Option<Key>
    var arrays: map<(Key, nat), seq<nat>>
    var dummy: seq<nat>
    var counterBytes: nat
    var denied: nat
    var seqCounter: nat
    var traceRecords: nat
    var traceDropped: nat
    var unmatchedEnds: nat
    var depthOverflows: nat

    ghost var model: State        // the state of the machine in `Attribution`

    ghost predicate Valid()
      reads this, threads
    {
      && |model.threads| == |threads|
      && (forall i :: 0 <= i < |threads| ==> threads[i].pos == i && threads[i].View() == model.threads[i])
      && (leader != null ==> leader in threads)
      && model.leader == (if leader == null then None else Some(leader.pos))
      && model.shared == shared && model.arrays == arrays && model.dummy == dummy
      && model.counterBytes == counterBytes && model.denied == denied && model.seqCounter == seqCounter
      && model.traceRecords == traceRecords && model.traceDropped == traceDropped
      && model.unmatchedEnds == unmatchedEnds && model.depthOverflows == depthOverflows
    }

    constructor (cfg: Config)
      ensures Valid() && this.cfg == cfg && model == Initial(cfg)
    {
      this.cfg := cfg;
      threads, leader, shared, arrays, dummy := [], null, None, map[], Zeros(cfg.maxSlots);
      counterBytes, denied, seqCounter, traceRecords, traceDropped := 0, 0, 0, 0, 0;
      unmatchedEnds, depthOverflows := 0, 0;
      model := Initial(cfg);
    }

    method SlotsFor(k: Option<Key>, i: nat) returns (p: Place)
      requires Valid()
      modifies this`arrays, this`counterBytes, this`denied, this`model
      ensures Valid() && (model, p) == Attribution.SlotsFor(cfg, old(model), k, i)
    {
      model := Attribution.SlotsFor(cfg, model, k, i).0;
      if k == None {
        return Dummy;
      }
      if (k.value, i) in arrays {
        return Slots(k.value, i);
      }
      if counterBytes + ArrayBytes(cfg) > COUNTER_BUDGET {
        denied := denied + 1;
        return Dummy;
      }
      arrays := arrays[(k.value, i) := Zeros(cfg.maxSlots)];
      counterBytes := counterBytes + ArrayBytes(cfg);
      p := Slots(k.value, i);
    }

    method TraceAppend(th: ThreadRec, rec: TraceRec)
      requires Valid() && th in threads
      modifies this`traceRecords, this`traceDropped, this`model, th`trace
      ensures Valid() && model == Traced(cfg, old(model), th.pos, rec)
    {
      model := Traced(cfg, model, th.pos, rec);
      if cfg.traceLimit > 0 {
        traceRecords := traceRecords + 1;
        if traceRecords > cfg.traceLimit {
          traceDropped := traceDropped + 1;
        } else {
          th.trace := th.trace + [rec];
        }
      }
    }

    /** Close the top frame of `th`: its own record, then the global trace limit. */
    method CloseFrame(th: ThreadRec, seqEnd: nat, implicit: bool)
      requires Valid() && th in threads && th.stack != []
      modifies this`traceRecords, this`traceDropped, this`model, th`stack, th`stats, th`trace
      ensures Valid() && model == Attribution.CloseFrame(cfg, old(model), th.pos, seqEnd, implicit)
      ensures |th.stack| == |old(th.stack)| - 1
    {
      var rec := th.CloseTop(seqEnd, implicit);
      model := Put(model, th.pos, Popped(model.threads[th.pos], seqEnd, implicit));
      TraceAppend(th, rec);
    }

    method CloseAbove(th: ThreadRec, d: nat, seqEnd: nat)
      requires Valid() && th in threads && d <= |th.stack|
      modifies this`traceRecords, this`traceDropped, this`model, th`stack, th`stats, th`trace
      ensures Valid() && |th.stack| == d
      ensures model == Attribution.CloseAbove(cfg, old(model), th.pos, d, seqEnd)
    {
      while |th.stack| > d
        invariant Valid() && d <= |th.stack|
        invariant Attribution.CloseAbove(cfg, model, th.pos, d, seqEnd)
               == Attribution.CloseAbove(cfg, old(model), th.pos, d, seqEnd)
      {
        CloseFrame(th, seqEnd, true);
      }
    }

    /** Point `th` at its array of the shared key, if it is idle. */
    method SteerFollower(th: ThreadRec)
      requires Valid() && th in threads
      modifies this`arrays, this`counterBytes, this`denied, this`model, th`cur, th`followed
      ensures Valid()
      ensures SteerAll(cfg, model, shared, th.pos) == SteerAll(cfg, old(model), shared, th.pos + 1)
    {
      assert th.View() == model.threads[th.pos];
      if th.alive && th.stack == [] {
        var p := SlotsFor(shared, th.index);
        th.Steer(p);
        model := Put(model, th.pos, Attribution.Steer(model.threads[th.pos], p));
      }
    }

    /** Walk the thread list, newest first, steering every idle thread. */
    method SteerFollowers()
      requires Valid()
      modifies this`arrays, this`counterBytes, this`denied, this`model, threads`cur, threads`followed
      ensures Valid() && model == SteerAll(cfg, old(model), shared, |threads|)
    {
      hide Attribution.SlotsFor, Attribution.Steer;
      ghost var steered := SteerAll(cfg, model, shared, |threads|);
      var i := |threads|;
      while i > 0
        invariant Valid() && 0 <= i <= |threads|
        invariant SteerAll(cfg, model, shared, i) == steered
      {
        i := i - 1;
        var th := threads[i];
        assert th.pos == i;
        SteerFollower(th);
      }
    }

    /** Count into the thread's array of the shared key. */
    method PointAtShared(th: ThreadRec)
      requires Valid() && th in threads
      modifies this`arrays, this`counterBytes, this`denied, this`model, th`cur, th`followed
      ensures Valid()
      ensures var (s', p) := Attribution.SlotsFor(cfg, old(model), old(model).shared, old(model).threads[th.pos].index);
              model == Put(s', th.pos, Attribution.SetCur(s'.threads[th.pos], p))
    {
      hide Attribution.SlotsFor;
      assert th.View() == model.threads[th.pos];
      var p := SlotsFor(shared, th.index);
      th.SetCur(p);
      model := Put(model, th.pos, Attribution.SetCur(model.threads[th.pos], p));
    }

    method ShareAlone(self: ThreadRec?)
      requires Valid() && (self != null ==> self in threads)
      modifies this`arrays, this`counterBytes, this`denied, this`leader, this`shared, this`model
      modifies threads`cur, threads`followed
      ensures Valid()
      ensures model == Attribution.ShareAlone(cfg, old(model), if self == null then None else Some(self.pos))
    {
      assert self != null ==> self.View() == model.threads[self.pos];
      leader := if self != null && self.stack != [] then self else null;
      model := model.(leader := if leader == null then None else Some(leader.pos));
      shared := if leader != null then Some(leader.stack[|leader.stack| - 1].key) else None;
      model := model.(shared := LeaderKey(model));
      if self != null && self.stack == [] {
        PointAtShared(self);
      }
    }

    /** A dead leader is deposed; a vacancy goes to `self` if it has an open region. */
    method Elect(self: ThreadRec?)
      requires Valid() && (self != null ==> self in threads)
      modifies this`leader, this`model
      ensures Valid() && model == Attribution.Elect(old(model), if self == null then None else Some(self.pos))
    {
      assert self != null ==> self.View() == model.threads[self.pos];
      assert leader != null ==> leader.View() == model.threads[leader.pos];
      model := Attribution.Elect(model, if self == null then None else Some(self.pos));
      if leader != null && !leader.alive {
        leader := null;
      }
      if leader == null && self != null && self.stack != [] {
        leader := self;
      }
    }

    method ShareAmong(self: ThreadRec?)
      requires Valid() && (self != null ==> self in threads)
      modifies this`arrays, this`counterBytes, this`denied, this`leader, this`shared, this`model
      modifies threads`cur, threads`followed
      ensures Valid()
      ensures model == Attribution.ShareAmong(cfg, old(model), if self == null then None else Some(self.pos))
    {
      Elect(self);
      var nk := if leader != null && leader.stack != [] then Some(leader.stack[|leader.stack| - 1].key) else None;
      assert nk == LeaderKey(model) by {
        assert leader != null ==> leader.View() == model.threads[leader.pos];
      }
      if nk != shared {
        shared := nk;
        model := model.(shared := nk);
        SteerFollowers();
      }
    }

    /** Leader bookkeeping; `self` is null when a thread exited. */
    method UpdateShared(self: ThreadRec?)
      requires Valid() && (self != null ==> self in threads)
      modifies this`arrays, this`counterBytes, this`denied, this`leader, this`shared, this`model
      modifies threads`cur, threads`followed
      ensures Valid()
      ensures model == Attribution.UpdateShared(cfg, old(model), if self == null then None else Some(self.pos))
    {
      if |threads| <= 1 {
        ShareAlone(self);
      } else {
        ShareAmong(self);
      }
    }

    // -------------------------------------------------------------- the callbacks

    /** A counted basic block: the thread's total and one counter of its current array. */
    method ExecBlock(th: ThreadRec, slot: nat, n: nat)
      requires Valid() && th in threads
      modifies this`arrays, this`dummy, this`model, th`total
      ensures Valid() && model == Attribution.ExecBlock(old(model), th.pos, slot, n)
    {
      ghost var before := model;
      th.total := th.total + n;
      Bump(th.cur, slot, n);
      model := Attribution.ExecBlock(before, th.pos, slot, n);
    }

    /** Add to one counter of an array, unless the slot is beyond its end. */
    method Bump(p: Place, slot: nat, n: nat)
      modifies this`arrays, this`dummy
      ensures dummy == if p.Dummy? && slot < |old(dummy)| then old(dummy)[slot := old(dummy)[slot] + n] else old(dummy)
      ensures arrays == match p
                        case Dummy => old(arrays)
                        case Slots(k, i) =>
                          if (k, i) in old(arrays) && slot < |old(arrays)[(k, i)]|
                          then old(arrays)[(k, i) := Added(old(arrays)[(k, i)], slot, n)]
                          else old(arrays)
    {
      match p {
        case Dummy =>
          if slot < |dummy| {
            dummy := dummy[slot := dummy[slot] + n];
          }
        case Slots(k, i) =>
          if (k, i) in arrays && slot < |arrays[(k, i)]| {
            arrays := arrays[(k, i) := Added(arrays[(k, i)], slot, n)];
          }
      }
    }

    /** Push a frame for `k` numbered `sq`, counting into its array from now on. */
    method Push(th: ThreadRec, k: Key, sq: nat)
      requires Valid() && th in threads
      modifies this`arrays, this`counterBytes, this`denied, this`model, th`stack, th`cur, th`followed
      ensures Valid() && model == Attribution.Push(cfg, old(model), th.pos, k, sq)
    {
      assert th.View() == model.threads[th.pos];
      var p := SlotsFor(Some(k), th.index);
      var f := Frame(k, p, th.total, 0, sq);
      th.stack := th.stack + [f];
      th.SetCur(p);
      var was := model.threads[th.pos];
      model := Put(model, th.pos, Attribution.SetCur(was.(stack := was.stack + [f]), p));
    }

    method Tick() returns (sq: nat)
      requires Valid()
      modifies this`seqCounter, this`model
      ensures Valid() && model == Attribution.Tick(cfg, old(model)) && sq == Ticket(cfg, model)
    {
      model := Attribution.Tick(cfg, model);
      sq := 0;
      if cfg.traceLimit > 0 {
        seqCounter := seqCounter + 1;
        sq := seqCounter;
      }
    }

    lemma LeaderIs(th: ThreadRec)
      requires Valid() && th in threads
      ensures leader == th <==> model.leader == Some(th.pos)
      ensures leader == null <==> model.leader == None
    {
    }

    method Begin(th: ThreadRec, k: Key)
      requires Valid() && th in threads
      modifies this, threads`cur, threads`followed, th`stack
      ensures Valid() && threads == old(threads)
      ensures model == Attribution.Begin(cfg, old(model), th.pos, k)
    {
      hide Attribution.UpdateShared, Attribution.Push;
      assert th.View() == model.threads[th.pos];
      if |th.stack| >= MAX_DEPTH {
        depthOverflows := depthOverflows + 1;
        model := model.(depthOverflows := model.depthOverflows + 1);
        return;
      }
      var sq := Tick();
      Push(th, k, sq);
      LeaderIs(th);
      if leader == null || leader == th {
        UpdateShared(th);
      }
    }

    method Repoint(th: ThreadRec)
      requires Valid() && th in threads
      modifies this`arrays, this`counterBytes, this`denied, this`model, th`cur, th`followed
      ensures Valid() && model == Attribution.Repoint(cfg, old(model), th.pos)
    {
      assert th.View() == model.threads[th.pos];
      if th.stack == [] {
        PointAtShared(th);
        return;
      }
      var p := th.stack[|th.stack| - 1].cur;
      th.SetCur(p);
      model := Put(model, th.pos, Attribution.SetCur(model.threads[th.pos], p));
    }

    /** Close frame `i` of `th`, and implicitly those above it. */
    method CloseFrom(th: ThreadRec, i: nat, seqEnd: nat)
      requires Valid() && th in threads && i < |th.stack|
      modifies this`traceRecords, this`traceDropped, this`model, th`stack, th`stats, th`trace
      ensures Valid() && model == Attribution.CloseFrom(cfg, old(model), th.pos, i, seqEnd)
    {
      assert th.View() == model.threads[th.pos];
      CloseAbove(th, i + 1, seqEnd);
      CloseFrame(th, seqEnd, false);
    }

    /** Number this end, close frame `i`, and count into what is now innermost. */
    method Finish(th: ThreadRec, i: nat)
      requires Valid() && th in threads && i < |th.stack|
      modifies this, th`cur, th`followed, th`stack, th`stats, th`trace
      ensures Valid() && threads == old(threads) && i < |old(model).threads[th.pos].stack|
      ensures model == Attribution.Finish(cfg, old(model), th.pos, i)
    {
      assert th.View() == model.threads[th.pos];
      var sq := Tick();
      CloseFrom(th, i, sq);
      Repoint(th);
    }

    method End(th: ThreadRec, region: string)
      requires Valid() && th in threads
      modifies this, threads`cur, threads`followed, th`stack, th`stats, th`trace
      ensures Valid() && threads == old(threads)
      ensures model == Attribution.End(cfg, old(model), th.pos, region)
    {
      hide Attribution.UpdateShared, Attribution.Finish, FindFrame;
      assert th.View() == model.threads[th.pos];
      var i := th.Find(RegionName(region));
      if i < 0 {
        unmatchedEnds := unmatchedEnds + 1;
        model := model.(unmatchedEnds := model.unmatchedEnds + 1);
        return;
      }
      Finish(th, i);
      LeaderIs(th);
      if leader == th {
        UpdateShared(th);
      }
    }

    method ThreadInit() returns (th: ThreadRec)
      requires Valid()
      modifies this`threads, this`arrays, this`counterBytes, this`denied, this`model
      ensures Valid() && fresh(th) && threads == old(threads) + [th]
      ensures model == Attribution.ThreadInit(cfg, old(model))
    {
      hide Attribution.SlotsFor;
      var i := if |threads| < MAX_THREADS then |threads| else MAX_THREADS - 1;
      th := new ThreadRec(|threads|, i);
      ghost var s := model;
      var p := SlotsFor(shared, i);
      assert model.threads == s.threads;
      th.SetCur(p);
      threads := threads + [th];
      model := model.(threads := model.threads + [th.View()]);
    }

    /** Close every frame of `th` and mark it dead. */
    method Retire(th: ThreadRec, seqEnd: nat)
      requires Valid() && th in threads
      modifies this`traceRecords, this`traceDropped, this`model, th`stack, th`stats, th`trace, th`alive
      ensures Valid() && model == Attribution.Retire(cfg, old(model), th.pos, seqEnd)
    {
      CloseAbove(th, 0, seqEnd);
      assert th.View() == model.threads[th.pos];
      th.alive := false;
      model := Put(model, th.pos, model.threads[th.pos].(alive := false));
    }

    method ThreadExit(th: ThreadRec)
      requires Valid() && th in threads
      modifies this, threads`cur, threads`followed, th`stack, th`stats, th`trace, th`alive
      ensures Valid() && threads == old(threads)
      ensures model == Attribution.ThreadExit(cfg, old(model), th.pos)
    {
      hide Attribution.UpdateShared, Attribution.Retire;
      assert th.View() == model.threads[th.pos];
      seqCounter := seqCounter + 1;
      model := model.(seqCounter := model.seqCounter + 1);
      Retire(th, seqCounter);
      LeaderIs(th);
      if leader == th {
        UpdateShared(null);
      }
    }

    /** Statistics of `k` merged over all threads, as the report prints them. */
    method MergeStats(k: Key) returns (out: KStats)
      requires Valid()
      ensures out == Reports.MergeStats(model.threads, k)
    {
      ghost var ths := model.threads;
      out := FRESH_STATS;
      MergeBounds(ths, k);
      CombineFresh(MergeActive(ths, k));
      assert ths[..|ths|] == ths;
      var i := |threads|;
      while i > 0
        invariant 0 <= i <= |threads|
        invariant InRange(out)
        invariant Combine(MergeActive(ths[..i], k), out) == MergeActive(ths, k)
      {
        i := i - 1;
        assert threads[i].View() == ths[i] && ths[..i + 1][..i] == ths[..i];
        var s := if k in threads[i].stats then threads[i].stats[k] else FRESH_STATS;
        if s.count != 0 {
          CombineAssoc(MergeActive(ths[..i], k), s, out);
          out := Combine(s, out);
        }
      }
      assert MergeActive(ths[..0], k) == FRESH_STATS;
      CombineFresh(out);
      if out.count == 0 {
        out := out.(inclMin := 0, selfMin := 0);
      }
    }
  }
}
