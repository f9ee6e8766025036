/**
 What every step of the client keeps: where each thread's pointer points, what the
 followers follow, how the frames of a stack fit together, and how much is allocated.
 */
module AttributionInvariant {
  import opened Options
  import opened Attribution

  // ---------------------------------------------------------------- the invariant

  ghost predicate ArraysOk(cfg: Config, s: State) {
    && s.counterBytes == |s.arrays| * ArrayBytes(cfg)
    && s.counterBytes <= COUNTER_BUDGET
    && (s.denied > 0 ==> Exhausted(cfg, s))
    && |s.dummy| == cfg.maxSlots
    && forall e :: e in s.arrays ==> |s.arrays[e]| == cfg.maxSlots
  }

  /** `p` is where a thread in slot `i` counts for target `k`: its private array of `k`
      if that exists, else the dummy, and then no array of `k` will ever be made for it. */
  ghost predicate Resolved(cfg: Config, s: State, k: Option<Key>, i: nat, p: Place) {
    match k
    case None => p == Dummy
    case Some(key) =>
      if (key, i) in s.arrays then p == Slots(key, i)
      else p == Dummy && Exhausted(cfg, s) && s.denied > 0
  }

  /** Frames nest: each one's children ran inside it, and each began before what `upTo` marks. */
  ghost predicate StackOk(stack: seq<Frame>, upTo: nat) {
    |stack| > 0 ==>
      var f := stack[|stack| - 1];
      && 0 <= f.childrenIncl <= upTo - f.totalAtBegin
      && StackOk(stack[..|stack| - 1], f.totalAtBegin)
  }

  ghost predicate ThreadOk(cfg: Config, s: State, t: nat)
    requires t < |s.threads|
  {
    var th := s.threads[t];
    && th.index == (if t < MAX_THREADS then t else MAX_THREADS - 1)
    && th.cur == th.followed
    && (!th.alive ==> th.stack == [])
    && |th.stack| <= MAX_DEPTH
    && th.total <= UINT64_MAX
    && StackOk(th.stack, th.total)
    && forall j :: 0 <= j < |th.stack| ==> Resolved(cfg, s, Some(th.stack[j].key), th.index, th.stack[j].cur)
  }

  /** The region a thread's instructions belong to: its own innermost one, else the shared one. */
  function Target(s: State, th: Thread): Option<Key> {
    if th.stack != [] then TopKey(th.stack) else s.shared
  }

  ghost predicate PointerOk(cfg: Config, s: State, t: nat)
    requires t < |s.threads|
  {
    var th := s.threads[t];
    th.alive ==> Resolved(cfg, s, Target(s, th), th.index, th.cur)
  }

  ghost predicate LeaderOk(s: State) {
    && (s.leader.Some? ==> s.leader.value < |s.threads| && s.threads[s.leader.value].alive)
    && s.shared == LeaderKey(s)
  }

  ghost predicate Base(cfg: Config, s: State) {
    && ArraysOk(cfg, s)
    && forall t :: 0 <= t < |s.threads| ==> ThreadOk(cfg, s, t)
  }

  ghost predicate PointersOk(cfg: Config, s: State) {
    forall t :: 0 <= t < |s.threads| ==> PointerOk(cfg, s, t)
  }

  ghost predicate PointersOkBut(cfg: Config, s: State, x: nat) {
    forall t :: 0 <= t < |s.threads| && t != x ==> PointerOk(cfg, s, t)
  }

  ghost predicate Inv(cfg: Config, s: State) {
    Base(cfg, s) && PointersOk(cfg, s) && LeaderOk(s)
  }

  // ---------------------------------------------------------------- arrays only grow

  /** Arrays are added and never removed, and none is added once the budget is exhausted. */
  ghost predicate Grows(cfg: Config, s: State, s': State) {
    && s.arrays.Keys <= s'.arrays.Keys
    && s.counterBytes <= s'.counterBytes && s.denied <= s'.denied
    && (Exhausted(cfg, s) ==> s'.arrays.Keys == s.arrays.Keys)
  }

  /** Only the allocation part of the state differs. */
  ghost predicate SameButArrays(s: State, s': State) {
    s' == s.(arrays := s'.arrays, counterBytes := s'.counterBytes, denied := s'.denied)
  }

  lemma ResolvedGrows(cfg: Config, s: State, s': State, k: Option<Key>, i: nat, p: Place)
    requires Grows(cfg, s, s') && Resolved(cfg, s, k, i, p)
    ensures Resolved(cfg, s', k, i, p)
  {
  }

  lemma SlotsForOk(cfg: Config, s: State, k: Option<Key>, i: nat)
    requires ArraysOk(cfg, s)
    ensures var (s', p) := SlotsFor(cfg, s, k, i);
            && ArraysOk(cfg, s') && Grows(cfg, s, s') && SameButArrays(s, s')
            && Resolved(cfg, s', k, i, p)
  {
    var (s', p) := SlotsFor(cfg, s, k, i);
    if k.Some? && (k.value, i) !in s.arrays && !Exhausted(cfg, s) {
      assert |s'.arrays| == |s.arrays| + 1;
    }
  }

  lemma ThreadOkGrows(cfg: Config, s: State, s': State, t: nat)
    requires t < |s.threads| && t < |s'.threads| && s.threads[t] == s'.threads[t]
    requires Grows(cfg, s, s') && ThreadOk(cfg, s, t)
    ensures ThreadOk(cfg, s', t)
  {
    var th := s.threads[t];
    forall j | 0 <= j < |th.stack|
      ensures Resolved(cfg, s', Some(th.stack[j].key), th.index, th.stack[j].cur)
    {
      ResolvedGrows(cfg, s, s', Some(th.stack[j].key), th.index, th.stack[j].cur);
    }
  }

  lemma PointerOkGrows(cfg: Config, s: State, s': State, t: nat)
    requires t < |s.threads| && t < |s'.threads| && s.threads[t] == s'.threads[t]
    requires s.shared == s'.shared || s.threads[t].stack != []
    requires Grows(cfg, s, s') && PointerOk(cfg, s, t)
    ensures PointerOk(cfg, s', t)
  {
    var th := s.threads[t];
    if th.alive {
      ResolvedGrows(cfg, s, s', Target(s, th), th.index, th.cur);
    }
  }

  /** Allocation leaves every thread as good as it was. */
  lemma GrowsKeeps(cfg: Config, s: State, s': State)
    requires Grows(cfg, s, s') && s.threads == s'.threads && s.shared == s'.shared
    requires Base(cfg, s) && ArraysOk(cfg, s')
    ensures Base(cfg, s')
    ensures forall t :: 0 <= t < |s.threads| && PointerOk(cfg, s, t) ==> PointerOk(cfg, s', t)
  {
    forall t | 0 <= t < |s.threads| ensures ThreadOk(cfg, s', t) {
      ThreadOkGrows(cfg, s, s', t);
    }
    forall t | 0 <= t < |s.threads| && PointerOk(cfg, s, t) ensures PointerOk(cfg, s', t) {
      PointerOkGrows(cfg, s, s', t);
    }
  }

  /** Replacing one thread by a good one. */
  lemma PutKeeps(cfg: Config, s: State, t: nat, th: Thread)
    requires t < |s.threads| && Base(cfg, s)
    requires ThreadOk(cfg, Put(s, t, th), t)
    ensures Base(cfg, Put(s, t, th))
    ensures forall u :: 0 <= u < |s.threads| && u != t && PointerOk(cfg, s, u) ==> PointerOk(cfg, Put(s, t, th), u)
  {
    var s' := Put(s, t, th);
    assert Grows(cfg, s, s');
    forall u | 0 <= u < |s.threads| ensures ThreadOk(cfg, s', u) {
      if u != t { ThreadOkGrows(cfg, s, s', u); }
    }
    forall u | 0 <= u < |s.threads| && u != t && PointerOk(cfg, s, u) ensures PointerOk(cfg, s', u) {
      PointerOkGrows(cfg, s, s', u);
    }
  }

  // ---------------------------------------------------------------- stacks

  lemma {:induction false} StackOkLater(stack: seq<Frame>, now: nat, later: nat)
    requires now <= later && StackOk(stack, now)
    ensures StackOk(stack, later)
  {
  }

  lemma StackOkPush(stack: seq<Frame>, f: Frame, now: nat)
    requires StackOk(stack, now) && f.totalAtBegin == now && f.childrenIncl == 0
    ensures StackOk(stack + [f], now)
  {
    assert (stack + [f])[..|stack|] == stack;
  }

  lemma StackOkPop(stack: seq<Frame>, now: nat)
    requires stack != [] && StackOk(stack, now)
    ensures StackOk(PopStack(stack, now), now)
  {
    var d := |stack| - 1;
    var rest := stack[..d];
    if d > 0 {
      var popped := PopStack(stack, now);
      assert popped[..d - 1] == rest[..d - 1];
    }
  }

  // ---------------------------------------------------------------- followers

  /** Both states have the same threads, up to where the threads' pointers point. */
  ghost predicate SameStacks(s: State, s': State) {
    && |s.threads| == |s'.threads|
    && forall t :: 0 <= t < |s.threads| ==>
         s'.threads[t] == s.threads[t].(cur := s'.threads[t].cur, followed := s'.threads[t].followed)
  }

  /** Steering one idle thread to its array of `nk`. */
  function SteerOne(cfg: Config, s: State, nk: Option<Key>, t: nat): State
    requires t < |s.threads|
  {
    var (s1, p) := SlotsFor(cfg, s, nk, s.threads[t].index);
    Put(s1, t, Steer(s.threads[t], p))
  }

  lemma SteerOneOk(cfg: Config, s: State, t: nat)
    requires t < |s.threads| && Base(cfg, s)
    requires s.threads[t].alive && s.threads[t].stack == []
    ensures var r := SteerOne(cfg, s, s.shared, t);
            && Base(cfg, r) && PointerOk(cfg, r, t) && Grows(cfg, s, r)
            && r.shared == s.shared && r.leader == s.leader && SameStacks(s, r)
    ensures forall u :: 0 <= u < |s.threads| && u != t && PointerOk(cfg, s, u)
              ==> PointerOk(cfg, SteerOne(cfg, s, s.shared, t), u)
  {
    var th := s.threads[t];
    assert ThreadOk(cfg, s, t);
    SlotsForOk(cfg, s, s.shared, th.index);
    var (s1, p) := SlotsFor(cfg, s, s.shared, th.index);
    GrowsKeeps(cfg, s, s1);
    assert ThreadOk(cfg, s1, t);
    assert ThreadOk(cfg, Put(s1, t, Steer(th, p)), t);
    PutKeeps(cfg, s1, t, Steer(th, p));
  }

  /** Steering repairs the pointers of the idle threads below `n` and disturbs nothing else. */
  lemma {:induction false} SteerAllOk(cfg: Config, s: State, n: nat)
    requires n <= |s.threads| && Base(cfg, s)
    requires forall t :: n <= t < |s.threads| ==> PointerOk(cfg, s, t)
    requires forall t :: 0 <= t < n && s.threads[t].stack != [] ==> PointerOk(cfg, s, t)
    ensures var r := SteerAll(cfg, s, s.shared, n);
            && Base(cfg, r) && PointersOk(cfg, r) && Grows(cfg, s, r)
            && r.shared == s.shared && r.leader == s.leader && SameStacks(s, r)
    decreases n
  {
    hide StackOk, SlotsFor, Steer, Resolved;
    if n > 0 {
      var th := s.threads[n - 1];
      if th.alive && th.stack == [] {
        SteerOneOk(cfg, s, n - 1);
        SteerAllOk(cfg, SteerOne(cfg, s, s.shared, n - 1), n - 1);
      } else {
        assert PointerOk(cfg, s, n - 1);
        SteerAllOk(cfg, s, n - 1);
      }
    }
  }

  lemma UpdateSharedOk(cfg: Config, s: State, self: Option<nat>)
    requires Base(cfg, s) && PointersOk(cfg, s)
    requires self.Some? ==> self.value < |s.threads| && s.threads[self.value].alive
    requires self.None? ==> |s.threads| <= 1 ==> forall t :: 0 <= t < |s.threads| ==> !s.threads[t].alive
    ensures Inv(cfg, UpdateShared(cfg, s, self))
    ensures Grows(cfg, s, UpdateShared(cfg, s, self))
    ensures SameStacks(s, UpdateShared(cfg, s, self))
  {
    if |s.threads| <= 1 {
      UpdateSharedOneThread(cfg, s, self);
    } else {
      UpdateSharedManyThreads(cfg, s, self);
    }
  }

  /** A new leader and a new shared key leave every frame alone. */
  lemma RelabelKeeps(cfg: Config, s: State, s': State)
    requires Base(cfg, s) && PointersOk(cfg, s)
    requires s' == s.(leader := s'.leader, shared := s'.shared)
    ensures Base(cfg, s') && Grows(cfg, s, s') && SameStacks(s, s')
    ensures forall t :: 0 <= t < |s.threads| && (s'.shared == s.shared || s.threads[t].stack != [])
              ==> PointerOk(cfg, s', t)
  {
    forall t | 0 <= t < |s.threads| ensures ThreadOk(cfg, s', t) {
      ThreadOkGrows(cfg, s, s', t);
    }
    forall t | 0 <= t < |s.threads| && (s'.shared == s.shared || s.threads[t].stack != [])
      ensures PointerOk(cfg, s', t)
    {
      PointerOkGrows(cfg, s, s', t);
    }
  }

  lemma UpdateSharedManyThreads(cfg: Config, s: State, self: Option<nat>)
    requires |s.threads| > 1 && Base(cfg, s) && PointersOk(cfg, s)
    requires self.Some? ==> self.value < |s.threads| && s.threads[self.value].alive
    ensures Inv(cfg, UpdateShared(cfg, s, self))
    ensures Grows(cfg, s, UpdateShared(cfg, s, self))
    ensures SameStacks(s, UpdateShared(cfg, s, self))
  {
    var s1 := Elect(s, self);
    var s2 := s1.(shared := LeaderKey(s1));
    RelabelKeeps(cfg, s, s2);
    if s2.shared != s.shared {
      SteerAllOk(cfg, s2, |s2.threads|);
      SameStacksTrans(s, s2, SteerAll(cfg, s2, s2.shared, |s2.threads|));
    }
  }

  lemma SameStacksTrans(s0: State, s1: State, s2: State)
    requires SameStacks(s0, s1) && SameStacks(s1, s2)
    ensures SameStacks(s0, s2)
  {
  }

  lemma UpdateSharedOneThread(cfg: Config, s: State, self: Option<nat>)
    requires |s.threads| <= 1 && Base(cfg, s) && PointersOk(cfg, s)
    requires self.Some? ==> self.value < |s.threads| && s.threads[self.value].alive
    requires self.None? ==> forall t :: 0 <= t < |s.threads| ==> !s.threads[t].alive
    ensures Inv(cfg, UpdateShared(cfg, s, self))
    ensures Grows(cfg, s, UpdateShared(cfg, s, self))
    ensures SameStacks(s, UpdateShared(cfg, s, self))
  {
    var ld := if self.Some? && s.threads[self.value].stack != [] then self else None;
    var s1 := s.(leader := ld);
    var s2 := s1.(shared := LeaderKey(s1));
    RelabelKeeps(cfg, s, s2);
    if self.Some? && s.threads[self.value].stack == [] {
      assert s2.shared == None;
      var th := SetCur(s2.threads[0], Dummy);
      assert ThreadOk(cfg, s2, 0);
      PutKeeps(cfg, s2, 0, th);
    }
  }

  // ---------------------------------------------------------------- closing frames

  /** Only thread `t`'s stack, statistics and trace differ, and the global trace counters. */
  ghost predicate Closing(s: State, s': State, t: nat)
    requires t < |s.threads|
  {
    && |s'.threads| == |s.threads|
    && s'.threads == s.threads[t := s'.threads[t]]
    && s'.threads[t] == s.threads[t].(
         stack := s'.threads[t].stack, stats := s'.threads[t].stats, trace := s'.threads[t].trace)
    && s' == s.(threads := s'.threads, traceRecords := s'.traceRecords, traceDropped := s'.traceDropped)
  }

  lemma CloseFrameOk(cfg: Config, s: State, t: nat, seqEnd: nat, implicit: bool)
    requires t < |s.threads| && s.threads[t].stack != [] && Base(cfg, s)
    ensures var r := CloseFrame(cfg, s, t, seqEnd, implicit);
            && Base(cfg, r) && Closing(s, r, t)
            && r.threads[t].stack == PopStack(s.threads[t].stack, s.threads[t].total)
            && (PointersOkBut(cfg, s, t) ==> PointersOkBut(cfg, r, t))
  {
    var r := CloseFrame(cfg, s, t, seqEnd, implicit);
    PoppedThreadOk(cfg, s, t, r.threads[t]);
    PutKeeps(cfg, s, t, r.threads[t]);
    GrowsKeeps(cfg, Put(s, t, r.threads[t]), r);
  }

  lemma PoppedThreadOk(cfg: Config, s: State, t: nat, th': Thread)
    requires t < |s.threads| && s.threads[t].stack != [] && ThreadOk(cfg, s, t)
    requires var th := s.threads[t];
             th' == th.(stack := PopStack(th.stack, th.total), stats := th'.stats, trace := th'.trace)
    ensures ThreadOk(cfg, Put(s, t, th'), t)
  {
    var th := s.threads[t];
    StackOkPop(th.stack, th.total);
    PopKeepsKeys(th.stack, th.total);
    forall j | 0 <= j < |th'.stack|
      ensures Resolved(cfg, Put(s, t, th'), Some(th'.stack[j].key), th.index, th'.stack[j].cur)
    {
      assert Resolved(cfg, s, Some(th.stack[j].key), th.index, th.stack[j].cur);
    }
  }

  lemma PopKeepsKeys(stack: seq<Frame>, total: nat)
    requires stack != []
    ensures forall j :: 0 <= j < |stack| - 1 ==>
              var f := PopStack(stack, total)[j];
              f == stack[j].(childrenIncl := f.childrenIncl)
  {
  }

  lemma {:induction false} CloseAboveOk(cfg: Config, s: State, t: nat, d: nat, seqEnd: nat)
    requires t < |s.threads| && d <= |s.threads[t].stack| && Base(cfg, s) && PointersOkBut(cfg, s, t)
    ensures var r := CloseAbove(cfg, s, t, d, seqEnd);
            && Base(cfg, r) && Closing(s, r, t) && PointersOkBut(cfg, r, t)
            && FramesKept(s.threads[t].stack[..d], r.threads[t].stack)
    decreases |s.threads[t].stack|
  {
    if |s.threads[t].stack| > d {
      var s1 := CloseFrame(cfg, s, t, seqEnd, true);
      CloseFrameOk(cfg, s, t, seqEnd, true);
      PopKeepsKeys(s.threads[t].stack, s.threads[t].total);
      CloseAboveOk(cfg, s1, t, d, seqEnd);
    }
  }

  /** The same frames, up to what their children have run. */
  ghost predicate FramesKept(a: seq<Frame>, b: seq<Frame>) {
    && |a| == |b|
    && forall j :: 0 <= j < |a| ==> b[j] == a[j].(childrenIncl := b[j].childrenIncl)
  }

  // ---------------------------------------------------------------- the steps

  lemma LaterThreadOk(cfg: Config, s: State, t: nat, n: nat)
    requires t < |s.threads| && ThreadOk(cfg, s, t) && s.threads[t].total + n <= UINT64_MAX
    ensures var th := s.threads[t]; ThreadOk(cfg, Put(s, t, th.(total := th.total + n)), t)
  {
    StackOkLater(s.threads[t].stack, s.threads[t].total, s.threads[t].total + n);
  }

  lemma ExecKeeps(cfg: Config, s: State, t: nat, slot: nat, n: nat)
    requires Inv(cfg, s) && Enabled(cfg, s, Exec(t, slot, n))
    ensures Inv(cfg, ExecBlock(s, t, slot, n))
    ensures Grows(cfg, s, ExecBlock(s, t, slot, n))
  {
    hide StackOk;
    var r := ExecBlock(s, t, slot, n);
    var th := s.threads[t];
    assert ThreadOk(cfg, s, t) && PointerOk(cfg, s, t);
    assert r.arrays.Keys == s.arrays.Keys;
    var s1 := s.(arrays := r.arrays, dummy := r.dummy);
    GrowsKeeps(cfg, s, s1);
    var th' := th.(total := th.total + n);
    assert r == Put(s1, t, th');
    LaterThreadOk(cfg, s1, t, n);
    PutKeeps(cfg, s1, t, th');
    assert PointerOk(cfg, r, t);
  }

  /** Thread `t` changed; leader, shared key and every other thread are the same. */
  ghost predicate Local(s: State, r: State, t: nat)
    requires t < |s.threads|
  {
    && |r.threads| == |s.threads| && r.leader == s.leader && r.shared == s.shared
    && r.threads == s.threads[t := r.threads[t]]
  }

  lemma TickKeeps(cfg: Config, s: State)
    requires Inv(cfg, s)
    ensures Inv(cfg, Tick(cfg, s)) && Grows(cfg, s, Tick(cfg, s))
  {
    GrowsKeeps(cfg, s, Tick(cfg, s));
  }

  lemma PushKeeps(cfg: Config, s: State, t: nat, k: Key, sq: nat)
    requires Inv(cfg, s) && t < |s.threads| && s.threads[t].alive && |s.threads[t].stack| < MAX_DEPTH
    ensures var r := Push(cfg, s, t, k, sq);
            && Base(cfg, r) && PointersOk(cfg, r) && Grows(cfg, s, r) && Local(s, r, t)
            && r.threads[t].alive
  {
    hide StackOk;
    var th := s.threads[t];
    assert ThreadOk(cfg, s, t);
    SlotsForOk(cfg, s, Some(k), th.index);
    var (s2, p) := SlotsFor(cfg, s, Some(k), th.index);
    GrowsKeeps(cfg, s, s2);
    var f := Frame(k, p, th.total, 0, sq);
    StackOkPush(th.stack, f, th.total);
    var th' := SetCur(th.(stack := th.stack + [f]), p);
    assert ThreadOk(cfg, Put(s2, t, th'), t) by {
      assert ThreadOk(cfg, s2, t);
    }
    PutKeeps(cfg, s2, t, th');
    assert PointerOk(cfg, Put(s2, t, th'), t);
  }

  lemma BeginKeeps(cfg: Config, s: State, t: nat, k: Key)
    requires Inv(cfg, s) && Enabled(cfg, s, BeginMark(t, k))
    ensures Inv(cfg, Begin(cfg, s, t, k))
    ensures Grows(cfg, s, Begin(cfg, s, t, k))
  {
    if |s.threads[t].stack| >= MAX_DEPTH {
      GrowsKeeps(cfg, s, Begin(cfg, s, t, k));
    } else {
      TickKeeps(cfg, s);
      var s1 := Tick(cfg, s);
      PushKeeps(cfg, s1, t, k, Ticket(cfg, s1));
      var s2 := Push(cfg, s1, t, k, Ticket(cfg, s1));
      if s2.leader.None? || s2.leader == Some(t) {
        UpdateSharedOk(cfg, s2, Some(t));
      } else {
        assert LeaderOk(s2);
      }
    }
  }

  /** Repointing repairs the pointer of the thread whose frames were closed. */
  lemma RepointOk(cfg: Config, s: State, t: nat)
    requires t < |s.threads| && Base(cfg, s) && PointersOkBut(cfg, s, t)
    ensures var r := Repoint(cfg, s, t);
            && Base(cfg, r) && PointersOk(cfg, r) && Grows(cfg, s, r) && Local(s, r, t)
            && SameStacks(s, r)
  {
    var th := s.threads[t];
    assert ThreadOk(cfg, s, t);
    if th.stack != [] {
      var j := |th.stack| - 1;
      assert Resolved(cfg, s, Some(th.stack[j].key), th.index, th.stack[j].cur);
      var th' := SetCur(th, th.stack[j].cur);
      assert ThreadOk(cfg, Put(s, t, th'), t);
      PutKeeps(cfg, s, t, th');
      assert PointerOk(cfg, Put(s, t, th'), t);
    } else {
      SlotsForOk(cfg, s, s.shared, th.index);
      var (s', p) := SlotsFor(cfg, s, s.shared, th.index);
      GrowsKeeps(cfg, s, s');
      var th' := SetCur(th, p);
      assert ThreadOk(cfg, s', t);
      assert ThreadOk(cfg, Put(s', t, th'), t);
      PutKeeps(cfg, s', t, th');
      assert PointerOk(cfg, Put(s', t, th'), t);
    }
  }

  lemma CloseFromOk(cfg: Config, s: State, t: nat, i: nat, seqEnd: nat)
    requires t < |s.threads| && i < |s.threads[t].stack| && Base(cfg, s) && PointersOkBut(cfg, s, t)
    ensures var r := CloseFrom(cfg, s, t, i, seqEnd);
            Base(cfg, r) && PointersOkBut(cfg, r, t) && Closing(s, r, t)
  {
    CloseAboveOk(cfg, s, t, i + 1, seqEnd);
    CloseFrameOk(cfg, CloseAbove(cfg, s, t, i + 1, seqEnd), t, seqEnd, false);
  }

  lemma EndKeeps(cfg: Config, s: State, t: nat, region: string)
    requires Inv(cfg, s) && Enabled(cfg, s, EndMark(t, region))
    ensures Inv(cfg, End(cfg, s, t, region))
    ensures Grows(cfg, s, End(cfg, s, t, region))
  {
    var i := FindFrame(s.threads[t].stack, RegionName(region));
    if i < 0 {
      GrowsKeeps(cfg, s, End(cfg, s, t, region));
    } else {
      TickKeeps(cfg, s);
      var s1 := Tick(cfg, s);
      CloseFromOk(cfg, s1, t, i, Ticket(cfg, s1));
      var s2 := CloseFrom(cfg, s1, t, i, Ticket(cfg, s1));
      RepointOk(cfg, s2, t);
      EndLeader(cfg, s1, Repoint(cfg, s2, t), t);
    }
  }

  /** The last step of an end marker. */
  lemma EndLeader(cfg: Config, s: State, r: State, t: nat)
    requires Inv(cfg, s) && t < |s.threads| && s.threads[t].alive && Local(s, r, t) && r.threads[t].alive
    requires Base(cfg, r) && PointersOk(cfg, r) && Grows(cfg, s, r)
    ensures var r' := if r.leader == Some(t) then UpdateShared(cfg, r, Some(t)) else r;
            Inv(cfg, r') && Grows(cfg, s, r')
  {
    if r.leader == Some(t) {
      UpdateSharedOk(cfg, r, Some(t));
    } else {
      assert LeaderOk(r);
    }
  }

  lemma ThreadInitKeeps(cfg: Config, s: State)
    requires Inv(cfg, s)
    ensures Inv(cfg, ThreadInit(cfg, s))
    ensures Grows(cfg, s, ThreadInit(cfg, s))
  {
    var n := |s.threads|;
    var i := if n < MAX_THREADS then n else MAX_THREADS - 1;
    SlotsForOk(cfg, s, s.shared, i);
    var (s1, p) := SlotsFor(cfg, s, s.shared, i);
    var r := ThreadInit(cfg, s);
    forall t | 0 <= t < n ensures ThreadOk(cfg, r, t) && PointerOk(cfg, r, t) {
      ThreadOkGrows(cfg, s, r, t);
      PointerOkGrows(cfg, s, r, t);
    }
    assert ThreadOk(cfg, r, n) && PointerOk(cfg, r, n);
  }

  lemma RetireOk(cfg: Config, s: State, t: nat, seqEnd: nat)
    requires Inv(cfg, s) && t < |s.threads|
    ensures var r := Retire(cfg, s, t, seqEnd);
            && Base(cfg, r) && PointersOk(cfg, r) && Grows(cfg, s, r) && Local(s, r, t)
            && !r.threads[t].alive && r.threads[t].stack == []
  {
    CloseAboveOk(cfg, s, t, 0, seqEnd);
    var s1 := CloseAbove(cfg, s, t, 0, seqEnd);
    assert ThreadOk(cfg, s1, t);
    PutKeeps(cfg, s1, t, s1.threads[t].(alive := false));
    assert PointerOk(cfg, Retire(cfg, s, t, seqEnd), t);
  }

  lemma ThreadExitKeeps(cfg: Config, s: State, t: nat)
    requires Inv(cfg, s) && Enabled(cfg, s, Exit(t))
    ensures Inv(cfg, ThreadExit(cfg, s, t))
    ensures Grows(cfg, s, ThreadExit(cfg, s, t))
  {
    hide StackOk, Retire, UpdateShared;
    var s1 := s.(seqCounter := s.seqCounter + 1);
    GrowsKeeps(cfg, s, s1);
    RetireOk(cfg, s1, t, s1.seqCounter);
    var s2 := Retire(cfg, s1, t, s1.seqCounter);
    if s2.leader == Some(t) {
      UpdateSharedOk(cfg, s2, None);
    } else {
      assert LeaderOk(s2);
    }
  }

  lemma StepKeeps(cfg: Config, s: State, e: Event)
    requires Inv(cfg, s) && Enabled(cfg, s, e)
    ensures Inv(cfg, Step(cfg, s, e)) && Grows(cfg, s, Step(cfg, s, e))
  {
    match e
    case Exec(t, slot, n) => ExecKeeps(cfg, s, t, slot, n);
    case BeginMark(t, k) => BeginKeeps(cfg, s, t, k);
    case EndMark(t, region) => EndKeeps(cfg, s, t, region);
    case Start => ThreadInitKeeps(cfg, s);
    case Exit(t) => ThreadExitKeeps(cfg, s, t);
  }

  /** Every reachable state satisfies the invariant. */
  lemma {:induction false} Reachable(cfg: Config, r: Run)
    requires Valid(cfg, r)
    ensures Inv(cfg, Final(cfg, r))
  {
    match r
    case Empty =>
    case Then(p, e) =>
      Reachable(cfg, p);
      StepKeeps(cfg, Final(cfg, p), e);
  }

  // ---------------------------------------------------------------- what the invariant means

  /** In every reachable state: a live thread counts into its top frame's own array if it has
      one open region, else into its private array of the shared key; the shared key is the
      leader's innermost region or nothing; arrays of 8-byte counters fill at most 96 GiB, and one
      is denied only once no further one fits. */
  lemma AttributionInvariant(cfg: Config, r: Run)
    requires Valid(cfg, r)
    ensures var s := Final(cfg, r);
      && s.shared == LeaderKey(s)
      && s.counterBytes == |s.arrays| * (8 * cfg.maxSlots) <= 96 * 0x4000_0000
      && (s.denied > 0 ==> s.counterBytes + 8 * cfg.maxSlots > 96 * 0x4000_0000)
      && forall t :: 0 <= t < |s.threads| && s.threads[t].alive ==>
           var th := s.threads[t];
           && th.followed == th.cur
           && (th.stack != [] ==> th.cur == th.stack[|th.stack| - 1].cur)
           && match Target(s, th)
              case None => th.cur == Dummy
              case Some(k) => if (k, th.index) in s.arrays then th.cur == Slots(k, th.index)
                              else th.cur == Dummy && s.denied > 0
  {
    Reachable(cfg, r);
    var s := Final(cfg, r);
    forall t | 0 <= t < |s.threads| && s.threads[t].alive
      ensures s.threads[t].followed == s.threads[t].cur
      ensures s.threads[t].stack != [] ==> s.threads[t].cur == s.threads[t].stack[|s.threads[t].stack| - 1].cur
      ensures Resolved(cfg, s, Target(s, s.threads[t]), s.threads[t].index, s.threads[t].cur)
    {
      var th := s.threads[t];
      assert ThreadOk(cfg, s, t) && PointerOk(cfg, s, t);
      if th.stack != [] {
        var j := |th.stack| - 1;
        assert Resolved(cfg, s, Some(th.stack[j].key), th.index, th.stack[j].cur);
      }
    }
  }
}
