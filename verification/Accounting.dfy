/**
 Two independent accountings of the same quantity.

 The stack charges a region `incl - children_incl` when its frame closes; the counter
 arrays are filled block by block through the thread's pointer.  Both are compared with a
 third notion, defined on the run alone: an executed instruction belongs to the innermost
 open region of its thread, or to the leader's if the thread has none.
 */
module Accounting {
  import opened Options
  import opened Sums
  import opened Attribution
  import opened AttributionInvariant

  // ---------------------------------------------------------------- attribution, defined on runs

  /** The region an instruction of thread `t` belongs to. */
  function Innermost(s: State, t: nat): Option<Key>
    requires t < |s.threads|
  {
    if s.threads[t].stack != [] then TopKey(s.threads[t].stack) else LeaderKey(s)
  }

  /** Instructions of block `slot` that thread `t` ran while they belonged to `k`. */
  ghost function BlockCount(cfg: Config, r: Run, t: nat, k: Key, slot: nat): nat
    requires Valid(cfg, r)
  {
    match r
    case Empty => 0
    case Then(p, e) =>
      BlockCount(cfg, p, t, k, slot) +
      if e.Exec? && e.t == t && e.slot == slot && Innermost(Final(cfg, p), t) == Some(k) then e.n else 0
  }

  /** Instructions thread `t` ran inside its own innermost region `k`. */
  ghost function OwnWork(cfg: Config, r: Run, t: nat, k: Key): nat
    requires Valid(cfg, r)
  {
    match r
    case Empty => 0
    case Then(p, e) =>
      OwnWork(cfg, p, t, k) +
      if e.Exec? && e.t == t && TopKey(Final(cfg, p).threads[t].stack) == Some(k) then e.n else 0
  }

  /** Instructions thread `t` ran for the leader's region `k`, having none of its own. */
  ghost function FollowWork(cfg: Config, r: Run, t: nat, k: Key): nat
    requires Valid(cfg, r)
  {
    match r
    case Empty => 0
    case Then(p, e) =>
      FollowWork(cfg, p, t, k) +
      if e.Exec? && e.t == t && Final(cfg, p).threads[t].stack == [] && LeaderKey(Final(cfg, p)) == Some(k)
      then e.n else 0
  }

  /** Instructions of block `slot` that belonged to no region. */
  ghost function IdleCount(cfg: Config, r: Run, slot: nat): nat
    requires Valid(cfg, r)
  {
    match r
    case Empty => 0
    case Then(p, e) =>
      IdleCount(cfg, p, slot) +
      if e.Exec? && e.slot == slot && Innermost(Final(cfg, p), e.t) == None then e.n else 0
  }

  // ---------------------------------------------------------------- what a marker leaves alone

  /** Counters are as before; new arrays hold zeros. */
  ghost predicate Untouched(cfg: Config, s: State, s': State) {
    && s'.dummy == s.dummy
    && s.arrays.Keys <= s'.arrays.Keys
    && forall e :: e in s'.arrays ==> s'.arrays[e] == (if e in s.arrays then s.arrays[e] else Zeros(cfg.maxSlots))
  }

  /** Everything but pointers, followers' bookkeeping and allocation is as before. */
  ghost predicate Steered(cfg: Config, s: State, s': State) {
    && Untouched(cfg, s, s') && SameStacks(s, s')
    && s'.seqCounter == s.seqCounter && s'.traceDropped == s.traceDropped && s'.traceRecords == s.traceRecords
  }

  lemma {:induction false} SteerAllSteers(cfg: Config, s: State, nk: Option<Key>, n: nat)
    requires n <= |s.threads|
    ensures Steered(cfg, s, SteerAll(cfg, s, nk, n))
    decreases n
  {
    if n > 0 {
      var th := s.threads[n - 1];
      var s1 := if th.alive && th.stack == [] then SteerOne(cfg, s, nk, n - 1) else s;
      assert Steered(cfg, s, s1);
      SteerAllSteers(cfg, s1, nk, n - 1);
      SteeredTrans(cfg, s, s1, SteerAll(cfg, s1, nk, n - 1));
    }
  }

  lemma SteeredTrans(cfg: Config, s0: State, s1: State, s2: State)
    requires Steered(cfg, s0, s1) && Steered(cfg, s1, s2)
    ensures Steered(cfg, s0, s2)
  {
  }

  lemma UpdateSharedSteers(cfg: Config, s: State, self: Option<nat>)
    requires self.Some? ==> self.value < |s.threads|
    ensures Steered(cfg, s, UpdateShared(cfg, s, self))
  {
    if |s.threads| > 1 {
      var s1 := Elect(s, self);
      var s2 := s1.(shared := LeaderKey(s1));
      SteerAllSteers(cfg, s2, s2.shared, |s2.threads|);
      SteeredTrans(cfg, s, s2, SteerAll(cfg, s2, s2.shared, |s2.threads|));
    }
  }

  lemma RepointSteers(cfg: Config, s: State, t: nat)
    requires t < |s.threads|
    ensures Steered(cfg, s, Repoint(cfg, s, t))
  {
  }

  // ---------------------------------------------------------------- the stack's account

  /** Self time of the open frames of `k`, as if they closed now. */
  function Pending(stack: seq<Frame>, upTo: int, k: Key): int {
    if stack == [] then 0 else
      var f := stack[|stack| - 1];
      Pending(stack[..|stack| - 1], f.totalAtBegin, k)
      + if f.key == k then upTo - f.totalAtBegin - f.childrenIncl else 0
  }

  /** What thread record `th` has charged, or would charge, to `k`. */
  function Charged(th: Thread, k: Key): int {
    StatsOf(th, k).selfSum + Pending(th.stack, th.total, k)
  }

  /** Closing a frame moves its pending self time into the statistics. */
  lemma CloseFrameCharges(cfg: Config, s: State, t: nat, seqEnd: nat, implicit: bool, k: Key)
    requires t < |s.threads| && s.threads[t].stack != []
    ensures Charged(CloseFrame(cfg, s, t, seqEnd, implicit).threads[t], k) == Charged(s.threads[t], k)
  {
    var th := s.threads[t];
    var d := |th.stack| - 1;
    var below := th.stack[..d];
    var popped := PopStack(th.stack, th.total);
    assert Pending(popped, th.total, k) == Pending(below, th.stack[d].totalAtBegin, k) by {
      if d > 0 {
        assert popped[..d - 1] == below[..d - 1];
      }
    }
    var rec := ClosingRec(th, seqEnd, implicit);
    var th' := CloseFrame(cfg, s, t, seqEnd, implicit).threads[t];
    assert StatsOf(th', k).selfSum == StatsOf(th, k).selfSum + (if rec.key == k then rec.self else 0);
    assert th'.stack == popped && th'.total == th.total;
  }

  lemma {:induction false} CloseAboveCharges(cfg: Config, s: State, t: nat, d: nat, seqEnd: nat, k: Key)
    requires t < |s.threads| && d <= |s.threads[t].stack|
    ensures Charged(CloseAbove(cfg, s, t, d, seqEnd).threads[t], k) == Charged(s.threads[t], k)
    decreases |s.threads[t].stack|
  {
    if |s.threads[t].stack| > d {
      CloseFrameCharges(cfg, s, t, seqEnd, true, k);
      CloseAboveCharges(cfg, CloseFrame(cfg, s, t, seqEnd, true), t, d, seqEnd, k);
    }
  }

  lemma {:induction false} CloseAboveLocal(cfg: Config, s: State, t: nat, d: nat, seqEnd: nat)
    requires t < |s.threads| && d <= |s.threads[t].stack|
    ensures Closing(s, CloseAbove(cfg, s, t, d, seqEnd), t)
    decreases |s.threads[t].stack|
  {
    if |s.threads[t].stack| > d {
      CloseAboveLocal(cfg, CloseFrame(cfg, s, t, seqEnd, true), t, d, seqEnd);
    }
  }

  lemma PushCharges(th: Thread, f: Frame, k: Key)
    requires f.totalAtBegin == th.total && f.childrenIncl == 0
    ensures Charged(th.(stack := th.stack + [f]), k) == Charged(th, k)
  {
    assert (th.stack + [f])[..|th.stack|] == th.stack;
  }

  /** Thread `t` is charged as before, and nothing was counted. */
  ghost predicate NothingCounted(cfg: Config, s: State, s': State, t: nat, k: Key)
    requires t < |s.threads|
  {
    && t < |s'.threads|
    && Charged(s'.threads[t], k) == Charged(s.threads[t], k)
    && s'.threads[t].total == s.threads[t].total
    && Untouched(cfg, s, s')
  }

  lemma SteeredCountsNothing(cfg: Config, s: State, s': State, t: nat, k: Key)
    requires Steered(cfg, s, s') && t < |s.threads|
    ensures NothingCounted(cfg, s, s', t, k)
  {
  }

  lemma NothingCountedTrans(cfg: Config, s0: State, s1: State, s2: State, t: nat, k: Key)
    requires t < |s0.threads| && NothingCounted(cfg, s0, s1, t, k) && NothingCounted(cfg, s1, s2, t, k)
    ensures NothingCounted(cfg, s0, s2, t, k)
  {
  }

  lemma PushCountsNothing(cfg: Config, s: State, u: nat, key: Key, sq: nat, t: nat, k: Key)
    requires t < |s.threads| && u < |s.threads|
    ensures NothingCounted(cfg, s, Push(cfg, s, u, key, sq), t, k)
  {
    var st := Push(cfg, s, u, key, sq).threads[u].stack;
    PushCharges(s.threads[u], st[|st| - 1], k);
  }

  lemma CloseAboveCountsNothing(cfg: Config, s: State, u: nat, d: nat, seqEnd: nat, t: nat, k: Key)
    requires t < |s.threads| && u < |s.threads| && d <= |s.threads[u].stack|
    ensures NothingCounted(cfg, s, CloseAbove(cfg, s, u, d, seqEnd), t, k)
  {
    CloseAboveLocal(cfg, s, u, d, seqEnd);
    CloseAboveCharges(cfg, s, u, d, seqEnd, k);
  }

  lemma CloseFromCountsNothing(cfg: Config, s: State, u: nat, i: nat, seqEnd: nat, t: nat, k: Key)
    requires t < |s.threads| && u < |s.threads| && i < |s.threads[u].stack|
    ensures NothingCounted(cfg, s, CloseFrom(cfg, s, u, i, seqEnd), t, k)
  {
    CloseAboveCountsNothing(cfg, s, u, i + 1, seqEnd, t, k);
    CloseFrameCharges(cfg, CloseAbove(cfg, s, u, i + 1, seqEnd), u, seqEnd, false, k);
  }

  lemma UpdateSharedCountsNothing(cfg: Config, s: State, self: Option<nat>, t: nat, k: Key)
    requires t < |s.threads| && (self.Some? ==> self.value < |s.threads|)
    ensures NothingCounted(cfg, s, UpdateShared(cfg, s, self), t, k)
  {
    UpdateSharedSteers(cfg, s, self);
    SteeredCountsNothing(cfg, s, UpdateShared(cfg, s, self), t, k);
  }

  lemma EndCountsNothing(cfg: Config, s: State, u: nat, region: string, t: nat, k: Key)
    requires t < |s.threads| && u < |s.threads|
    ensures NothingCounted(cfg, s, End(cfg, s, u, region), t, k)
  {
    var i := FindFrame(s.threads[u].stack, RegionName(region));
    if i >= 0 {
      var s1 := Tick(cfg, s);
      CloseFromCountsNothing(cfg, s1, u, i, Ticket(cfg, s1), t, k);
      var s2 := CloseFrom(cfg, s1, u, i, Ticket(cfg, s1));
      RepointSteers(cfg, s2, u);
      var s3 := Repoint(cfg, s2, u);
      SteeredCountsNothing(cfg, s2, s3, t, k);
      NothingCountedTrans(cfg, s1, s2, s3, t, k);
      UpdateSharedCountsNothing(cfg, s3, Some(u), t, k);
      NothingCountedTrans(cfg, s1, s3, UpdateShared(cfg, s3, Some(u)), t, k);
    }
  }

  lemma BeginCountsNothing(cfg: Config, s: State, u: nat, key: Key, t: nat, k: Key)
    requires t < |s.threads| && u < |s.threads|
    ensures NothingCounted(cfg, s, Begin(cfg, s, u, key), t, k)
  {
    var s1 := Tick(cfg, s);
    PushCountsNothing(cfg, s1, u, key, Ticket(cfg, s1), t, k);
    var s2 := Push(cfg, s1, u, key, Ticket(cfg, s1));
    UpdateSharedCountsNothing(cfg, s2, Some(u), t, k);
    NothingCountedTrans(cfg, s1, s2, UpdateShared(cfg, s2, Some(u)), t, k);
  }

  lemma ThreadExitCountsNothing(cfg: Config, s: State, u: nat, t: nat, k: Key)
    requires t < |s.threads| && u < |s.threads|
    ensures NothingCounted(cfg, s, ThreadExit(cfg, s, u), t, k)
  {
    var s1 := s.(seqCounter := s.seqCounter + 1);
    CloseAboveCountsNothing(cfg, s1, u, 0, s1.seqCounter, t, k);
    var s2 := Retire(cfg, s1, u, s1.seqCounter);
    assert NothingCounted(cfg, s1, s2, t, k);
    UpdateSharedCountsNothing(cfg, s2, None, t, k);
    NothingCountedTrans(cfg, s1, s2, UpdateShared(cfg, s2, None), t, k);
  }

  /** A marker, a thread start or a thread exit charges nothing to anyone, and counts nothing. */
  lemma MarkersCountNothing(cfg: Config, s: State, e: Event, t: nat, k: Key)
    requires Enabled(cfg, s, e) && !e.Exec? && t < |s.threads|
    ensures NothingCounted(cfg, s, Step(cfg, s, e), t, k)
  {
    match e
    case BeginMark(u, key) => BeginCountsNothing(cfg, s, u, key, t, k);
    case EndMark(u, region) => EndCountsNothing(cfg, s, u, region, t, k);
    case Start =>
    case Exit(u) => ThreadExitCountsNothing(cfg, s, u, t, k);
  }

  lemma StartCharges(cfg: Config, s: State, k: Key)
    ensures Charged(ThreadInit(cfg, s).threads[|s.threads|], k) == 0
  {
  }

  lemma ExecCharges(s: State, u: nat, slot: nat, n: nat, t: nat, k: Key)
    requires t < |s.threads| && u < |s.threads|
    ensures Charged(ExecBlock(s, u, slot, n).threads[t], k)
         == Charged(s.threads[t], k) + (if u == t && TopKey(s.threads[t].stack) == Some(k) then n else 0)
  {
  }

  /** The stack's account is exact: over every run, what thread `t` ran with `k` innermost is what
      its statistics hold for `k` plus what its open frames of `k` have not yet reported. */
  lemma {:induction false} SelfIsInnermost(cfg: Config, r: Run, t: nat, k: Key)
    requires Valid(cfg, r)
    ensures var s := Final(cfg, r);
            OwnWork(cfg, r, t, k) == if t < |s.threads| then Charged(s.threads[t], k) else 0
  {
    match r
    case Empty =>
    case Then(p, e) =>
      var s := Final(cfg, p);
      SelfIsInnermost(cfg, p, t, k);
      ThreadsStay(cfg, s, e);
      if t >= |s.threads| {
        StartCharges(cfg, s, k);
      } else if e.Exec? {
        ExecCharges(s, e.t, e.slot, e.n, t, k);
      } else {
        MarkersCountNothing(cfg, s, e, t, k);
      }
  }

  // ---------------------------------------------------------------- the arrays' account

  /** What the array of `k` in thread slot `t` holds, if it exists: `blocks` in counter `slot`,
      `all` in total.  If it does not exist, both are 0 unless its allocation was denied. */
  ghost predicate Holds(cfg: Config, s: State, t: nat, k: Key, slot: nat, blocks: nat, all: nat)
    requires slot < cfg.maxSlots
  {
    if (k, t) in s.arrays then
      && |s.arrays[(k, t)]| == cfg.maxSlots
      && s.arrays[(k, t)][slot] == blocks
      && SumSeq(s.arrays[(k, t)]) == all
    else
      (blocks == 0 && all == 0) || (Exhausted(cfg, s) && s.denied > 0)
  }

  lemma MarkersHold(cfg: Config, s: State, s': State, t: nat, k: Key, slot: nat, blocks: nat, all: nat)
    requires slot < cfg.maxSlots && Grows(cfg, s, s') && Untouched(cfg, s, s')
    requires Holds(cfg, s, t, k, slot, blocks, all)
    ensures Holds(cfg, s', t, k, slot, blocks, all)
  {
    SumZeros(Zeros(cfg.maxSlots));
  }

  lemma ExecHolds(cfg: Config, s: State, e: Event, t: nat, k: Key, slot: nat, blocks: nat, all: nat)
    requires e.Exec? && Enabled(cfg, s, e) && Inv(cfg, s) && |s.threads| <= MAX_THREADS
    requires slot < cfg.maxSlots && Holds(cfg, s, t, k, slot, blocks, all)
    ensures var mine := e.t == t && Innermost(s, t) == Some(k);
            Holds(cfg, Step(cfg, s, e), t, k, slot,
                  blocks + (if mine && e.slot == slot then e.n else 0), all + (if mine then e.n else 0))
  {
    assert ThreadOk(cfg, s, e.t) && PointerOk(cfg, s, e.t);
    var th := s.threads[e.t];
    assert Target(s, th) == Innermost(s, e.t);
    if th.cur == Slots(k, t) {
      SumSeqUpdate(s.arrays[(k, t)], e.slot, e.n);
    }
  }

  /** The array of `k` for thread `t` holds, block by block, exactly the instructions that belonged
      to `k`; a missing array has nothing to hold unless an allocation was denied. */
  lemma {:induction false} ArraysAreExact(cfg: Config, r: Run, t: nat, k: Key, slot: nat)
    requires Valid(cfg, r) && |Final(cfg, r).threads| <= MAX_THREADS && slot < cfg.maxSlots
    ensures Holds(cfg, Final(cfg, r), t, k, slot,
                  BlockCount(cfg, r, t, k, slot), OwnWork(cfg, r, t, k) + FollowWork(cfg, r, t, k))
  {
    match r
    case Empty =>
    case Then(p, e) =>
      var s := Final(cfg, p);
      Reachable(cfg, p);
      StepKeeps(cfg, s, e);
      ThreadsStay(cfg, s, e);
      ArraysAreExact(cfg, p, t, k, slot);
      var blocks, all := BlockCount(cfg, p, t, k, slot), OwnWork(cfg, p, t, k) + FollowWork(cfg, p, t, k);
      if e.Exec? {
        ExecHolds(cfg, s, e, t, k, slot, blocks, all);
      } else {
        StepCountsNothing(cfg, s, e);
        MarkersHold(cfg, s, Step(cfg, s, e), t, k, slot, blocks, all);
      }
  }

  lemma StepCountsNothing(cfg: Config, s: State, e: Event)
    requires Enabled(cfg, s, e) && !e.Exec?
    ensures Untouched(cfg, s, Step(cfg, s, e))
  {
    if |s.threads| > 0 {
      MarkersCountNothing(cfg, s, e, 0, Key(0, ""));
    }
  }

  lemma ThreadsStay(cfg: Config, s: State, e: Event)
    requires Enabled(cfg, s, e)
    ensures |Step(cfg, s, e).threads| == |s.threads| + (if e.Start? then 1 else 0)
  {
  }
}
