/**
 What the client writes at exit: per-key statistics merged over threads, counter totals,
 and the work other threads did for a region.
 */
module Reports {
  import opened Options
  import opened Sums
  import opened Attribution
  import opened AttributionInvariant
  import opened Accounting

  // ---------------------------------------------------------------- merging statistics

  function Combine(a: KStats, b: KStats): KStats {
    KStats(a.count + b.count, a.inclSum + b.inclSum, Min(a.inclMin, b.inclMin), Max(a.inclMax, b.inclMax),
           a.selfSum + b.selfSum, Min(a.selfMin, b.selfMin), Max(a.selfMax, b.selfMax),
           a.implicitEnds + b.implicitEnds)
  }

  /** The threads that closed `k` at least once, merged. */
  function MergeActive(threads: seq<Thread>, k: Key): KStats {
    if threads == [] then FRESH_STATS else
      var rest := MergeActive(threads[..|threads| - 1], k);
      var s := StatsOf(threads[|threads| - 1], k);
      if s.count == 0 then rest else Combine(rest, s)
  }

  /** A key nobody closed reports minima of 0. */
  function NoMinima(s: KStats): KStats {
    if s.count == 0 then s.(inclMin := 0, selfMin := 0) else s
  }

  function MergeStats(threads: seq<Thread>, k: Key): KStats {
    NoMinima(MergeActive(threads, k))
  }

  // ---------------------------------------------------------------- statistics summarise the trace

  /** The statistics a list of trace records amounts to. */
  function Summarize(trace: seq<TraceRec>, k: Key): KStats {
    if trace == [] then FRESH_STATS else
      var rest := Summarize(trace[..|trace| - 1], k);
      var rec := trace[|trace| - 1];
      if rec.key == k then AddToStats(rest, rec.incl, rec.self, rec.implicit) else rest
  }

  function AllTraces(threads: seq<Thread>): seq<TraceRec> {
    if threads == [] then [] else AllTraces(threads[..|threads| - 1]) + threads[|threads| - 1].trace
  }

  lemma {:induction false} SummarizeConcat(a: seq<TraceRec>, b: seq<TraceRec>, k: Key)
    ensures Summarize(a + b, k) == Combine(Summarize(a, k), Summarize(b, k))
  {
    if b == [] {
      assert a + b == a;
      SummaryBounds(a, k);
      CombineFresh(Summarize(a, k));
    } else {
      var n := |b| - 1;
      SummarizeConcat(a, b[..n], k);
      assert a + b == (a + b[..n]) + [b[n]] && b == b[..n] + [b[n]];
      SummarizeSnoc(a + b[..n], b[n], k);
      SummarizeSnoc(b[..n], b[n], k);
      CombineAdd(Summarize(a, k), Summarize(b[..n], k), b[n].incl, b[n].self, b[n].implicit);
    }
  }

  lemma SummarizeSnoc(a: seq<TraceRec>, rec: TraceRec, k: Key)
    ensures Summarize(a + [rec], k)
         == if rec.key == k then AddToStats(Summarize(a, k), rec.incl, rec.self, rec.implicit) else Summarize(a, k)
  {
    assert (a + [rec])[..|a|] == a;
  }

  lemma CombineAdd(x: KStats, y: KStats, incl: int, self: int, implicit: bool)
    ensures Combine(x, AddToStats(y, incl, self, implicit)) == AddToStats(Combine(x, y), incl, self, implicit)
  {
  }

  /** Within the range of a 64-bit counter, where the fresh statistics are neutral. */
  predicate InRange(x: KStats) {
    x.inclMin <= UINT64_MAX && x.selfMin <= UINT64_MAX && x.inclMax >= 0 && x.selfMax >= 0
  }

  lemma CombineFresh(x: KStats)
    requires InRange(x)
    ensures Combine(x, FRESH_STATS) == x == Combine(FRESH_STATS, x)
  {
  }

  lemma CombineAssoc(x: KStats, y: KStats, z: KStats)
    ensures Combine(Combine(x, y), z) == Combine(x, Combine(y, z))
  {
  }

  lemma {:induction false} MergeBounds(threads: seq<Thread>, k: Key)
    ensures InRange(MergeActive(threads, k))
  {
    if threads != [] {
      MergeBounds(threads[..|threads| - 1], k);
    }
  }

  lemma {:induction false} SummaryBounds(a: seq<TraceRec>, k: Key)
    ensures InRange(Summarize(a, k))
    ensures Summarize(a, k).count == 0 ==> Summarize(a, k) == FRESH_STATS
  {
    if a != [] {
      SummaryBounds(a[..|a| - 1], k);
    }
  }

  /** Thread `t`'s statistics for `k` are the summary of its trace, unless records were dropped. */
  ghost predicate Summed(cfg: Config, s: State, t: nat, k: Key) {
    t < |s.threads| ==>
      var th := s.threads[t];
      && (k in th.stats ==> th.stats[k].count > 0)
      && (cfg.traceLimit > 0 && s.traceDropped == 0 ==> StatsOf(th, k) == Summarize(th.trace, k))
  }

  lemma CloseFrameSummed(cfg: Config, s: State, u: nat, seqEnd: nat, implicit: bool, t: nat, k: Key)
    requires u < |s.threads| && s.threads[u].stack != [] && Summed(cfg, s, t, k)
    ensures Summed(cfg, CloseFrame(cfg, s, u, seqEnd, implicit), t, k)
  {
    if t == u {
      var th := s.threads[u];
      var rec := ClosingRec(th, seqEnd, implicit);
      assert (th.trace + [rec])[..|th.trace|] == th.trace;
    }
  }

  lemma {:induction false} CloseAboveSummed(cfg: Config, s: State, u: nat, d: nat, seqEnd: nat, t: nat, k: Key)
    requires u < |s.threads| && d <= |s.threads[u].stack| && Summed(cfg, s, t, k)
    ensures Summed(cfg, CloseAbove(cfg, s, u, d, seqEnd), t, k)
    decreases |s.threads[u].stack|
  {
    if |s.threads[u].stack| > d {
      CloseFrameSummed(cfg, s, u, seqEnd, true, t, k);
      CloseAboveSummed(cfg, CloseFrame(cfg, s, u, seqEnd, true), u, d, seqEnd, t, k);
    }
  }

  lemma SteeredSummed(cfg: Config, s: State, s': State, t: nat, k: Key)
    requires Steered(cfg, s, s') && Summed(cfg, s, t, k)
    ensures Summed(cfg, s', t, k)
  {
  }

  lemma StepSummed(cfg: Config, s: State, e: Event, t: nat, k: Key)
    requires Enabled(cfg, s, e) && Summed(cfg, s, t, k)
    ensures Summed(cfg, Step(cfg, s, e), t, k)
  {
    match e
    case Exec(u, slot, n) =>
    case BeginMark(u, key) => BeginSummed(cfg, s, u, key, t, k);
    case EndMark(u, region) => EndSummed(cfg, s, u, region, t, k);
    case Start =>
      assert t == |s.threads| ==> Step(cfg, s, e).threads[t].trace == [];
    case Exit(u) => ThreadExitSummed(cfg, s, u, t, k);
  }

  lemma BeginSummed(cfg: Config, s: State, u: nat, key: Key, t: nat, k: Key)
    requires u < |s.threads| && Summed(cfg, s, t, k)
    ensures Summed(cfg, Begin(cfg, s, u, key), t, k)
  {
    var s1 := Tick(cfg, s);
    var s2 := Push(cfg, s1, u, key, Ticket(cfg, s1));
    assert Summed(cfg, s2, t, k);
    UpdateSharedSteers(cfg, s2, Some(u));
    SteeredSummed(cfg, s2, UpdateShared(cfg, s2, Some(u)), t, k);
  }

  lemma ThreadExitSummed(cfg: Config, s: State, u: nat, t: nat, k: Key)
    requires u < |s.threads| && Summed(cfg, s, t, k)
    ensures Summed(cfg, ThreadExit(cfg, s, u), t, k)
  {
    var s1 := s.(seqCounter := s.seqCounter + 1);
    CloseAboveSummed(cfg, s1, u, 0, s1.seqCounter, t, k);
    var s2 := Retire(cfg, s1, u, s1.seqCounter);
    assert Summed(cfg, s2, t, k);
    UpdateSharedSteers(cfg, s2, None);
    SteeredSummed(cfg, s2, UpdateShared(cfg, s2, None), t, k);
  }

  lemma EndSummed(cfg: Config, s: State, u: nat, region: string, t: nat, k: Key)
    requires u < |s.threads| && Summed(cfg, s, t, k)
    ensures Summed(cfg, End(cfg, s, u, region), t, k)
  {
    var i := FindFrame(s.threads[u].stack, RegionName(region));
    if i >= 0 {
      var s1 := Tick(cfg, s);
      CloseAboveSummed(cfg, s1, u, i + 1, Ticket(cfg, s1), t, k);
      CloseFrameSummed(cfg, CloseAbove(cfg, s1, u, i + 1, Ticket(cfg, s1)), u, Ticket(cfg, s1), false, t, k);
      var s2 := CloseFrom(cfg, s1, u, i, Ticket(cfg, s1));
      RepointSteers(cfg, s2, u);
      var s3 := Repoint(cfg, s2, u);
      SteeredSummed(cfg, s2, s3, t, k);
      UpdateSharedSteers(cfg, s3, Some(u));
      SteeredSummed(cfg, s3, UpdateShared(cfg, s3, Some(u)), t, k);
    }
  }

  lemma {:induction false} StatsSummarizeTrace(cfg: Config, r: Run, t: nat, k: Key)
    requires Valid(cfg, r)
    ensures Summed(cfg, Final(cfg, r), t, k)
  {
    match r
    case Empty =>
    case Then(p, e) =>
      StatsSummarizeTrace(cfg, p, t, k);
      StepSummed(cfg, Final(cfg, p), e, t, k);
  }

  /** The merged statistics of a key are the summary of every trace record of every thread. */
  lemma MergedStatsSummarizeTheTrace(cfg: Config, r: Run, k: Key)
    requires Valid(cfg, r) && cfg.traceLimit > 0 && Final(cfg, r).traceDropped == 0
    ensures var s := Final(cfg, r);
            MergeStats(s.threads, k) == NoMinima(Summarize(AllTraces(s.threads), k))
  {
    var s := Final(cfg, r);
    forall t | 0 <= t < |s.threads| ensures StatsOf(s.threads[t], k) == Summarize(s.threads[t].trace, k) {
      StatsSummarizeTrace(cfg, r, t, k);
    }
    MergeIsSummary(s.threads, k);
  }

  lemma SkipEmpty(x: KStats, y: KStats)
    requires InRange(x)
    requires y.count == 0 ==> y == FRESH_STATS
    ensures (if y.count == 0 then x else Combine(x, y)) == Combine(x, y)
  {
    CombineFresh(x);
  }

  lemma {:induction false} MergeIsSummary(threads: seq<Thread>, k: Key)
    requires forall t :: 0 <= t < |threads| ==> StatsOf(threads[t], k) == Summarize(threads[t].trace, k)
    ensures MergeActive(threads, k) == Summarize(AllTraces(threads), k)
  {
    if threads != [] {
      var n := |threads| - 1;
      var a, b := AllTraces(threads[..n]), threads[n].trace;
      forall t | 0 <= t < n ensures StatsOf(threads[..n][t], k) == Summarize(threads[..n][t].trace, k) {
        assert threads[..n][t] == threads[t];
      }
      MergeIsSummary(threads[..n], k);
      SummarizeConcat(a, b, k);
      assert StatsOf(threads[n], k) == Summarize(b, k);
      SummaryBounds(a, k);
      SummaryBounds(b, k);
      SkipEmpty(Summarize(a, k), Summarize(b, k));
    }
  }

  // ---------------------------------------------------------------- what a summary says

  function CountOf(trace: seq<TraceRec>, k: Key): nat {
    if trace == [] then 0
    else CountOf(trace[..|trace| - 1], k) + (if trace[|trace| - 1].key == k then 1 else 0)
  }

  /** Some record of `k` has inclusive count `incl`. */
  ghost predicate HasIncl(trace: seq<TraceRec>, k: Key, incl: int) {
    exists i :: 0 <= i < |trace| && trace[i].key == k && trace[i].incl == incl
  }

  ghost predicate HasSelf(trace: seq<TraceRec>, k: Key, self: int) {
    exists i :: 0 <= i < |trace| && trace[i].key == k && trace[i].self == self
  }

  lemma SameWitness(trace: seq<TraceRec>, rec: TraceRec, k: Key)
    ensures forall x :: HasIncl(trace + [rec], k, x) <==> HasIncl(trace, k, x) || (rec.key == k && rec.incl == x)
    ensures forall x :: HasSelf(trace + [rec], k, x) <==> HasSelf(trace, k, x) || (rec.key == k && rec.self == x)
  {
    var longer := trace + [rec];
    assert longer[|trace|] == rec;
    assert forall i :: 0 <= i < |trace| ==> longer[i] == trace[i];
  }

  /** Inclusive counts of the records of `k`, summed. */
  function InclOf(trace: seq<TraceRec>, k: Key): int {
    if trace == [] then 0
    else InclOf(trace[..|trace| - 1], k) + (if trace[|trace| - 1].key == k then trace[|trace| - 1].incl else 0)
  }

  function SelfOf(trace: seq<TraceRec>, k: Key): int {
    if trace == [] then 0
    else SelfOf(trace[..|trace| - 1], k) + (if trace[|trace| - 1].key == k then trace[|trace| - 1].self else 0)
  }

  /** How many records of `k` are implicit ends. */
  function ImplicitOf(trace: seq<TraceRec>, k: Key): nat {
    if trace == [] then 0
    else
      var rec := trace[|trace| - 1];
      ImplicitOf(trace[..|trace| - 1], k) + (if rec.key == k && rec.implicit then 1 else 0)
  }

  /** `s` says of the records of `k` what there is to say. */
  ghost predicate Summarizes(s: KStats, trace: seq<TraceRec>, k: Key) {
    && s.count == CountOf(trace, k) && s.implicitEnds == ImplicitOf(trace, k)
    && s.inclSum == InclOf(trace, k) && s.selfSum == SelfOf(trace, k)
    && (forall i :: 0 <= i < |trace| && trace[i].key == k ==>
          && s.inclMin <= trace[i].incl <= s.inclMax
          && s.selfMin <= trace[i].self <= s.selfMax)
    && (s.count > 0 ==>
          && HasIncl(trace, k, s.inclMin) && HasIncl(trace, k, s.inclMax)
          && HasSelf(trace, k, s.selfMin) && HasSelf(trace, k, s.selfMax))
  }

  /** A summary counts the records of `k` and the implicit ones among them, and sums what they say;
      its extremes bound them all and are attained. */
  lemma {:induction false} SummaryMeaning(trace: seq<TraceRec>, k: Key)
    requires forall i :: 0 <= i < |trace| ==> 0 <= trace[i].self <= trace[i].incl <= 0xFFFF_FFFF_FFFF_FFFF
    ensures Summarizes(Summarize(trace, k), trace, k)
  {
    hide HasIncl, HasSelf;
    if trace != [] {
      var n := |trace| - 1;
      SummaryMeaning(trace[..n], k);
      SummaryBounds(trace[..n], k);
      SameWitness(trace[..n], trace[n], k);
      assert trace == trace[..n] + [trace[n]];
    }
  }

  lemma {:induction false} NoneOf(trace: seq<TraceRec>, k: Key)
    requires CountOf(trace, k) == 0
    ensures ImplicitOf(trace, k) == 0 && InclOf(trace, k) == 0 && SelfOf(trace, k) == 0
    ensures forall i :: 0 <= i < |trace| ==> trace[i].key != k
    ensures Summarize(trace, k).inclMax == 0 && Summarize(trace, k).selfMax == 0
  {
    if trace != [] {
      NoneOf(trace[..|trace| - 1], k);
    }
  }

  // ---------------------------------------------------------------- counter totals at exit

  /** Counter total of key `k` over thread slots 0..n-1. */
  function SlotTotal(s: State, k: Key, n: nat): nat {
    if n == 0 then 0
    else SlotTotal(s, k, n - 1) + (if (k, n - 1) in s.arrays then SumSeq(s.arrays[(k, n - 1)]) else 0)
  }

  /** Work threads 0..n-1 did for `k` while the leader was in it and they were in nothing. */
  ghost function FollowTotal(cfg: Config, r: Run, k: Key, n: nat): nat
    requires Valid(cfg, r)
  {
    if n == 0 then 0 else FollowTotal(cfg, r, k, n - 1) + FollowWork(cfg, r, n - 1, k)
  }

  function SelfTotal(threads: seq<Thread>, k: Key): int {
    if threads == [] then 0
    else SelfTotal(threads[..|threads| - 1], k) + StatsOf(threads[|threads| - 1], k).selfSum
  }

  ghost predicate Finished(s: State) {
    forall t :: 0 <= t < |s.threads| ==> !s.threads[t].alive
  }

  lemma {:induction false} MergedSelfIsTotal(threads: seq<Thread>, k: Key)
    requires forall t :: 0 <= t < |threads| ==> k in threads[t].stats ==> threads[t].stats[k].count > 0
    ensures MergeActive(threads, k).selfSum == SelfTotal(threads, k)
  {
    if threads != [] {
      MergedSelfIsTotal(threads[..|threads| - 1], k);
    }
  }

  /** Once every thread has exited and no array was denied, the counters of a key hold its own self
      instructions plus what other threads ran for it: the excess the report calls `other_threads`
      is exactly the followers' work. */
  lemma OtherThreadsAreFollowers(cfg: Config, r: Run, k: Key)
    requires Valid(cfg, r) && cfg.maxSlots > 0
    requires var s := Final(cfg, r); Finished(s) && |s.threads| <= MAX_THREADS && s.denied == 0
    ensures SlotTotal(Final(cfg, r), k, MAX_THREADS)
         == MergeStats(Final(cfg, r).threads, k).selfSum + FollowTotal(cfg, r, k, |Final(cfg, r).threads|)
  {
    var s := Final(cfg, r);
    SlotTotalBelow(cfg, r, k, |s.threads|);
    NoArraysAbove(cfg, r, k, |s.threads|, MAX_THREADS);
    forall t | 0 <= t < |s.threads| ensures k in s.threads[t].stats ==> s.threads[t].stats[k].count > 0 {
      StatsSummarizeTrace(cfg, r, t, k);
    }
    MergedSelfIsTotal(s.threads, k);
    assert s.threads[..|s.threads|] == s.threads;
  }

  lemma {:induction false} SlotTotalBelow(cfg: Config, r: Run, k: Key, n: nat)
    requires Valid(cfg, r) && cfg.maxSlots > 0
    requires var s := Final(cfg, r);
             Finished(s) && |s.threads| <= MAX_THREADS && s.denied == 0 && n <= |s.threads|
    ensures var s := Final(cfg, r);
            SlotTotal(s, k, n) == SelfTotal(s.threads[..n], k) + FollowTotal(cfg, r, k, n)
  {
    if n > 0 {
      var s := Final(cfg, r);
      SlotTotalBelow(cfg, r, k, n - 1);
      assert s.threads[..n][..n - 1] == s.threads[..n - 1];
      ArraysAreExact(cfg, r, n - 1, k, 0);
      SelfIsInnermost(cfg, r, n - 1, k);
      Reachable(cfg, r);
      assert ThreadOk(cfg, s, n - 1);
    }
  }

  /** Thread slots nobody has taken own no array. */
  lemma {:induction false} NoArraysAbove(cfg: Config, r: Run, k: Key, lo: nat, hi: nat)
    requires Valid(cfg, r) && cfg.maxSlots > 0 && lo <= hi
    requires |Final(cfg, r).threads| <= lo && |Final(cfg, r).threads| <= MAX_THREADS
    ensures SlotTotal(Final(cfg, r), k, hi) == SlotTotal(Final(cfg, r), k, lo)
    decreases hi - lo
  {
    hide Final, Valid;
    if lo < hi {
      NoArraysAbove(cfg, r, k, lo, hi - 1);
      ArraysAreExact(cfg, r, hi - 1, k, 0);
      NoFollowAbove(cfg, r, hi - 1, k);
      SelfIsInnermost(cfg, r, hi - 1, k);
    }
  }

  lemma {:induction false} NoFollowAbove(cfg: Config, r: Run, t: nat, k: Key)
    requires Valid(cfg, r) && |Final(cfg, r).threads| <= t
    ensures FollowWork(cfg, r, t, k) == 0
  {
    match r
    case Empty =>
    case Then(p, e) =>
      ThreadsStay(cfg, Final(cfg, p), e);
      NoFollowAbove(cfg, p, t, k);
  }

  lemma LoneThreadFollowsNobody(s: State)
    requires |s.threads| <= 1
    ensures forall t :: 0 <= t < |s.threads| && s.threads[t].stack == [] ==> LeaderKey(s) == None
  {
  }

  /** A run of one thread follows nobody. */
  lemma {:induction false} OneThreadFollowsNobody(cfg: Config, r: Run, t: nat, k: Key)
    requires Valid(cfg, r) && |Final(cfg, r).threads| <= 1
    ensures FollowWork(cfg, r, t, k) == 0
  {
    match r
    case Empty =>
    case Then(p, e) =>
      ThreadsStay(cfg, Final(cfg, p), e);
      LoneThreadFollowsNobody(Final(cfg, p));
      OneThreadFollowsNobody(cfg, p, t, k);
  }

  /** For one thread the two accountings are the same number: `self_slots` is `self_sum`. */
  lemma SelfSlotsAreSelfSum(cfg: Config, r: Run, k: Key)
    requires Valid(cfg, r) && cfg.maxSlots > 0
    requires var s := Final(cfg, r); Finished(s) && |s.threads| <= 1 && s.denied == 0
    ensures SlotTotal(Final(cfg, r), k, MAX_THREADS) == MergeStats(Final(cfg, r).threads, k).selfSum
  {
    OtherThreadsAreFollowers(cfg, r, k);
    OneThreadFollowsNobody(cfg, r, 0, k);
    assert FollowTotal(cfg, r, k, 0) == 0;
  }

  // ---------------------------------------------------------------- conservation

  function Totals(threads: seq<Thread>): (ts: seq<nat>)
    ensures |ts| == |threads|
  {
    seq(|threads|, i requires 0 <= i < |threads| => threads[i].total)
  }

  ghost function ArrayTotals(s: State): map<(Key, nat), nat> {
    map e | e in s.arrays :: SumSeq(s.arrays[e])
  }

  /** Every counted instruction is in exactly one counter array or in the dummy. */
  ghost predicate Conserved(s: State) {
    SumSeq(Totals(s.threads)) == SumMap(ArrayTotals(s)) + SumSeq(s.dummy)
  }

  lemma {:induction false} NewArraysHoldNothing(cfg: Config, a: map<(Key, nat), nat>, b: map<(Key, nat), nat>)
    requires a.Keys <= b.Keys
    requires forall e :: e in b ==> b[e] == if e in a then a[e] else 0
    ensures SumMap(a) == SumMap(b)
    decreases |b.Keys - a.Keys|
  {
    hide SumMap;
    if a.Keys == b.Keys {
      assert a == b;
    } else {
      assert !(b.Keys <= a.Keys);
      var e :| e in b.Keys && e !in a.Keys;
      SumMapPut(a, e, 0);
      assert b.Keys - a[e := 0].Keys == (b.Keys - a.Keys) - {e};
      NewArraysHoldNothing(cfg, a[e := 0], b);
    }
  }

  lemma MarkersConserve(cfg: Config, s: State, e: Event)
    requires Enabled(cfg, s, e) && !e.Exec? && Conserved(s)
    ensures Conserved(Step(cfg, s, e))
  {
    var s' := Step(cfg, s, e);
    StepCountsNothing(cfg, s, e);
    ThreadsStay(cfg, s, e);
    SumZeros(Zeros(cfg.maxSlots));
    NewArraysHoldNothing(cfg, ArrayTotals(s), ArrayTotals(s'));
    forall t | 0 <= t < |s.threads| ensures s'.threads[t].total == s.threads[t].total {
      MarkersCountNothing(cfg, s, e, t, Key(0, ""));
    }
    if e.Start? {
      assert Totals(s'.threads) == Totals(s.threads) + [0];
      SumSeqAppend(Totals(s.threads), 0);
    } else {
      assert Totals(s'.threads) == Totals(s.threads);
    }
  }

  lemma ExecTotals(s: State, u: nat, slot: nat, n: nat)
    requires u < |s.threads|
    ensures SumSeq(Totals(ExecBlock(s, u, slot, n).threads)) == SumSeq(Totals(s.threads)) + n
  {
    SumSeqUpdate(Totals(s.threads), u, n);
    assert Totals(ExecBlock(s, u, slot, n).threads) == Totals(s.threads)[u := s.threads[u].total + n];
  }

  lemma ExecArrays(s: State, u: nat, slot: nat, n: nat)
    requires u < |s.threads|
    requires match s.threads[u].cur
             case Dummy => slot < |s.dummy|
             case Slots(k, i) => (k, i) in s.arrays && slot < |s.arrays[(k, i)]|
    ensures var s' := ExecBlock(s, u, slot, n);
            SumMap(ArrayTotals(s')) + SumSeq(s'.dummy) == SumMap(ArrayTotals(s)) + SumSeq(s.dummy) + n
  {
    var s' := ExecBlock(s, u, slot, n);
    match s.threads[u].cur
    case Dummy =>
      SumSeqUpdate(s.dummy, slot, n);
      assert ArrayTotals(s') == ArrayTotals(s);
    case Slots(k, i) =>
      SumSeqUpdate(s.arrays[(k, i)], slot, n);
      var v: nat := SumSeq(s.arrays[(k, i)]) + n;
      assert ArrayTotals(s') == ArrayTotals(s)[(k, i) := v];
      SumMapPut(ArrayTotals(s), (k, i), v);
  }

  lemma ExecConserves(cfg: Config, s: State, e: Event)
    requires Enabled(cfg, s, e) && e.Exec? && Inv(cfg, s) && Conserved(s)
    ensures Conserved(Step(cfg, s, e))
  {
    assert ThreadOk(cfg, s, e.t) && PointerOk(cfg, s, e.t);
    ExecTotals(s, e.t, e.slot, e.n);
    ExecArrays(s, e.t, e.slot, e.n);
  }

  /** Over every run, the threads' totals add up to all counters plus the dummy. */
  lemma {:induction false} InstructionsAreConserved(cfg: Config, r: Run)
    requires Valid(cfg, r)
    ensures Conserved(Final(cfg, r))
  {
    match r
    case Empty =>
      SumZeros(Zeros(cfg.maxSlots));
    case Then(p, e) =>
      Reachable(cfg, p);
      InstructionsAreConserved(cfg, p);
      if e.Exec? {
        ExecConserves(cfg, Final(cfg, p), e);
      } else {
        MarkersConserve(cfg, Final(cfg, p), e);
      }
  }

  /** Unless an allocation was denied, the dummy holds exactly what belonged to no region. */
  lemma {:induction false} DummyIsIdle(cfg: Config, r: Run, slot: nat)
    requires Valid(cfg, r) && slot < cfg.maxSlots && Final(cfg, r).denied == 0
    ensures |Final(cfg, r).dummy| == cfg.maxSlots
    ensures Final(cfg, r).dummy[slot] == IdleCount(cfg, r, slot)
  {
    match r
    case Empty =>
    case Then(p, e) =>
      var s := Final(cfg, p);
      Reachable(cfg, p);
      StepKeeps(cfg, s, e);
      DummyIsIdle(cfg, p, slot);
      if e.Exec? {
        assert ThreadOk(cfg, s, e.t) && PointerOk(cfg, s, e.t);
      } else {
        StepCountsNothing(cfg, s, e);
      }
  }

  // ---------------------------------------------------------------- children never outrun their parent

  /** In every reachable state each open frame's children ran inside it, so no self count is negative. */
  lemma ChildrenFitTheirParent(cfg: Config, r: Run, t: nat, i: nat)
    requires Valid(cfg, r) && t < |Final(cfg, r).threads| && i < |Final(cfg, r).threads[t].stack|
    ensures var th := Final(cfg, r).threads[t];
            0 <= th.stack[i].childrenIncl <= th.total - th.stack[i].totalAtBegin
  {
    Reachable(cfg, r);
    var th := Final(cfg, r).threads[t];
    assert ThreadOk(cfg, Final(cfg, r), t);
    StackOkAt(th.stack, th.total, i);
  }

  lemma {:induction false} StackOkAt(stack: seq<Frame>, upTo: nat, i: nat)
    requires StackOk(stack, upTo) && i < |stack|
    ensures 0 <= stack[i].childrenIncl <= upTo - stack[i].totalAtBegin
  {
    var n := |stack| - 1;
    if i < n {
      StackOkAt(stack[..n], stack[n].totalAtBegin, i);
    }
  }
}
