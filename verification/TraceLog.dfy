/**
 The trace holds each frame that was pushed exactly once, so what the analysis counts inside a
 trigger is what the run pushed while the trigger's frame was open.
 */
module TraceLog {
  import opened Options
  import opened Attribution
  import opened AttributionInvariant
  import opened Accounting
  import opened TraceNesting
  import opened NestedMap

  // ---------------------------------------------------------------- one entry for each push

  /** What a begin marker that pushes on thread `t` contributes, weighed by its number and key. */
  ghost function PushOf<T>(s: State, e: Event, t: nat, w: (nat, Key) -> multiset<T>): multiset<T> {
    if e.BeginMark? && e.t == t && t < |s.threads| && |s.threads[t].stack| < MAX_DEPTH
    then w(s.seqCounter + 1, e.key) else multiset{}
  }

  /** All pushes on thread `t`. */
  ghost function PushSum<T>(cfg: Config, r: Run, t: nat, w: (nat, Key) -> multiset<T>): multiset<T>
    requires Valid(cfg, r)
  {
    match r
    case Empty => multiset{}
    case Then(p, e) => PushSum(cfg, p, t, w) + PushOf(Final(cfg, p), e, t, w)
  }

  ghost function StackSum<T>(stack: seq<Frame>, w: (nat, Key) -> multiset<T>): multiset<T> {
    if stack == [] then multiset{} else
      var f := stack[|stack| - 1];
      StackSum(stack[..|stack| - 1], w) + w(f.seqBegin, f.key)
  }

  ghost function TraceSum<T>(trace: seq<TraceRec>, w: (nat, Key) -> multiset<T>): multiset<T> {
    if trace == [] then multiset{} else
      var x := trace[|trace| - 1];
      TraceSum(trace[..|trace| - 1], w) + w(x.seqBegin, x.key)
  }

  ghost predicate Logged<T>(s: State, t: nat, w: (nat, Key) -> multiset<T>, sum: multiset<T>) {
    && t < |s.threads|
    && (s.traceDropped == 0 ==> sum == StackSum(s.threads[t].stack, w) + TraceSum(s.threads[t].trace, w))
  }

  lemma {:induction false} SameStackSum<T>(a: seq<Frame>, b: seq<Frame>, w: (nat, Key) -> multiset<T>)
    requires |a| == |b| && forall i :: 0 <= i < |a| ==> a[i].seqBegin == b[i].seqBegin && a[i].key == b[i].key
    ensures StackSum(a, w) == StackSum(b, w)
  {
    if a != [] {
      SameStackSum(a[..|a| - 1], b[..|b| - 1], w);
    }
  }

  lemma PushAddsToStack<T>(stack: seq<Frame>, f: Frame, w: (nat, Key) -> multiset<T>)
    ensures StackSum(stack + [f], w) == StackSum(stack, w) + w(f.seqBegin, f.key)
  {
    assert (stack + [f])[..|stack|] == stack;
  }

  lemma CloseAddsToTrace<T>(trace: seq<TraceRec>, x: TraceRec, w: (nat, Key) -> multiset<T>)
    ensures TraceSum(trace + [x], w) == TraceSum(trace, w) + w(x.seqBegin, x.key)
  {
    assert (trace + [x])[..|trace|] == trace;
  }

  lemma CloseFrameLogs<T>(cfg: Config, s: State, u: nat, seqEnd: nat, implicit: bool, t: nat,
                          w: (nat, Key) -> multiset<T>, sum: multiset<T>)
    requires cfg.traceLimit > 0 && u < |s.threads| && s.threads[u].stack != [] && Logged(s, t, w, sum)
    ensures Logged(CloseFrame(cfg, s, u, seqEnd, implicit), t, w, sum)
  {
    hide StackSum, TraceSum;
    var s' := CloseFrame(cfg, s, u, seqEnd, implicit);
    if s'.traceDropped == 0 && t == u {
      var th := s.threads[t];
      var n := |th.stack| - 1;
      PopKeepsKeys(th.stack, th.total);
      SameStackSum(s'.threads[t].stack, th.stack[..n], w);
      PushAddsToStack(th.stack[..n], th.stack[n], w);
      assert th.stack[..n] + [th.stack[n]] == th.stack;
      CloseAddsToTrace(th.trace, ClosingRec(th, seqEnd, implicit), w);
    }
  }

  lemma {:induction false} CloseAboveLogs<T>(cfg: Config, s: State, u: nat, d: nat, seqEnd: nat, t: nat,
                                             w: (nat, Key) -> multiset<T>, sum: multiset<T>)
    requires cfg.traceLimit > 0 && u < |s.threads| && d <= |s.threads[u].stack| && Logged(s, t, w, sum)
    ensures Logged(CloseAbove(cfg, s, u, d, seqEnd), t, w, sum)
    decreases |s.threads[u].stack|
  {
    hide Logged;
    if |s.threads[u].stack| > d {
      CloseFrameLogs(cfg, s, u, seqEnd, true, t, w, sum);
      CloseAboveLogs(cfg, CloseFrame(cfg, s, u, seqEnd, true), u, d, seqEnd, t, w, sum);
    }
  }

  lemma SteeredLogs<T>(cfg: Config, s: State, s': State, t: nat, w: (nat, Key) -> multiset<T>, sum: multiset<T>)
    requires Steered(cfg, s, s') && Logged(s, t, w, sum)
    ensures Logged(s', t, w, sum)
  {
    hide StackSum, TraceSum;
  }

  lemma BeginLogs<T>(cfg: Config, s: State, u: nat, key: Key, t: nat, w: (nat, Key) -> multiset<T>, sum: multiset<T>)
    requires cfg.traceLimit > 0 && u < |s.threads| && Logged(s, t, w, sum)
    ensures Logged(Begin(cfg, s, u, key), t, w, sum + PushOf(s, BeginMark(u, key), t, w))
  {
    hide StackSum, TraceSum, UpdateShared;
    if |s.threads[u].stack| < MAX_DEPTH {
      var s1 := Tick(cfg, s);
      var s2 := Push(cfg, s1, u, key, Ticket(cfg, s1));
      if u == t {
        PushAddsToStack(s.threads[t].stack, s2.threads[t].stack[|s.threads[t].stack|], w);
        assert s2.threads[t].stack == s.threads[t].stack + [s2.threads[t].stack[|s.threads[t].stack|]];
      }
      var sum' := sum + PushOf(s, BeginMark(u, key), t, w);
      assert Logged(s2, t, w, sum');
      UpdateSharedSteers(cfg, s2, Some(u));
      SteeredLogs(cfg, s2, UpdateShared(cfg, s2, Some(u)), t, w, sum');
    }
  }

  lemma EndLogs<T>(cfg: Config, s: State, u: nat, region: string, t: nat,
                   w: (nat, Key) -> multiset<T>, sum: multiset<T>)
    requires cfg.traceLimit > 0 && u < |s.threads| && Logged(s, t, w, sum)
    ensures Logged(End(cfg, s, u, region), t, w, sum)
  {
    hide UpdateShared, StackSum, TraceSum;
    var i := FindFrame(s.threads[u].stack, RegionName(region));
    if i >= 0 {
      var s1 := Tick(cfg, s);
      CloseAboveLogs(cfg, s1, u, i + 1, s1.seqCounter, t, w, sum);
      CloseFrameLogs(cfg, CloseAbove(cfg, s1, u, i + 1, s1.seqCounter), u, s1.seqCounter, false, t, w, sum);
      var s2 := CloseFrom(cfg, s1, u, i, s1.seqCounter);
      RepointSteers(cfg, s2, u);
      var s3 := Repoint(cfg, s2, u);
      SteeredLogs(cfg, s2, s3, t, w, sum);
      UpdateSharedSteers(cfg, s3, Some(u));
      SteeredLogs(cfg, s3, UpdateShared(cfg, s3, Some(u)), t, w, sum);
    }
  }

  lemma ThreadExitLogs<T>(cfg: Config, s: State, u: nat, t: nat, w: (nat, Key) -> multiset<T>, sum: multiset<T>)
    requires cfg.traceLimit > 0 && u < |s.threads| && Logged(s, t, w, sum)
    ensures Logged(ThreadExit(cfg, s, u), t, w, sum)
  {
    hide UpdateShared, StackSum, TraceSum, CloseAbove;
    var s1 := s.(seqCounter := s.seqCounter + 1);
    CloseAboveLogs(cfg, s1, u, 0, s1.seqCounter, t, w, sum);
    var s2 := Retire(cfg, s1, u, s1.seqCounter);
    assert Logged(s2, t, w, sum);
    UpdateSharedSteers(cfg, s2, None);
    SteeredLogs(cfg, s2, UpdateShared(cfg, s2, None), t, w, sum);
  }

  lemma StepLogs<T>(cfg: Config, s: State, e: Event, t: nat, w: (nat, Key) -> multiset<T>, sum: multiset<T>)
    requires cfg.traceLimit > 0 && Enabled(cfg, s, e) && Logged(s, t, w, sum)
    ensures Logged(Step(cfg, s, e), t, w, sum + PushOf(s, e, t, w))
  {
    hide StackSum, TraceSum, Begin, End, ThreadExit;
    match e
    case Exec(u, slot, n) =>
    case BeginMark(u, key) => BeginLogs(cfg, s, u, key, t, w, sum);
    case EndMark(u, region) => EndLogs(cfg, s, u, region, t, w, sum);
    case Start =>
    case Exit(u) => ThreadExitLogs(cfg, s, u, t, w, sum);
  }

  lemma {:induction false} NoPushesYet<T>(cfg: Config, r: Run, t: nat, w: (nat, Key) -> multiset<T>)
    requires Valid(cfg, r) && |Final(cfg, r).threads| <= t
    ensures PushSum(cfg, r, t, w) == multiset{}
  {
    match r
    case Empty =>
    case Then(p, e) =>
      ThreadsStay(cfg, Final(cfg, p), e);
      NoPushesYet(cfg, p, t, w);
  }

  /** However frames are weighed: with no record dropped, open frames and trace records are the pushes. */
  lemma {:induction false} TraceIsExact<T>(cfg: Config, r: Run, t: nat, w: (nat, Key) -> multiset<T>)
    requires Valid(cfg, r) && cfg.traceLimit > 0 && t < |Final(cfg, r).threads|
    ensures Logged(Final(cfg, r), t, w, PushSum(cfg, r, t, w))
  {
    hide Logged, PushOf;
    match r
    case Empty =>
    case Then(p, e) =>
      var s := Final(cfg, p);
      ThreadsStay(cfg, s, e);
      if t < |s.threads| {
        TraceIsExact(cfg, p, t, w);
        StepLogs(cfg, s, e, t, w, PushSum(cfg, p, t, w));
      } else {
        NoPushesYet(cfg, p, t, w);
        NewThreadLogs(cfg, s, e, t, w);
      }
  }

  lemma NewThreadLogs<T>(cfg: Config, s: State, e: Event, t: nat, w: (nat, Key) -> multiset<T>)
    requires Enabled(cfg, s, e) && |s.threads| <= t < |Step(cfg, s, e).threads|
    ensures Logged(Step(cfg, s, e), t, w, multiset{} + PushOf(s, e, t, w))
  {
    ThreadsStay(cfg, s, e);
    assert e == Start;
  }

  /** A frame's number and key, as they are. */
  function Tag(b: nat, k: Key): multiset<(nat, Key)> { multiset{(b, k)} }

  /**
   With no record dropped and nothing open, the records' begin numbers and keys are, with their
   multiplicity, those of the begin markers that pushed a frame.
   */
  lemma OneRecordForEachPush(cfg: Config, r: Run, t: nat)
    requires Valid(cfg, r) && cfg.traceLimit > 0 && t < |Final(cfg, r).threads|
    requires Final(cfg, r).traceDropped == 0 && Final(cfg, r).threads[t].stack == []
    ensures TraceSum(Final(cfg, r).threads[t].trace, Tag) == PushSum(cfg, r, t, Tag)
  {
    TraceIsExact(cfg, r, t, Tag);
  }

  // ---------------------------------------------------------------- what ran inside a frame

  predicate Open(stack: seq<Frame>, a: nat) {
    exists i :: 0 <= i < |stack| && stack[i].seqBegin == a
  }

  /** What an event pushes on thread `t` while frame `a` is open there: region and declared values. */
  ghost function InsideOf(s: State, e: Event, t: nat, a: nat, target: string,
                          stateOf: Key -> seq<int>): multiset<NKey> {
    if && e.BeginMark? && e.t == t && t < |s.threads| && |s.threads[t].stack| < MAX_DEPTH
       && Open(s.threads[t].stack, a) && Marks(e.key.region, target)
    then multiset{(e.key.region, stateOf(e.key))} else multiset{}
  }

  /** All that a run pushes on thread `t` while frame `a` is open there, excluded regions apart. */
  ghost function RanInside(cfg: Config, r: Run, t: nat, a: nat, target: string,
                           stateOf: Key -> seq<int>): multiset<NKey>
    requires Valid(cfg, r)
  {
    match r
    case Empty => multiset{}
    case Then(p, e) => RanInside(cfg, p, t, a, target, stateOf) + InsideOf(Final(cfg, p), e, t, a, target, stateOf)
  }

  /** What a frame weighs, given what was pushed above frame `a`. */
  ghost function Weight(above: set<(nat, nat)>, a: nat, target: string, stateOf: Key -> seq<int>,
                        b: nat, k: Key): multiset<NKey> {
    if (a, b) in above && !Excluded(k.region, target) then multiset{(k.region, stateOf(k))} else multiset{}
  }

  ghost function Weighing(above: set<(nat, nat)>, a: nat, target: string,
                          stateOf: Key -> seq<int>): (nat, Key) -> multiset<NKey> {
    (b: nat, k: Key) => Weight(above, a, target, stateOf, b, k)
  }

  /** Only the weights of numbers drawn so far matter. */
  lemma {:induction false} PushSumAgrees<T>(cfg: Config, r: Run, t: nat, c: nat,
                                            w: (nat, Key) -> multiset<T>, v: (nat, Key) -> multiset<T>)
    requires Valid(cfg, r) && cfg.traceLimit > 0 && Final(cfg, r).seqCounter <= c
    requires forall b: nat, k: Key :: b <= c ==> w(b, k) == v(b, k)
    ensures PushSum(cfg, r, t, w) == PushSum(cfg, r, t, v)
  {
    match r
    case Empty =>
    case Then(p, e) =>
      CounterGrows(cfg, Final(cfg, p), e);
      PushSumAgrees(cfg, p, t, c, w, v);
  }

  lemma BeginTicks(cfg: Config, s: State, u: nat, key: Key)
    requires cfg.traceLimit > 0 && u < |s.threads|
    ensures Begin(cfg, s, u, key).seqCounter == s.seqCounter + if |s.threads[u].stack| < MAX_DEPTH then 1 else 0
  {
    hide UpdateShared;
    if |s.threads[u].stack| < MAX_DEPTH {
      var s1 := Tick(cfg, s);
      UpdateSharedSteers(cfg, Push(cfg, s1, u, key, Ticket(cfg, s1)), Some(u));
    }
  }

  lemma EndTicks(cfg: Config, s: State, u: nat, region: string)
    requires cfg.traceLimit > 0 && u < |s.threads|
    ensures End(cfg, s, u, region).seqCounter >= s.seqCounter
  {
    hide UpdateShared, CloseAbove, FindFrame;
    var i := FindFrame(s.threads[u].stack, RegionName(region));
    if i >= 0 {
      var s1 := Tick(cfg, s);
      CloseAboveCounter(cfg, s1, u, i + 1, s1.seqCounter);
      var s2 := CloseFrom(cfg, s1, u, i, s1.seqCounter);
      RepointSteers(cfg, s2, u);
      UpdateSharedSteers(cfg, Repoint(cfg, s2, u), Some(u));
    }
  }

  lemma ExitTicks(cfg: Config, s: State, u: nat)
    requires u < |s.threads|
    ensures ThreadExit(cfg, s, u).seqCounter >= s.seqCounter
  {
    hide UpdateShared, CloseAbove;
    var s1 := s.(seqCounter := s.seqCounter + 1);
    CloseAboveCounter(cfg, s1, u, 0, s1.seqCounter);
    UpdateSharedSteers(cfg, Retire(cfg, s1, u, s1.seqCounter), None);
  }

  /** The counter never goes back, and a begin that pushes moves it on. */
  lemma CounterGrows(cfg: Config, s: State, e: Event)
    requires Enabled(cfg, s, e) && cfg.traceLimit > 0
    ensures Step(cfg, s, e).seqCounter >= s.seqCounter
    ensures e.BeginMark? && |s.threads[e.t].stack| < MAX_DEPTH ==> Step(cfg, s, e).seqCounter == s.seqCounter + 1
  {
    hide Begin, End, ThreadExit;
    match e
    case Exec(u, slot, n) =>
    case BeginMark(u, key) => BeginTicks(cfg, s, u, key);
    case EndMark(u, region) => EndTicks(cfg, s, u, region);
    case Start =>
    case Exit(u) => ExitTicks(cfg, s, u);
  }

  /** Pairs relate numbers already drawn. */
  lemma PairsDrawn(cfg: Config, r: Run, t: nat, a: nat, b: nat)
    requires Valid(cfg, r) && cfg.traceLimit > 0 && (a, b) in Nesting(cfg, r, t)
    ensures b <= Final(cfg, r).seqCounter
  {
    if t < |Final(cfg, r).threads| {
      NestingHolds(cfg, r, t);
    } else {
      NoPairsYet(cfg, r, t);
    }
  }

  /** What the run pushed inside `a` is what the run's pairs say. */
  lemma {:induction false} InsideIsWeighed(cfg: Config, r: Run, t: nat, a: nat, target: string,
                                           stateOf: Key -> seq<int>)
    requires Valid(cfg, r) && cfg.traceLimit > 0
    ensures RanInside(cfg, r, t, a, target, stateOf) ==
            PushSum(cfg, r, t, Weighing(Nesting(cfg, r, t), a, target, stateOf))
  {
    hide NextPairs, InsideOf, PushOf;
    match r
    case Empty =>
    case Then(p, e) =>
      var s, c := Final(cfg, p), Final(cfg, p).seqCounter;
      var before := Weighing(Nesting(cfg, p, t), a, target, stateOf);
      var after := Weighing(Nesting(cfg, r, t), a, target, stateOf);
      InsideIsWeighed(cfg, p, t, a, target, stateOf);
      forall b: nat, k: Key | b <= c ensures before(b, k) == after(b, k) {
        OldPairs(s, e, t, Nesting(cfg, p, t), a, b);
      }
      PushSumAgrees(cfg, p, t, c, before, after);
      InsideStep(cfg, p, e, t, a, target, stateOf);
  }

  lemma OldPairs(s: State, e: Event, t: nat, above: set<(nat, nat)>, a: nat, b: nat)
    requires b <= s.seqCounter
    ensures (a, b) in NextPairs(s, e, t, above) <==> (a, b) in above
  {
  }

  lemma InsideStep(cfg: Config, p: Run, e: Event, t: nat, a: nat, target: string, stateOf: Key -> seq<int>)
    requires Valid(cfg, p) && Enabled(cfg, Final(cfg, p), e) && cfg.traceLimit > 0
    ensures var s := Final(cfg, p);
            InsideOf(s, e, t, a, target, stateOf) ==
            PushOf(s, e, t, Weighing(NextPairs(s, e, t, Nesting(cfg, p, t)), a, target, stateOf))
  {
    hide Nesting;
    var s := Final(cfg, p);
    if e.BeginMark? && e.t == t && |s.threads[t].stack| < MAX_DEPTH {
      var b := s.seqCounter + 1;
      if (a, b) in Nesting(cfg, p, t) {
        PairsDrawn(cfg, p, t, a, b);
        assert false;
      }
      NewPairsMean(s.threads[t].stack, a, b);
    }
  }

  lemma NewPairsMean(stack: seq<Frame>, a: nat, b: nat)
    ensures (a, b) in NewPairs(stack, b) <==> Open(stack, a)
  {
  }

  // ---------------------------------------------------------------- what the analysis counts

  lemma {:induction false} BagIsWeighed(trace: seq<TraceRec>, above: set<(nat, nat)>, a: nat, target: string,
                                        stateOf: Key -> seq<int>)
    ensures DynamicBag(trace, above, a, target, stateOf) == TraceSum(trace, Weighing(above, a, target, stateOf))
  {
    hide Excluded;
    if trace != [] {
      BagIsWeighed(trace[..|trace| - 1], above, a, target, stateOf);
    }
  }

  /** No open frame was pushed inside one that is closed. */
  lemma {:induction false} NothingOpenInside(stack: seq<Frame>, above: set<(nat, nat)>, a: nat, target: string,
                                             stateOf: Key -> seq<int>)
    requires forall i :: 0 <= i < |stack| ==> (a, stack[i].seqBegin) !in above
    ensures StackSum(stack, Weighing(above, a, target, stateOf)) == multiset{}
  {
    hide Excluded;
    if stack != [] {
      NothingOpenInside(stack[..|stack| - 1], above, a, target, stateOf);
    }
  }

  lemma RecordIsClosed(cfg: Config, r: Run, t: nat, i: nat, j: nat)
    requires Valid(cfg, r) && cfg.traceLimit > 0 && t < |Final(cfg, r).threads|
    requires i < |Final(cfg, r).threads[t].trace| && j < |Final(cfg, r).threads[t].stack|
    ensures var th := Final(cfg, r).threads[t];
            (th.trace[i].seqBegin, th.stack[j].seqBegin) !in Nesting(cfg, r, t)
  {
    hide Nesting, Final, FramesOrdered, RecordsNest, RecordsPast, PairsGrow;
    NestingHolds(cfg, r, t);
    var th := Final(cfg, r).threads[t];
    assert FrameVsRecord(th.stack[j], th.trace[i], Nesting(cfg, r, t), Final(cfg, r).seqCounter);
  }

  /**
   For every run of the client that dropped no trace record and every trigger in its trace: what the
   analysis counts inside the trigger is exactly, with multiplicity, what the run's begin markers
   pushed on that thread while the trigger's frame was open.
   */
  lemma NestedMapIsWhatRan(cfg: Config, r: Run, t: nat, i: nat, target: string, stateOf: Key -> seq<int>)
    requires Valid(cfg, r) && cfg.traceLimit > 0 && t < |Final(cfg, r).threads|
    requires i < |Final(cfg, r).threads[t].trace| && Final(cfg, r).traceDropped == 0
    ensures var s := Final(cfg, r);
            var trigger := RecsOfThread(s.threads[t].trace, t, stateOf)[i];
            NestedBag(GroupRecs(TraceFile(s.threads, stateOf), t), trigger, target) ==
            RanInside(cfg, r, t, s.threads[t].trace[i].seqBegin, target, stateOf)
  {
    hide Nesting, Final, NestedBag, TraceFile, GroupRecs, RanInside, PushSum, TraceSum, StackSum, Weighing, DynamicBag;
    var th, above := Final(cfg, r).threads[t], Nesting(cfg, r, t);
    var a := th.trace[i].seqBegin;
    NestedMapIsDynamicNesting(cfg, r, t, i, target, stateOf);
    BagIsWeighed(th.trace, above, a, target, stateOf);
    TraceIsExact(cfg, r, t, Weighing(above, a, target, stateOf));
    forall j | 0 <= j < |th.stack| ensures (a, th.stack[j].seqBegin) !in above {
      RecordIsClosed(cfg, r, t, i, j);
    }
    NothingOpenInside(th.stack, above, a, target, stateOf);
    InsideIsWeighed(cfg, r, t, a, target, stateOf);
  }
}
