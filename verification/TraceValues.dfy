/**
 What a trace record says of its frame: where the thread's count stood when it was pushed, what ran
 while it was open and while it was innermost, and whether an end marker of its own closed it.
 */
module TraceValues {
  import opened Options
  import opened Attribution
  import opened AttributionInvariant
  import opened Accounting
  import opened TraceNesting
  import opened Reports

  // ---------------------------------------------------------------- a frame's values, of the run

  predicate OpenAs(stack: seq<Frame>, b: nat) {
    exists i :: 0 <= i < |stack| && stack[i].seqBegin == b
  }

  predicate TopIs(stack: seq<Frame>, b: nat) {
    stack != [] && stack[|stack| - 1].seqBegin == b
  }

  /** All that thread `t` has run. */
  ghost function RanOn(cfg: Config, r: Run, t: nat): nat
    requires Valid(cfg, r)
  {
    match r
    case Empty => 0
    case Then(p, e) => RanOn(cfg, p, t) + if e.Exec? && e.t == t then e.n else 0
  }

  /** What it ran while frame `b` was open. */
  ghost function RanOpen(cfg: Config, r: Run, t: nat, b: nat): nat
    requires Valid(cfg, r)
  {
    match r
    case Empty => 0
    case Then(p, e) =>
      RanOpen(cfg, p, t, b) + if e.Exec? && e.t == t && OpenAs(Final(cfg, p).threads[t].stack, b) then e.n else 0
  }

  /** What it ran while frame `b` was innermost. */
  ghost function RanTop(cfg: Config, r: Run, t: nat, b: nat): nat
    requires Valid(cfg, r)
  {
    match r
    case Empty => 0
    case Then(p, e) =>
      RanTop(cfg, p, t, b) + if e.Exec? && e.t == t && TopIs(Final(cfg, p).threads[t].stack, b) then e.n else 0
  }

  predicate PushesAs(s: State, e: Event, t: nat, b: nat) {
    e.BeginMark? && e.t == t && t < |s.threads| && |s.threads[t].stack| < 64 && b == s.seqCounter + 1
  }

  /** What it had run when frame `b` was pushed. */
  ghost function RanBefore(cfg: Config, r: Run, t: nat, b: nat): nat
    requires Valid(cfg, r)
  {
    match r
    case Empty => 0
    case Then(p, e) =>
      if PushesAs(Final(cfg, p), e, t, b) then RanOn(cfg, p, t) else RanBefore(cfg, p, t, b)
  }

  /** The event is the end marker of frame `b`: the innermost one of the region it names. */
  predicate EndsAs(s: State, e: Event, t: nat, b: nat) {
    && e.EndMark? && e.t == t && t < |s.threads|
    && var i := FindFrame(s.threads[t].stack, RegionName(e.region));
       i >= 0 && s.threads[t].stack[i].seqBegin == b
  }

  /** Some end marker was that of frame `b`. */
  ghost predicate EndedItself(cfg: Config, r: Run, t: nat, b: nat)
    requires Valid(cfg, r)
  {
    match r
    case Empty => false
    case Then(p, e) => EndedItself(cfg, p, t, b) || EndsAs(Final(cfg, p), e, t, b)
  }

  // ---------------------------------------------------------------- the invariant of one thread

  /** The values the run gives each frame number. */
  datatype Values = Values(open: nat -> nat, top: nat -> nat, before: nat -> nat, itself: nat -> bool)

  function UpTo(th: Thread, i: nat): int
    requires i < |th.stack|
  {
    if i == |th.stack| - 1 then th.total else th.stack[i + 1].totalAtBegin
  }

  ghost predicate FrameSays(th: Thread, i: nat, v: Values)
    requires i < |th.stack|
  {
    var f := th.stack[i];
    && th.total - f.totalAtBegin == v.open(f.seqBegin)
    && UpTo(th, i) - f.totalAtBegin - f.childrenIncl == v.top(f.seqBegin)
    && f.totalAtBegin == v.before(f.seqBegin)
    && !v.itself(f.seqBegin)
  }

  ghost predicate RecSays(x: TraceRec, v: Values) {
    && x.incl == v.open(x.seqBegin) && x.self == v.top(x.seqBegin) && x.clockBegin == v.before(x.seqBegin)
    && (x.implicit <==> !v.itself(x.seqBegin))
  }

  ghost predicate ThreadSays(th: Thread, v: Values) {
    && (forall i :: 0 <= i < |th.stack| ==> FrameSays(th, i, v))
    && (forall j :: 0 <= j < |th.trace| ==> RecSays(th.trace[j], v))
  }

  /** No two frames of the thread, open or recorded, have the same number. */
  ghost predicate Apart(th: Thread) {
    && (forall i, j :: 0 <= i < j < |th.stack| ==> th.stack[i].seqBegin != th.stack[j].seqBegin)
    && (forall i, j :: 0 <= i < |th.stack| && 0 <= j < |th.trace| ==> th.stack[i].seqBegin != th.trace[j].seqBegin)
  }

  lemma NestedApart(th: Thread, above: set<(nat, nat)>, c: nat)
    requires NestOk(th, above, c)
    ensures Apart(th)
  {
    forall i, j | 0 <= i < |th.stack| && 0 <= j < |th.trace| ensures th.stack[i].seqBegin != th.trace[j].seqBegin {
      assert FrameVsRecord(th.stack[i], th.trace[j], above, c);
    }
  }

  // ---------------------------------------------------------------- one frame closes

  lemma ClosedSays(th: Thread, th': Thread, v: Values, seqEnd: nat, implicit: bool)
    requires th.stack != [] && ThreadSays(th, v)
    requires th'.stack == PopStack(th.stack, th.total) && th'.total == th.total
    requires th'.trace == th.trace || th'.trace == th.trace + [ClosingRec(th, seqEnd, implicit)]
    ensures implicit ==> ThreadSays(th', v)
  {
    var n := |th.stack| - 1;
    PopKeepsKeys(th.stack, th.total);
    assert FrameSays(th, n, v);
    forall i | 0 <= i < |th'.stack| ensures FrameSays(th', i, v) {
      assert FrameSays(th, i, v);
      if i < n - 1 {
        assert th'.stack[i] == th.stack[i] && th'.stack[i + 1].totalAtBegin == th.stack[i + 1].totalAtBegin;
      }
    }
  }

  ghost predicate SameRan(v: Values, v': Values) {
    forall b: nat :: v'.open(b) == v.open(b) && v'.top(b) == v.top(b) && v'.before(b) == v.before(b)
  }

  /** The frame an end marker names is closed last, by itself. */
  lemma EndedSays(th: Thread, th': Thread, v: Values, v': Values, seqEnd: nat)
    requires th.stack != [] && ThreadSays(th, v) && Apart(th)
    requires th'.stack == PopStack(th.stack, th.total) && th'.total == th.total
    requires th'.trace == th.trace || th'.trace == th.trace + [ClosingRec(th, seqEnd, false)]
    requires SameRan(v, v')
    requires forall b: nat :: v'.itself(b) <==> v.itself(b) || b == th.stack[|th.stack| - 1].seqBegin
    ensures ThreadSays(th', v')
  {
    var n := |th.stack| - 1;
    PopKeepsKeys(th.stack, th.total);
    assert FrameSays(th, n, v);
    forall i | 0 <= i < |th'.stack| ensures FrameSays(th', i, v') {
      assert FrameSays(th, i, v);
      if i < n - 1 {
        assert th'.stack[i] == th.stack[i] && th'.stack[i + 1].totalAtBegin == th.stack[i + 1].totalAtBegin;
      }
    }
    forall j | 0 <= j < |th'.trace| ensures RecSays(th'.trace[j], v') {
      if j < |th.trace| {
        assert RecSays(th.trace[j], v);
      }
    }
  }

  // ---------------------------------------------------------------- the events

  ghost predicate Says(s: State, t: nat, v: Values) {
    t < |s.threads| && ThreadSays(s.threads[t], v)
  }

  lemma SameSays(th: Thread, th': Thread, v: Values)
    requires ThreadSays(th, v) && th'.stack == th.stack && th'.trace == th.trace && th'.total == th.total
    ensures ThreadSays(th', v)
  {
    forall i | 0 <= i < |th'.stack| ensures FrameSays(th', i, v) {
      assert FrameSays(th, i, v);
    }
  }

  lemma SteeredSays(cfg: Config, s: State, s': State, t: nat, v: Values)
    requires Steered(cfg, s, s') && Says(s, t, v)
    ensures Says(s', t, v)
  {
    hide ThreadSays;
    SameSays(s.threads[t], s'.threads[t], v);
  }

  lemma CloseFrameSays(cfg: Config, s: State, u: nat, seqEnd: nat, t: nat, v: Values)
    requires u < |s.threads| && s.threads[u].stack != [] && Says(s, t, v)
    ensures Says(CloseFrame(cfg, s, u, seqEnd, true), t, v)
  {
    hide ThreadSays, PopStack, ClosingRec, StatsOf;
    if u == t {
      ClosedSays(s.threads[t], CloseFrame(cfg, s, u, seqEnd, true).threads[t], v, seqEnd, true);
    }
  }

  /** Closing what is above keeps the frames below, and what they and the records say. */
  lemma {:induction false} CloseAboveSays(cfg: Config, s: State, u: nat, d: nat, seqEnd: nat, t: nat, v: Values)
    requires u < |s.threads| && d <= |s.threads[u].stack| && Says(s, t, v)
    ensures var s' := CloseAbove(cfg, s, u, d, seqEnd);
            && Says(s', t, v)
            && forall j :: 0 <= j < d ==> s'.threads[u].stack[j].seqBegin == s.threads[u].stack[j].seqBegin
    decreases |s.threads[u].stack|
  {
    hide ThreadSays;
    if |s.threads[u].stack| > d {
      PopKeepsKeys(s.threads[u].stack, s.threads[u].total);
      CloseFrameSays(cfg, s, u, seqEnd, t, v);
      CloseAboveSays(cfg, CloseFrame(cfg, s, u, seqEnd, true), u, d, seqEnd, t, v);
    }
  }

  lemma EndSays(cfg: Config, s: State, u: nat, region: string, t: nat, v: Values, v': Values, above: set<(nat, nat)>)
    requires cfg.traceLimit > 0 && u < |s.threads| && Says(s, t, v) && Nested(s, t, above)
    requires SameRan(v, v')
    requires forall b: nat :: v'.itself(b) <==> v.itself(b) || EndsAs(s, EndMark(u, region), t, b)
    ensures Says(End(cfg, s, u, region), t, v')
  {
    hide UpdateShared, CloseAbove, ThreadSays, NestOk, PopStack, StatsOf, FindFrame;
    var i := FindFrame(s.threads[u].stack, RegionName(region));
    if i >= 0 {
      var s1 := Tick(cfg, s);
      TickNests(s.threads[t], above, s.seqCounter, s1.seqCounter);
      CloseAboveSays(cfg, s1, u, i + 1, s1.seqCounter, t, v);
      CloseAboveNests(cfg, s1, u, i + 1, t, above);
      var s2 := CloseAbove(cfg, s1, u, i + 1, s1.seqCounter);
      var s3 := CloseFrame(cfg, s2, u, s1.seqCounter, false);
      if u == t {
        NestedApart(s2.threads[t], above, s1.seqCounter);
        EndedSays(s2.threads[t], s3.threads[t], v, v', s1.seqCounter);
      } else {
        ItselfSays(s2.threads[t], v, v');
      }
      RepointSteers(cfg, s3, u);
      var s4 := Repoint(cfg, s3, u);
      SteeredSays(cfg, s3, s4, t, v');
      UpdateSharedSteers(cfg, s4, Some(u));
      SteeredSays(cfg, s4, UpdateShared(cfg, s4, Some(u)), t, v');
    } else {
      ItselfSays(s.threads[t], v, v');
    }
  }

  /** Values that agree on everything. */
  lemma ItselfSays(th: Thread, v: Values, v': Values)
    requires ThreadSays(th, v) && SameRan(v, v') && forall b: nat :: v'.itself(b) <==> v.itself(b)
    ensures ThreadSays(th, v')
  {
    forall i | 0 <= i < |th.stack| ensures FrameSays(th, i, v') {
      assert FrameSays(th, i, v);
    }
    forall j | 0 <= j < |th.trace| ensures RecSays(th.trace[j], v') {
      assert RecSays(th.trace[j], v);
    }
  }

  lemma ExitSays(cfg: Config, s: State, u: nat, t: nat, v: Values)
    requires u < |s.threads| && Says(s, t, v)
    ensures Says(ThreadExit(cfg, s, u), t, v)
  {
    hide UpdateShared, CloseAbove, ThreadSays;
    var s1 := s.(seqCounter := s.seqCounter + 1);
    CloseAboveSays(cfg, s1, u, 0, s1.seqCounter, t, v);
    var s2 := CloseAbove(cfg, s1, u, 0, s1.seqCounter);
    var s3 := Retire(cfg, s1, u, s1.seqCounter);
    SameSays(s2.threads[t], s3.threads[t], v);
    UpdateSharedSteers(cfg, s3, None);
    SteeredSays(cfg, s3, UpdateShared(cfg, s3, None), t, v);
  }

  /** A frame numbered `b` is pushed: nothing ran in it yet. */
  lemma PushSays(th: Thread, th': Thread, f: Frame, v: Values, v': Values)
    requires ThreadSays(th, v) && th'.stack == th.stack + [f] && th'.trace == th.trace && th'.total == th.total
    requires f.totalAtBegin == th.total && f.childrenIncl == 0
    requires forall i :: 0 <= i < |th.stack| ==> th.stack[i].seqBegin != f.seqBegin
    requires forall j :: 0 <= j < |th.trace| ==> th.trace[j].seqBegin != f.seqBegin
    requires forall b: nat :: v'.open(b) == v.open(b) && v'.top(b) == v.top(b) && (v'.itself(b) <==> v.itself(b))
    requires forall b: nat :: v'.before(b) == if b == f.seqBegin then th.total else v.before(b)
    requires v.open(f.seqBegin) == 0 && v.top(f.seqBegin) == 0 && !v.itself(f.seqBegin)
    ensures ThreadSays(th', v')
  {
    forall i | 0 <= i < |th'.stack| ensures FrameSays(th', i, v') {
      if i < |th.stack| {
        assert FrameSays(th, i, v);
      }
    }
    forall j | 0 <= j < |th'.trace| ensures RecSays(th'.trace[j], v') {
      assert RecSays(th.trace[j], v);
    }
  }

  /** A block runs: every open frame has it, the innermost one as its own. */
  lemma ExecSays(th: Thread, th': Thread, n: nat, v: Values, v': Values)
    requires ThreadSays(th, v) && Apart(th)
    requires th'.stack == th.stack && th'.trace == th.trace && th'.total == th.total + n
    requires forall b: nat :: v'.before(b) == v.before(b) && (v'.itself(b) <==> v.itself(b))
    requires forall b: nat :: v'.open(b) == v.open(b) + if OpenAs(th.stack, b) then n else 0
    requires forall b: nat :: v'.top(b) == v.top(b) + if TopIs(th.stack, b) then n else 0
    ensures ThreadSays(th', v')
  {
    forall i | 0 <= i < |th'.stack| ensures FrameSays(th', i, v') {
      assert FrameSays(th, i, v);
      assert OpenAs(th.stack, th.stack[i].seqBegin);
    }
    forall j | 0 <= j < |th'.trace| ensures RecSays(th'.trace[j], v') {
      assert RecSays(th.trace[j], v);
    }
  }

  // ---------------------------------------------------------------- the run

  ghost function ValuesOf(cfg: Config, r: Run, t: nat): Values
    requires Valid(cfg, r)
  {
    Values((b: nat) => RanOpen(cfg, r, t, b), (b: nat) => RanTop(cfg, r, t, b), (b: nat) => RanBefore(cfg, r, t, b),
           (b: nat) => EndedItself(cfg, r, t, b))
  }

  /** Numbers not drawn yet have no values. */
  lemma {:induction false} NotYet(cfg: Config, r: Run, t: nat, b: nat)
    requires Valid(cfg, r) && cfg.traceLimit > 0 && b > Final(cfg, r).seqCounter
    ensures RanOpen(cfg, r, t, b) == 0 && RanTop(cfg, r, t, b) == 0 && !EndedItself(cfg, r, t, b)
  {
    hide Step, FindFrame;
    match r
    case Empty =>
    case Then(p, e) =>
      var s := Final(cfg, p);
      CounterOnward(cfg, s, e);
      NotYet(cfg, p, t, b);
      if t < |s.threads| {
        NestingHolds(cfg, p, t);
        NumbersDrawn(s.threads[t], Nesting(cfg, p, t), s.seqCounter, b);
      }
  }

  lemma NumbersDrawn(th: Thread, above: set<(nat, nat)>, c: nat, b: nat)
    requires NestOk(th, above, c) && b > c
    ensures !OpenAs(th.stack, b) && forall i :: 0 <= i < |th.stack| ==> th.stack[i].seqBegin != b
    ensures forall j :: 0 <= j < |th.trace| ==> th.trace[j].seqBegin != b
  {
  }

  lemma CounterOnward(cfg: Config, s: State, e: Event)
    requires Enabled(cfg, s, e)
    ensures s.seqCounter <= Step(cfg, s, e).seqCounter
  {
    hide UpdateShared, CloseAbove, FindFrame;
    match e
    case Exec(u, slot, n) =>
    case BeginMark(u, key) =>
      if |s.threads[u].stack| < MAX_DEPTH {
        var s1 := Tick(cfg, s);
        UpdateSharedSteers(cfg, Push(cfg, s1, u, key, Ticket(cfg, s1)), Some(u));
      }
    case EndMark(u, region) => EndOnward(cfg, s, u, region);
    case Start =>
    case Exit(u) =>
      var s1 := s.(seqCounter := s.seqCounter + 1);
      CloseAboveCounter(cfg, s1, u, 0, s1.seqCounter);
      UpdateSharedSteers(cfg, Retire(cfg, s1, u, s1.seqCounter), None);
  }

  lemma EndOnward(cfg: Config, s: State, u: nat, region: string)
    requires u < |s.threads|
    ensures s.seqCounter <= End(cfg, s, u, region).seqCounter
  {
    hide UpdateShared, CloseAbove, FindFrame;
    var i := FindFrame(s.threads[u].stack, RegionName(region));
    if i >= 0 {
      var s1 := Tick(cfg, s);
      CloseAboveCounter(cfg, s1, u, i + 1, Ticket(cfg, s1));
      var s2 := CloseFrom(cfg, s1, u, i, Ticket(cfg, s1));
      RepointSteers(cfg, s2, u);
      UpdateSharedSteers(cfg, Repoint(cfg, s2, u), Some(u));
    }
  }

  lemma BeginSays(cfg: Config, s: State, u: nat, key: Key, t: nat, v: Values, v': Values, above: set<(nat, nat)>)
    requires cfg.traceLimit > 0 && u < |s.threads| && Says(s, t, v) && Nested(s, t, above)
    requires forall b: nat :: v'.open(b) == v.open(b) && v'.top(b) == v.top(b) && (v'.itself(b) <==> v.itself(b))
    requires forall b: nat ::
               v'.before(b) == if PushesAs(s, BeginMark(u, key), t, b) then s.threads[t].total else v.before(b)
    requires var b := s.seqCounter + 1; v.open(b) == 0 && v.top(b) == 0 && !v.itself(b)
    ensures Says(Begin(cfg, s, u, key), t, v')
  {
    hide UpdateShared, ThreadSays, NestOk;
    if |s.threads[u].stack| < MAX_DEPTH {
      var s1 := Tick(cfg, s);
      var s2 := Push(cfg, s1, u, key, Ticket(cfg, s1));
      if u == t {
        NumbersDrawn(s.threads[t], above, s.seqCounter, s.seqCounter + 1);
        PushSays(s.threads[t], s2.threads[t], s2.threads[t].stack[|s.threads[t].stack|], v, v');
      } else {
        ItselfSays(s.threads[t], v, v');
      }
      UpdateSharedSteers(cfg, s2, Some(u));
      SteeredSays(cfg, s2, UpdateShared(cfg, s2, Some(u)), t, v');
    } else {
      ItselfSays(s.threads[t], v, v');
    }
  }

  lemma {:induction false} TotalIsRan(cfg: Config, r: Run, t: nat)
    requires Valid(cfg, r)
    ensures RanOn(cfg, r, t) == if t < |Final(cfg, r).threads| then Final(cfg, r).threads[t].total else 0
  {
    hide Begin, End, ThreadExit, ThreadInit;
    match r
    case Empty =>
    case Then(p, e) =>
      var s := Final(cfg, p);
      TotalIsRan(cfg, p, t);
      ThreadsStay(cfg, s, e);
      if t >= |s.threads| {
        FreshThread(cfg, s);
      } else if !e.Exec? {
        MarkersCountNothing(cfg, s, e, t, Key(0, ""));
      }
  }

  lemma FreshThread(cfg: Config, s: State)
    ensures var th := ThreadInit(cfg, s).threads[|s.threads|]; th.total == 0 && th.stack == [] && th.trace == []
  {
  }

  lemma ExecStepSays(cfg: Config, s: State, u: nat, slot: nat, n: nat, t: nat, v: Values, v': Values,
                     above: set<(nat, nat)>)
    requires u < |s.threads| && Says(s, t, v) && Nested(s, t, above)
    requires forall b: nat :: v'.before(b) == v.before(b) && (v'.itself(b) <==> v.itself(b))
    requires forall b: nat :: v'.open(b) == v.open(b) + if u == t && OpenAs(s.threads[t].stack, b) then n else 0
    requires forall b: nat :: v'.top(b) == v.top(b) + if u == t && TopIs(s.threads[t].stack, b) then n else 0
    ensures Says(ExecBlock(s, u, slot, n), t, v')
  {
    hide ThreadSays, NestOk, OpenAs, TopIs;
    if u == t {
      NestedApart(s.threads[t], above, s.seqCounter);
      ExecSays(s.threads[t], ExecBlock(s, u, slot, n).threads[t], n, v, v');
    } else {
      ItselfSays(s.threads[t], v, v');
    }
  }

  lemma StepSays(cfg: Config, p: Run, e: Event, t: nat)
    requires Valid(cfg, Then(p, e)) && cfg.traceLimit > 0 && t < |Final(cfg, p).threads|
    requires Says(Final(cfg, p), t, ValuesOf(cfg, p, t))
    ensures Says(Final(cfg, Then(p, e)), t, ValuesOf(cfg, Then(p, e), t))
  {
    hide ThreadSays, Begin, End, ThreadExit, ExecBlock, NestOk, Nesting, OpenAs, TopIs, FindFrame;
    var s, v, v' := Final(cfg, p), ValuesOf(cfg, p, t), ValuesOf(cfg, Then(p, e), t);
    var above := Nesting(cfg, p, t);
    NestingHolds(cfg, p, t);
    NotYet(cfg, p, t, s.seqCounter + 1);
    TotalIsRan(cfg, p, t);
    match e
    case Exec(u, slot, n) => ExecStepSays(cfg, s, u, slot, n, t, v, v', above);
    case BeginMark(u, key) => BeginSays(cfg, s, u, key, t, v, v', above);
    case EndMark(u, region) => EndSays(cfg, s, u, region, t, v, v', above);
    case Start => ItselfSays(s.threads[t], v, v');
    case Exit(u) =>
      ItselfSays(s.threads[t], v, v');
      ExitSays(cfg, s, u, t, v');
  }

  lemma {:induction false} ThreadsSay(cfg: Config, r: Run, t: nat)
    requires Valid(cfg, r) && cfg.traceLimit > 0 && t < |Final(cfg, r).threads|
    ensures Says(Final(cfg, r), t, ValuesOf(cfg, r, t))
  {
    hide ThreadSays, Step, ValuesOf;
    match r
    case Empty =>
    case Then(p, e) =>
      ThreadsStay(cfg, Final(cfg, p), e);
      if t < |Final(cfg, p).threads| {
        ThreadsSay(cfg, p, t);
        StepSays(cfg, p, e, t);
      } else {
        StartSays(cfg, p, e, t);
      }
  }

  lemma StartSays(cfg: Config, p: Run, e: Event, t: nat)
    requires Valid(cfg, Then(p, e)) && |Final(cfg, p).threads| <= t < |Final(cfg, Then(p, e)).threads|
    ensures Says(Final(cfg, Then(p, e)), t, ValuesOf(cfg, Then(p, e), t))
  {
    ThreadsStay(cfg, Final(cfg, p), e);
    assert e == Start;
    FreshThread(cfg, Final(cfg, p));
  }

  /**
   Every trace record of every run: its clock is what the thread had run when the frame was pushed, its
   inclusive count what it ran while the frame was open, its self count what it ran while it was
   innermost, and it is implicit exactly if no end marker was the frame's own.
   */
  lemma RecordsSayTheRun(cfg: Config, r: Run, t: nat, j: nat)
    requires Valid(cfg, r) && cfg.traceLimit > 0 && t < |Final(cfg, r).threads|
    requires j < |Final(cfg, r).threads[t].trace|
    ensures var x := Final(cfg, r).threads[t].trace[j];
            && x.clockBegin == RanBefore(cfg, r, t, x.seqBegin)
            && x.incl == RanOpen(cfg, r, t, x.seqBegin)
            && x.self == RanTop(cfg, r, t, x.seqBegin)
            && (x.implicit <==> !EndedItself(cfg, r, t, x.seqBegin))
  {
    hide Final, Valid;
    ThreadsSay(cfg, r, t);
    assert RecSays(Final(cfg, r).threads[t].trace[j], ValuesOf(cfg, r, t));
  }

  // ---------------------------------------------------------------- what is reported of a key

  lemma {:induction false} RanWithin(cfg: Config, r: Run, t: nat, b: nat)
    requires Valid(cfg, r)
    ensures RanTop(cfg, r, t, b) <= RanOpen(cfg, r, t, b) <= RanOn(cfg, r, t)
  {
    hide Step;
    match r
    case Empty =>
    case Then(p, e) => RanWithin(cfg, p, t, b);
  }

  lemma RecordFits(cfg: Config, r: Run, t: nat, j: nat)
    requires Valid(cfg, r) && cfg.traceLimit > 0 && t < |Final(cfg, r).threads|
    requires j < |Final(cfg, r).threads[t].trace|
    ensures var x := Final(cfg, r).threads[t].trace[j]; 0 <= x.self <= x.incl <= 0xFFFF_FFFF_FFFF_FFFF
  {
    hide Final, Valid, Base, PointersOk;
    var s := Final(cfg, r);
    RecordsSayTheRun(cfg, r, t, j);
    RanWithin(cfg, r, t, s.threads[t].trace[j].seqBegin);
    TotalIsRan(cfg, r, t);
    Reachable(cfg, r);
    TotalFits(cfg, s, t);
  }

  lemma TotalFits(cfg: Config, s: State, t: nat)
    requires Base(cfg, s) && t < |s.threads|
    ensures s.threads[t].total <= 0xFFFF_FFFF_FFFF_FFFF
  {
    assert ThreadOk(cfg, s, t);
  }

  lemma {:induction false} RecordOfThread(threads: seq<Thread>, i: nat) returns (t: nat, j: nat)
    requires i < |AllTraces(threads)|
    ensures t < |threads| && j < |threads[t].trace| && threads[t].trace[j] == AllTraces(threads)[i]
  {
    var n := |threads| - 1;
    if i < |AllTraces(threads[..n])| {
      t, j := RecordOfThread(threads[..n], i);
    } else {
      t, j := n, i - |AllTraces(threads[..n])|;
    }
  }

  /** What the client reports of a key is what all threads' records of it say; all zeros if there are none. */
  lemma MergedMeaning(cfg: Config, r: Run, k: Key)
    requires Valid(cfg, r) && cfg.traceLimit > 0 && Final(cfg, r).traceDropped == 0
    ensures var s := Final(cfg, r);
            && Summarizes(MergeStats(s.threads, k), AllTraces(s.threads), k)
            && (CountOf(AllTraces(s.threads), k) == 0 ==> MergeStats(s.threads, k) == KStats(0, 0, 0, 0, 0, 0, 0, 0))
  {
    hide Final, Valid, Summarize, HasIncl, HasSelf, AllTraces;
    var threads := Final(cfg, r).threads;
    var trace := AllTraces(threads);
    MergedStatsSummarizeTheTrace(cfg, r, k);
    forall i | 0 <= i < |trace| ensures 0 <= trace[i].self <= trace[i].incl <= 0xFFFF_FFFF_FFFF_FFFF {
      var t, j := RecordOfThread(threads, i);
      RecordFits(cfg, r, t, j);
    }
    SummaryMeaning(trace, k);
    if CountOf(trace, k) == 0 {
      NoneOf(trace, k);
    }
  }
}
