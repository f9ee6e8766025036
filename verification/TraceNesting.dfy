/**
 Sequence-number intervals in the trace are dynamic nesting.

 The client never records which frame was inside which.  The analysis recovers it from the
 numbers drawn at begin and end markers, although frames closed implicitly by one end
 marker, or by the exit of their thread, share a single end number.
 */
module TraceNesting {
  import opened Options
  import opened Attribution
  import opened AttributionInvariant
  import opened Accounting

  /** Pairs (a, b): the frame numbered `b` was pushed on thread `t` while frame `a` was open there. */
  ghost function Nesting(cfg: Config, r: Run, t: nat): set<(nat, nat)>
    requires Valid(cfg, r)
  {
    match r
    case Empty => {}
    case Then(p, e) => NextPairs(Final(cfg, p), e, t, Nesting(cfg, p, t))
  }

  /** A begin marker that pushes a frame on `t` relates it to every frame open there. */
  ghost function NextPairs(s: State, e: Event, t: nat, above: set<(nat, nat)>): set<(nat, nat)> {
    if e.BeginMark? && e.t == t && t < |s.threads| && |s.threads[t].stack| < MAX_DEPTH then
      above + NewPairs(s.threads[t].stack, s.seqCounter + 1)
    else above
  }

  ghost function NewPairs(stack: seq<Frame>, b: nat): set<(nat, nat)> {
    set i | 0 <= i < |stack| :: (stack[i].seqBegin, b)
  }

  /** Numbers of all frames ever pushed on thread `t`. */
  ghost function Pushed(cfg: Config, r: Run, t: nat): set<nat>
    requires Valid(cfg, r)
  {
    match r
    case Empty => {}
    case Then(p, e) =>
      var s := Final(cfg, p);
      if e.BeginMark? && e.t == t && |s.threads[t].stack| < MAX_DEPTH then
        Pushed(cfg, p, t) + {s.seqCounter + 1}
      else Pushed(cfg, p, t)
  }

  /** The interval test. */
  predicate Inside(x: TraceRec, y: TraceRec) {
    x.seqBegin < y.seqBegin && y.seqEnd <= x.seqEnd
  }

  // ---------------------------------------------------------------- the invariant

  ghost predicate FramesOrdered(th: Thread, above: set<(nat, nat)>, c: nat) {
    && (forall i :: 0 <= i < |th.stack| ==> th.stack[i].seqBegin <= c)
    && (forall i, j :: 0 <= i < j < |th.stack| ==>
          th.stack[i].seqBegin < th.stack[j].seqBegin && (th.stack[i].seqBegin, th.stack[j].seqBegin) in above)
  }

  ghost predicate FrameVsRecord(f: Frame, x: TraceRec, above: set<(nat, nat)>, c: nat) {
    && x.seqBegin != f.seqBegin
    && (x.seqBegin, f.seqBegin) !in above
    && ((f.seqBegin, x.seqBegin) in above <==> f.seqBegin < x.seqBegin)
    && (x.seqEnd == c ==> f.seqBegin < x.seqBegin)
  }

  ghost predicate FramesVsRecords(th: Thread, above: set<(nat, nat)>, c: nat) {
    forall i, j :: 0 <= i < |th.stack| && 0 <= j < |th.trace| ==>
      FrameVsRecord(th.stack[i], th.trace[j], above, c)
  }

  ghost predicate RecordsNest(th: Thread, above: set<(nat, nat)>) {
    forall i, j :: 0 <= i < |th.trace| && 0 <= j < |th.trace| ==>
      (Inside(th.trace[i], th.trace[j]) <==> (th.trace[i].seqBegin, th.trace[j].seqBegin) in above)
  }

  ghost predicate RecordsPast(th: Thread, c: nat) {
    forall j :: 0 <= j < |th.trace| ==> th.trace[j].seqBegin <= c && th.trace[j].seqEnd <= c
  }

  ghost predicate PairsGrow(above: set<(nat, nat)>, c: nat) {
    forall a, b :: (a, b) in above ==> a < b <= c
  }

  ghost predicate NestOk(th: Thread, above: set<(nat, nat)>, c: nat) {
    && FramesOrdered(th, above, c) && FramesVsRecords(th, above, c)
    && RecordsNest(th, above) && RecordsPast(th, c) && PairsGrow(above, c)
  }

  // ---------------------------------------------------------------- one frame at a time

  /** The counter moved on: nothing ended at its new value yet. */
  lemma TickNests(th: Thread, above: set<(nat, nat)>, c: nat, c': nat)
    requires NestOk(th, above, c) && c < c'
    ensures NestOk(th, above, c')
    ensures forall j :: 0 <= j < |th.trace| ==> th.trace[j].seqEnd < c'
  {
    forall i, j | 0 <= i < |th.stack| && 0 <= j < |th.trace|
      ensures FrameVsRecord(th.stack[i], th.trace[j], above, c')
    {
      assert FrameVsRecord(th.stack[i], th.trace[j], above, c);
    }
  }

  lemma PushNests(th: Thread, th': Thread, f: Frame, above: set<(nat, nat)>, c: nat)
    requires NestOk(th, above, c) && f.seqBegin == c + 1
    requires th'.stack == th.stack + [f] && th'.trace == th.trace
    ensures NestOk(th', above + NewPairs(th.stack, c + 1), c + 1)
  {
    var above' := above + NewPairs(th.stack, c + 1);
    assert PairsGrow(above', c + 1);
    forall i, j | 0 <= i < |th'.stack| && 0 <= j < |th'.trace|
      ensures FrameVsRecord(th'.stack[i], th'.trace[j], above', c + 1)
    {
      if i < |th.stack| {
        assert FrameVsRecord(th.stack[i], th.trace[j], above, c);
      }
    }
    forall i, j | 0 <= i < j < |th'.stack|
      ensures th'.stack[i].seqBegin < th'.stack[j].seqBegin && (th'.stack[i].seqBegin, th'.stack[j].seqBegin) in above'
    {
      if j == |th.stack| {
        assert th.stack[i].seqBegin <= c;
        assert (th.stack[i].seqBegin, c + 1) in NewPairs(th.stack, c + 1);
      }
    }
    forall i, j | 0 <= i < |th.trace| && 0 <= j < |th.trace|
      ensures (th.trace[i].seqBegin, th.trace[j].seqBegin) in above' <==>
              (th.trace[i].seqBegin, th.trace[j].seqBegin) in above
    {
      assert th.trace[j].seqBegin <= c;
    }
  }

  /** Closing the top frame at the counter's current value. */
  lemma PopNests(th: Thread, th': Thread, rec: TraceRec, above: set<(nat, nat)>, c: nat)
    requires NestOk(th, above, c) && th.stack != []
    requires |th'.stack| == |th.stack| - 1
    requires forall i :: 0 <= i < |th'.stack| ==> th'.stack[i].seqBegin == th.stack[i].seqBegin
    requires th'.trace == th.trace || th'.trace == th.trace + [rec]
    requires rec.seqBegin == th.stack[|th.stack| - 1].seqBegin && rec.seqEnd == c
    ensures NestOk(th', above, c)
  {
    var d := |th.stack| - 1;
    forall i, j | 0 <= i < |th'.stack| && 0 <= j < |th'.trace|
      ensures FrameVsRecord(th'.stack[i], th'.trace[j], above, c)
    {
      if j < |th.trace| {
        assert FrameVsRecord(th.stack[i], th.trace[j], above, c);
      } else {
        assert th.stack[i].seqBegin < th.stack[d].seqBegin;
      }
    }
    forall i, j | 0 <= i < |th'.trace| && 0 <= j < |th'.trace|
      ensures Inside(th'.trace[i], th'.trace[j]) <==> (th'.trace[i].seqBegin, th'.trace[j].seqBegin) in above
    {
      if i == |th.trace| && j < |th.trace| {
        assert FrameVsRecord(th.stack[d], th.trace[j], above, c);
        assert th.trace[j].seqEnd <= c;
      } else if i < |th.trace| && j == |th.trace| {
        assert FrameVsRecord(th.stack[d], th.trace[i], above, c);
        assert th.trace[i].seqEnd <= c;
      }
    }
  }

  lemma CloseFrameNests(cfg: Config, s: State, u: nat, implicit: bool, t: nat, above: set<(nat, nat)>)
    requires u < |s.threads| && s.threads[u].stack != [] && t < |s.threads|
    requires NestOk(s.threads[t], above, s.seqCounter)
    ensures NestOk(CloseFrame(cfg, s, u, s.seqCounter, implicit).threads[t], above, s.seqCounter)
  {
    if t == u {
      var th := s.threads[t];
      PopKeepsKeys(th.stack, th.total);
      PopNests(th, CloseFrame(cfg, s, u, s.seqCounter, implicit).threads[t],
               ClosingRec(th, s.seqCounter, implicit), above, s.seqCounter);
    }
  }

  lemma {:induction false} CloseAboveNests(cfg: Config, s: State, u: nat, d: nat, t: nat, above: set<(nat, nat)>)
    requires u < |s.threads| && d <= |s.threads[u].stack| && t < |s.threads|
    requires NestOk(s.threads[t], above, s.seqCounter)
    ensures NestOk(CloseAbove(cfg, s, u, d, s.seqCounter).threads[t], above, s.seqCounter)
    decreases |s.threads[u].stack|
  {
    if |s.threads[u].stack| > d {
      CloseFrameNests(cfg, s, u, true, t, above);
      CloseAboveNests(cfg, CloseFrame(cfg, s, u, s.seqCounter, true), u, d, t, above);
    }
  }

  // ---------------------------------------------------------------- the steps

  ghost predicate Nested(s: State, t: nat, above: set<(nat, nat)>) {
    t < |s.threads| && NestOk(s.threads[t], above, s.seqCounter)
  }

  lemma SameFramesNest(s: State, s': State, t: nat, above: set<(nat, nat)>)
    requires Nested(s, t, above) && t < |s'.threads| && s'.seqCounter == s.seqCounter
    requires s'.threads[t].stack == s.threads[t].stack && s'.threads[t].trace == s.threads[t].trace
    ensures Nested(s', t, above)
  {
  }

  lemma SteeredNests(cfg: Config, s: State, s': State, t: nat, above: set<(nat, nat)>)
    requires Steered(cfg, s, s') && Nested(s, t, above)
    ensures Nested(s', t, above)
  {
    assert s'.threads[t].stack == s.threads[t].stack && s'.threads[t].trace == s.threads[t].trace;
  }

  lemma BeginNests(cfg: Config, s: State, u: nat, key: Key, t: nat, above: set<(nat, nat)>)
    requires cfg.traceLimit > 0 && u < |s.threads| && Nested(s, t, above)
    ensures var above' := if u == t && |s.threads[t].stack| < MAX_DEPTH
                          then above + NewPairs(s.threads[t].stack, s.seqCounter + 1) else above;
            Nested(Begin(cfg, s, u, key), t, above')
  {
    hide UpdateShared, NestOk;
    if |s.threads[u].stack| < MAX_DEPTH {
      var s1 := Tick(cfg, s);
      var s2 := Push(cfg, s1, u, key, Ticket(cfg, s1));
      var above' := if u == t then above + NewPairs(s.threads[t].stack, s.seqCounter + 1) else above;
      assert Nested(s2, t, above') by {
        if u == t {
          var st := s2.threads[t].stack;
          PushNests(s.threads[t], s2.threads[t], st[|st| - 1], above, s.seqCounter);
        } else {
          TickNests(s.threads[t], above, s.seqCounter, s1.seqCounter);
        }
      }
      UpdateSharedSteers(cfg, s2, Some(u));
      SteeredNests(cfg, s2, UpdateShared(cfg, s2, Some(u)), t, above');
    }
  }

  lemma CloseFromNests(cfg: Config, s: State, u: nat, i: nat, t: nat, above: set<(nat, nat)>)
    requires u < |s.threads| && i < |s.threads[u].stack| && Nested(s, t, above)
    ensures Nested(CloseFrom(cfg, s, u, i, s.seqCounter), t, above)
  {
    CloseAboveNests(cfg, s, u, i + 1, t, above);
    CloseAboveCounter(cfg, s, u, i + 1, s.seqCounter);
    CloseFrameNests(cfg, CloseAbove(cfg, s, u, i + 1, s.seqCounter), u, false, t, above);
  }

  lemma EndNests(cfg: Config, s: State, u: nat, region: string, t: nat, above: set<(nat, nat)>)
    requires cfg.traceLimit > 0 && u < |s.threads| && Nested(s, t, above)
    ensures Nested(End(cfg, s, u, region), t, above)
  {
    var i := FindFrame(s.threads[u].stack, RegionName(region));
    if i >= 0 {
      var s1 := Tick(cfg, s);
      TickNests(s.threads[t], above, s.seqCounter, s1.seqCounter);
      CloseFromNests(cfg, s1, u, i, t, above);
      var s2 := CloseFrom(cfg, s1, u, i, s1.seqCounter);
      RepointSteers(cfg, s2, u);
      var s3 := Repoint(cfg, s2, u);
      SteeredNests(cfg, s2, s3, t, above);
      UpdateSharedSteers(cfg, s3, Some(u));
      SteeredNests(cfg, s3, UpdateShared(cfg, s3, Some(u)), t, above);
    }
  }

  lemma ThreadExitNests(cfg: Config, s: State, u: nat, t: nat, above: set<(nat, nat)>)
    requires u < |s.threads| && Nested(s, t, above)
    ensures Nested(ThreadExit(cfg, s, u), t, above)
  {
    hide NestOk, CloseAbove, UpdateShared;
    var s1 := s.(seqCounter := s.seqCounter + 1);
    TickNests(s.threads[t], above, s.seqCounter, s1.seqCounter);
    CloseAboveNests(cfg, s1, u, 0, t, above);
    CloseAboveCounter(cfg, s1, u, 0, s1.seqCounter);
    var s2 := Retire(cfg, s1, u, s1.seqCounter);
    SameFramesNest(CloseAbove(cfg, s1, u, 0, s1.seqCounter), s2, t, above);
    UpdateSharedSteers(cfg, s2, None);
    SteeredNests(cfg, s2, UpdateShared(cfg, s2, None), t, above);
  }

  lemma CloseAboveCounter(cfg: Config, s: State, u: nat, d: nat, seqEnd: nat)
    requires u < |s.threads| && d <= |s.threads[u].stack|
    ensures CloseAbove(cfg, s, u, d, seqEnd).seqCounter == s.seqCounter
  {
    CloseAboveLocal(cfg, s, u, d, seqEnd);
  }

  /** Pairs only ever relate threads that exist. */
  lemma {:induction false} NoPairsYet(cfg: Config, r: Run, t: nat)
    requires Valid(cfg, r) && |Final(cfg, r).threads| <= t
    ensures Nesting(cfg, r, t) == {} && Pushed(cfg, r, t) == {}
  {
    match r
    case Empty =>
    case Then(p, e) =>
      ThreadsStay(cfg, Final(cfg, p), e);
      NoPairsYet(cfg, p, t);
  }

  lemma {:induction false} NestingHolds(cfg: Config, r: Run, t: nat)
    requires Valid(cfg, r) && cfg.traceLimit > 0 && t < |Final(cfg, r).threads|
    ensures Nested(Final(cfg, r), t, Nesting(cfg, r, t))
  {
    match r
    case Empty =>
    case Then(p, e) =>
      var s := Final(cfg, p);
      ThreadsStay(cfg, s, e);
      if t < |s.threads| {
        NestingHolds(cfg, p, t);
        StepNests(cfg, s, e, t, Nesting(cfg, p, t));
      } else {
        NoPairsYet(cfg, p, t);
        NewThreadNests(cfg, s, t);
        assert e == Start && Nesting(cfg, r, t) == {};
      }
  }

  lemma NewThreadNests(cfg: Config, s: State, t: nat)
    requires t == |s.threads|
    ensures Nested(ThreadInit(cfg, s), t, {})
  {
    var th := ThreadInit(cfg, s).threads[|s.threads|];
    assert th.stack == [] && th.trace == [];
  }

  lemma StepNests(cfg: Config, s: State, e: Event, t: nat, above: set<(nat, nat)>)
    requires cfg.traceLimit > 0 && Enabled(cfg, s, e) && Nested(s, t, above)
    ensures Nested(Step(cfg, s, e), t, NextPairs(s, e, t, above))
  {
    hide Begin, End, ThreadExit, NestOk;
    match e
    case Exec(u, slot, n) => SameFramesNest(s, ExecBlock(s, u, slot, n), t, above);
    case BeginMark(u, key) => BeginNests(cfg, s, u, key, t, above);
    case EndMark(u, region) => EndNests(cfg, s, u, region, t, above);
    case Start => SameFramesNest(s, ThreadInit(cfg, s), t, above);
    case Exit(u) => ThreadExitNests(cfg, s, u, t, above);
  }

  /** In every run, the interval test on two trace records of one thread holds exactly when the
      second record's frame was pushed while the first one's was open. */
  lemma IntervalsAreNesting(cfg: Config, r: Run, t: nat, i: nat, j: nat)
    requires Valid(cfg, r) && cfg.traceLimit > 0 && t < |Final(cfg, r).threads|
    requires var tr := Final(cfg, r).threads[t].trace; i < |tr| && j < |tr|
    ensures var tr := Final(cfg, r).threads[t].trace;
            Inside(tr[i], tr[j]) <==> (tr[i].seqBegin, tr[j].seqBegin) in Nesting(cfg, r, t)
  {
    NestingHolds(cfg, r, t);
  }

  // ---------------------------------------------------------------- nothing is missing

  /** Frame `b` is open on `th`, or has a trace record. */
  ghost predicate Known(th: Thread, b: nat) {
    || (exists i :: 0 <= i < |th.stack| && th.stack[i].seqBegin == b)
    || (exists j :: 0 <= j < |th.trace| && th.trace[j].seqBegin == b)
  }

  ghost predicate KnownIn(cfg: Config, s: State, t: nat, b: nat) {
    t < |s.threads| && (s.traceDropped == 0 ==> Known(s.threads[t], b))
  }

  lemma CloseFrameKnows(cfg: Config, s: State, u: nat, seqEnd: nat, implicit: bool, t: nat, b: nat)
    requires cfg.traceLimit > 0 && u < |s.threads| && s.threads[u].stack != [] && KnownIn(cfg, s, t, b)
    ensures KnownIn(cfg, CloseFrame(cfg, s, u, seqEnd, implicit), t, b)
  {
    var s' := CloseFrame(cfg, s, u, seqEnd, implicit);
    if s'.traceDropped == 0 && t == u {
      var th, th' := s.threads[t], s'.threads[t];
      PopKeepsKeys(th.stack, th.total);
      if i :| 0 <= i < |th.stack| && th.stack[i].seqBegin == b {
        if i == |th.stack| - 1 {
          assert th'.trace[|th.trace|].seqBegin == b;
        } else {
          assert th'.stack[i].seqBegin == b;
        }
      } else {
        var j :| 0 <= j < |th.trace| && th.trace[j].seqBegin == b;
        assert th'.trace[j].seqBegin == b;
      }
    }
  }

  lemma {:induction false} CloseAboveKnows(cfg: Config, s: State, u: nat, d: nat, seqEnd: nat, t: nat, b: nat)
    requires cfg.traceLimit > 0 && u < |s.threads| && d <= |s.threads[u].stack| && KnownIn(cfg, s, t, b)
    ensures KnownIn(cfg, CloseAbove(cfg, s, u, d, seqEnd), t, b)
    decreases |s.threads[u].stack|
  {
    if |s.threads[u].stack| > d {
      CloseFrameKnows(cfg, s, u, seqEnd, true, t, b);
      CloseAboveKnows(cfg, CloseFrame(cfg, s, u, seqEnd, true), u, d, seqEnd, t, b);
    }
  }

  lemma SteeredKnows(cfg: Config, s: State, s': State, t: nat, b: nat)
    requires Steered(cfg, s, s') && KnownIn(cfg, s, t, b)
    ensures KnownIn(cfg, s', t, b)
  {
  }

  lemma BeginKnows(cfg: Config, s: State, u: nat, key: Key, t: nat, b: nat)
    requires cfg.traceLimit > 0 && u < |s.threads| && t < |s.threads|
    requires KnownIn(cfg, s, t, b) || (u == t && |s.threads[t].stack| < MAX_DEPTH && b == s.seqCounter + 1)
    ensures KnownIn(cfg, Begin(cfg, s, u, key), t, b)
  {
    if |s.threads[u].stack| < MAX_DEPTH {
      var s1 := Tick(cfg, s);
      var s2 := Push(cfg, s1, u, key, Ticket(cfg, s1));
      var th, th' := s.threads[t], s2.threads[t];
      assert KnownIn(cfg, s2, t, b) by {
        if KnownIn(cfg, s, t, b) {
          assert th'.trace == th.trace && th.stack <= th'.stack;
          assert forall i :: 0 <= i < |th.stack| ==> th'.stack[i] == th.stack[i];
        } else {
          assert th'.stack[|th.stack|].seqBegin == b;
        }
      }
      UpdateSharedSteers(cfg, s2, Some(u));
      SteeredKnows(cfg, s2, UpdateShared(cfg, s2, Some(u)), t, b);
    }
  }

  lemma EndKnows(cfg: Config, s: State, u: nat, region: string, t: nat, b: nat)
    requires cfg.traceLimit > 0 && u < |s.threads| && KnownIn(cfg, s, t, b)
    ensures KnownIn(cfg, End(cfg, s, u, region), t, b)
  {
    hide UpdateShared, Known;
    var i := FindFrame(s.threads[u].stack, RegionName(region));
    if i >= 0 {
      var s1 := Tick(cfg, s);
      CloseAboveKnows(cfg, s1, u, i + 1, s1.seqCounter, t, b);
      CloseFrameKnows(cfg, CloseAbove(cfg, s1, u, i + 1, s1.seqCounter), u, s1.seqCounter, false, t, b);
      var s2 := CloseFrom(cfg, s1, u, i, s1.seqCounter);
      RepointSteers(cfg, s2, u);
      var s3 := Repoint(cfg, s2, u);
      SteeredKnows(cfg, s2, s3, t, b);
      UpdateSharedSteers(cfg, s3, Some(u));
      SteeredKnows(cfg, s3, UpdateShared(cfg, s3, Some(u)), t, b);
    }
  }

  lemma ThreadExitKnows(cfg: Config, s: State, u: nat, t: nat, b: nat)
    requires cfg.traceLimit > 0 && u < |s.threads| && KnownIn(cfg, s, t, b)
    ensures KnownIn(cfg, ThreadExit(cfg, s, u), t, b)
  {
    var s1 := s.(seqCounter := s.seqCounter + 1);
    CloseAboveKnows(cfg, s1, u, 0, s1.seqCounter, t, b);
    var s2 := Retire(cfg, s1, u, s1.seqCounter);
    assert KnownIn(cfg, s2, t, b);
    UpdateSharedSteers(cfg, s2, None);
    SteeredKnows(cfg, s2, UpdateShared(cfg, s2, None), t, b);
  }

  /** With no record dropped, every frame ever pushed is still open or is in the trace. */
  lemma {:induction false} TraceIsComplete(cfg: Config, r: Run, t: nat, b: nat)
    requires Valid(cfg, r) && cfg.traceLimit > 0 && b in Pushed(cfg, r, t)
    ensures KnownIn(cfg, Final(cfg, r), t, b)
  {
    match r
    case Empty =>
    case Then(p, e) =>
      var s := Final(cfg, p);
      ThreadsStay(cfg, s, e);
      if b in Pushed(cfg, p, t) {
        TraceIsComplete(cfg, p, t, b);
      }
      match e {
        case Exec(u, slot, n) =>
        case BeginMark(u, key) => BeginKnows(cfg, s, u, key, t, b);
        case EndMark(u, region) => EndKnows(cfg, s, u, region, t, b);
        case Start =>
        case Exit(u) => ThreadExitKnows(cfg, s, u, t, b);
      }
  }
}
