/** Which trace records are dropped: exactly those of the frames that close after the limit is reached. */
module TraceBudget {
  import opened Options
  import opened Attribution
  import opened AttributionInvariant
  import opened Accounting

  function OpenTotal(threads: seq<Thread>): nat {
    if threads == [] then 0 else OpenTotal(threads[..|threads| - 1]) + |threads[|threads| - 1].stack|
  }

  function KeptTotal(threads: seq<Thread>): nat {
    if threads == [] then 0 else KeptTotal(threads[..|threads| - 1]) + |threads[|threads| - 1].trace|
  }

  /** Frames pushed by a run, on any thread. */
  ghost function PushedTotal(cfg: Config, r: Run): nat
    requires Valid(cfg, r)
  {
    match r
    case Empty => 0
    case Then(p, e) => PushedTotal(cfg, p) + PushedBy(Final(cfg, p), e)
  }

  function PushedBy(s: State, e: Event): nat {
    if e.BeginMark? && e.t < |s.threads| && |s.threads[e.t].stack| < 64 then 1 else 0
  }

  /** The closed frames are numbered; the first `traceLimit` have records, the others are dropped. */
  ghost predicate Budgeted(cfg: Config, s: State, pushed: int) {
    && s.traceRecords + OpenTotal(s.threads) == pushed
    && KeptTotal(s.threads) + s.traceDropped == s.traceRecords
    && s.traceDropped == if s.traceRecords > cfg.traceLimit then s.traceRecords - cfg.traceLimit else 0
  }

  lemma {:induction false} TotalsPut(threads: seq<Thread>, t: nat, th: Thread)
    requires t < |threads|
    ensures OpenTotal(threads[t := th]) == OpenTotal(threads) - |threads[t].stack| + |th.stack|
    ensures KeptTotal(threads[t := th]) == KeptTotal(threads) - |threads[t].trace| + |th.trace|
  {
    var n := |threads| - 1;
    if t == n {
      assert threads[t := th][..n] == threads[..n];
    } else {
      assert threads[t := th][..n] == threads[..n][t := th];
      TotalsPut(threads[..n], t, th);
    }
  }

  lemma {:induction false} SameTotals(a: seq<Thread>, b: seq<Thread>)
    requires |a| == |b| && forall i :: 0 <= i < |a| ==> a[i].stack == b[i].stack && a[i].trace == b[i].trace
    ensures OpenTotal(a) == OpenTotal(b) && KeptTotal(a) == KeptTotal(b)
  {
    if a != [] {
      SameTotals(a[..|a| - 1], b[..|b| - 1]);
    }
  }

  lemma CloseFrameBudgets(cfg: Config, s: State, u: nat, seqEnd: nat, implicit: bool, pushed: int)
    requires cfg.traceLimit > 0 && u < |s.threads| && s.threads[u].stack != [] && Budgeted(cfg, s, pushed)
    ensures Budgeted(cfg, CloseFrame(cfg, s, u, seqEnd, implicit), pushed)
  {
    hide OpenTotal, KeptTotal;
    var s' := CloseFrame(cfg, s, u, seqEnd, implicit);
    TotalsPut(s.threads, u, s'.threads[u]);
    assert s'.threads == s.threads[u := s'.threads[u]];
  }

  lemma {:induction false} CloseAboveBudgets(cfg: Config, s: State, u: nat, d: nat, seqEnd: nat, pushed: int)
    requires cfg.traceLimit > 0 && u < |s.threads| && d <= |s.threads[u].stack| && Budgeted(cfg, s, pushed)
    ensures Budgeted(cfg, CloseAbove(cfg, s, u, d, seqEnd), pushed)
    decreases |s.threads[u].stack|
  {
    hide Budgeted, CloseFrame;
    if |s.threads[u].stack| > d {
      CloseFrameBudgets(cfg, s, u, seqEnd, true, pushed);
      CloseAboveBudgets(cfg, CloseFrame(cfg, s, u, seqEnd, true), u, d, seqEnd, pushed);
    }
  }

  lemma SteeredBudgets(cfg: Config, s: State, s': State, pushed: int)
    requires Steered(cfg, s, s') && Budgeted(cfg, s, pushed)
    ensures Budgeted(cfg, s', pushed)
  {
    hide OpenTotal, KeptTotal;
    SameTotals(s.threads, s'.threads);
  }

  lemma BeginBudgets(cfg: Config, s: State, u: nat, key: Key, pushed: int)
    requires cfg.traceLimit > 0 && u < |s.threads| && Budgeted(cfg, s, pushed)
    ensures Budgeted(cfg, Begin(cfg, s, u, key), pushed + PushedBy(s, BeginMark(u, key)))
  {
    hide UpdateShared, OpenTotal, KeptTotal;
    if |s.threads[u].stack| < MAX_DEPTH {
      var s1 := Tick(cfg, s);
      var s2 := Push(cfg, s1, u, key, Ticket(cfg, s1));
      TotalsPut(s.threads, u, s2.threads[u]);
      assert s2.threads == s.threads[u := s2.threads[u]];
      assert Budgeted(cfg, s2, pushed + 1);
      UpdateSharedSteers(cfg, s2, Some(u));
      SteeredBudgets(cfg, s2, UpdateShared(cfg, s2, Some(u)), pushed + 1);
    }
  }

  lemma EndBudgets(cfg: Config, s: State, u: nat, region: string, pushed: int)
    requires cfg.traceLimit > 0 && u < |s.threads| && Budgeted(cfg, s, pushed)
    ensures Budgeted(cfg, End(cfg, s, u, region), pushed)
  {
    hide UpdateShared, CloseAbove, FindFrame, CloseFrame, Repoint, OpenTotal, KeptTotal;
    var i := FindFrame(s.threads[u].stack, RegionName(region));
    if i >= 0 {
      var s1 := Tick(cfg, s);
      var n := Ticket(cfg, s1);
      CloseAboveBudgets(cfg, s1, u, i + 1, n, pushed);
      var s2 := CloseAbove(cfg, s1, u, i + 1, n);
      CloseFrameBudgets(cfg, s2, u, n, false, pushed);
      var s3 := CloseFrame(cfg, s2, u, n, false);
      RepointSteers(cfg, s3, u);
      var s4 := Repoint(cfg, s3, u);
      SteeredBudgets(cfg, s3, s4, pushed);
      UpdateSharedSteers(cfg, s4, Some(u));
      SteeredBudgets(cfg, s4, UpdateShared(cfg, s4, Some(u)), pushed);
    }
  }

  lemma ExitBudgets(cfg: Config, s: State, u: nat, pushed: int)
    requires cfg.traceLimit > 0 && u < |s.threads| && Budgeted(cfg, s, pushed)
    ensures Budgeted(cfg, ThreadExit(cfg, s, u), pushed)
  {
    hide UpdateShared, CloseAbove, OpenTotal, KeptTotal;
    var s1 := s.(seqCounter := s.seqCounter + 1);
    CloseAboveBudgets(cfg, s1, u, 0, s1.seqCounter, pushed);
    var s2 := CloseAbove(cfg, s1, u, 0, s1.seqCounter);
    var s3 := Retire(cfg, s1, u, s1.seqCounter);
    SameTotals(s2.threads, s3.threads);
    UpdateSharedSteers(cfg, s3, None);
    SteeredBudgets(cfg, s3, UpdateShared(cfg, s3, None), pushed);
  }

  lemma StartBudgets(cfg: Config, s: State, pushed: int)
    requires Budgeted(cfg, s, pushed)
    ensures Budgeted(cfg, ThreadInit(cfg, s), pushed)
  {
    var s' := ThreadInit(cfg, s);
    assert s'.threads[..|s.threads|] == s.threads;
  }

  lemma ExecBudgets(cfg: Config, s: State, u: nat, slot: nat, n: nat, pushed: int)
    requires u < |s.threads| && Budgeted(cfg, s, pushed)
    ensures Budgeted(cfg, ExecBlock(s, u, slot, n), pushed)
  {
    hide OpenTotal, KeptTotal;
    TotalsPut(s.threads, u, s.threads[u].(total := s.threads[u].total + n));
  }

  /**
   Over every run with a trace limit: as many records were asked for as frames closed, and as many
   are kept as the limit allows.
   */
  lemma {:induction false} DroppedBeyondTheLimit(cfg: Config, r: Run)
    requires Valid(cfg, r) && cfg.traceLimit > 0
    ensures var s, closed := Final(cfg, r), PushedTotal(cfg, r) - OpenTotal(Final(cfg, r).threads);
            && s.traceRecords == closed
            && KeptTotal(s.threads) == (if closed > cfg.traceLimit then cfg.traceLimit else closed)
            && s.traceDropped == closed - KeptTotal(s.threads)
    ensures Budgeted(cfg, Final(cfg, r), PushedTotal(cfg, r))
  {
    hide Begin, End, ThreadExit, ThreadInit, ExecBlock, OpenTotal, KeptTotal;
    match r
    case Empty => NothingTraced(cfg);
    case Then(p, e) =>
      var s, pushed := Final(cfg, p), PushedTotal(cfg, p);
      DroppedBeyondTheLimit(cfg, p);
      match e {
        case Exec(u, slot, n) => ExecBudgets(cfg, s, u, slot, n, pushed);
        case BeginMark(u, key) => BeginBudgets(cfg, s, u, key, pushed);
        case EndMark(u, region) => EndBudgets(cfg, s, u, region, pushed);
        case Start => StartBudgets(cfg, s, pushed);
        case Exit(u) => ExitBudgets(cfg, s, u, pushed);
      }
  }

  lemma NothingTraced(cfg: Config)
    requires cfg.traceLimit > 0
    ensures Budgeted(cfg, Initial(cfg), 0)
  {
  }
}
