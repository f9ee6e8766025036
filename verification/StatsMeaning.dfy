/**
 What the statistics of a key say of the run: its calls, what ran inside it, nested regions and
 recursion included, and how many of its frames no end marker of its own closed.
 */
module StatsMeaning {
  import opened Options
  import opened Attribution
  import opened AttributionInvariant
  import opened Accounting

  // ---------------------------------------------------------------- open frames of a key

  /** How many frames of `k` are open. */
  function OpenOf(stack: seq<Frame>, k: Key): nat {
    if stack == [] then 0 else
      OpenOf(stack[..|stack| - 1], k) + if stack[|stack| - 1].key == k then 1 else 0
  }

  /** What has run in the open frames of `k` up to now, frame by frame. */
  function RunIn(stack: seq<Frame>, upTo: int, k: Key): int {
    if stack == [] then 0 else
      var f := stack[|stack| - 1];
      RunIn(stack[..|stack| - 1], upTo, k) + if f.key == k then upTo - f.totalAtBegin else 0
  }

  // ---------------------------------------------------------------- the same, of the run

  function Product(a: nat, b: nat): nat { a * b }

  /** Instructions thread `t` ran, counted once for each frame of `k` open at the time. */
  ghost function InclusiveWork(cfg: Config, r: Run, t: nat, k: Key): nat
    requires Valid(cfg, r)
  {
    match r
    case Empty => 0
    case Then(p, e) => InclusiveWork(cfg, p, t, k) + InclusiveBy(Final(cfg, p), e, t, k)
  }

  function InclusiveBy(s: State, e: Event, t: nat, k: Key): nat {
    if e.Exec? && e.t == t && t < |s.threads| then Product(e.n, OpenOf(s.threads[t].stack, k)) else 0
  }

  /** Begin markers that pushed a frame of `k` on thread `t`. */
  ghost function Begun(cfg: Config, r: Run, t: nat, k: Key): nat
    requires Valid(cfg, r)
  {
    match r
    case Empty => 0
    case Then(p, e) =>
      Begun(cfg, p, t, k) +
      if e.BeginMark? && e.t == t && e.key == k && |Final(cfg, p).threads[t].stack| < 64 then 1 else 0
  }

  /** Frames of `k` on thread `t` above the one an end marker names, or left when the thread exits. */
  ghost function LeftOpen(cfg: Config, r: Run, t: nat, k: Key): nat
    requires Valid(cfg, r)
  {
    match r
    case Empty => 0
    case Then(p, e) => LeftOpen(cfg, p, t, k) + LeftBy(Final(cfg, p), e, t, k)
  }

  function LeftBy(s: State, e: Event, t: nat, k: Key): nat {
    if t >= |s.threads| then 0
    else
      match e
      case EndMark(u, region) =>
        var i := FindFrame(s.threads[t].stack, RegionName(region));
        if u == t && i >= 0 then OpenOf(s.threads[t].stack[i + 1..], k) else 0
      case Exit(u) => if u == t then OpenOf(s.threads[t].stack, k) else 0
      case _ => 0
  }

  // ---------------------------------------------------------------- the accounts

  function InclusiveOf(th: Thread, k: Key): int { StatsOf(th, k).inclSum + RunIn(th.stack, th.total, k) }

  function CallsOf(th: Thread, k: Key): nat { StatsOf(th, k).count + OpenOf(th.stack, k) }

  ghost predicate Accounts(th: Thread, k: Key, incl: int, calls: int, left: int) {
    InclusiveOf(th, k) == incl && CallsOf(th, k) == calls && StatsOf(th, k).implicitEnds == left
  }

  ghost predicate AccountsIn(s: State, t: nat, k: Key, incl: int, calls: int, left: int) {
    t < |s.threads| && Accounts(s.threads[t], k, incl, calls, left)
  }

  lemma {:induction false} SameOpen(a: seq<Frame>, b: seq<Frame>, upTo: int, k: Key)
    requires |a| == |b|
    requires forall i :: 0 <= i < |a| ==> a[i].key == b[i].key && a[i].totalAtBegin == b[i].totalAtBegin
    ensures OpenOf(a, k) == OpenOf(b, k) && RunIn(a, upTo, k) == RunIn(b, upTo, k)
  {
    if a != [] {
      SameOpen(a[..|a| - 1], b[..|b| - 1], upTo, k);
    }
  }

  lemma OpenSnoc(stack: seq<Frame>, f: Frame, upTo: int, k: Key)
    ensures OpenOf(stack + [f], k) == OpenOf(stack, k) + if f.key == k then 1 else 0
    ensures RunIn(stack + [f], upTo, k) == RunIn(stack, upTo, k) + if f.key == k then upTo - f.totalAtBegin else 0
  {
    assert (stack + [f])[..|stack|] == stack;
  }

  lemma {:induction false} OpenSplit(a: seq<Frame>, b: seq<Frame>, k: Key)
    ensures OpenOf(a + b, k) == OpenOf(a, k) + OpenOf(b, k)
  {
    if b == [] {
      assert a + b == a;
    } else {
      var n := |b| - 1;
      OpenSplit(a, b[..n], k);
      assert (a + b)[..|a + b| - 1] == a + b[..n];
    }
  }

  lemma {:induction false} RunLater(stack: seq<Frame>, upTo: int, n: int, k: Key)
    ensures RunIn(stack, upTo + n, k) == RunIn(stack, upTo, k) + n * OpenOf(stack, k)
  {
    if stack != [] {
      var m := |stack| - 1;
      RunLater(stack[..m], upTo, n, k);
      assert n * (OpenOf(stack[..m], k) + 1) == n * OpenOf(stack[..m], k) + n;
    }
  }

  lemma ClosedStats(th: Thread, seqEnd: nat, implicit: bool, k: Key)
    requires th.stack != []
    ensures var f := th.stack[|th.stack| - 1];
            var was, now := StatsOf(th, k), StatsOf(Popped(th, seqEnd, implicit), k);
            if f.key == k then
              && now.inclSum == was.inclSum + (th.total - f.totalAtBegin) && now.count == was.count + 1
              && now.implicitEnds == was.implicitEnds + (if implicit then 1 else 0)
            else now == was
  {
    hide PopStack;
  }

  lemma PoppedAccounts(th: Thread, seqEnd: nat, implicit: bool, k: Key, incl: int, calls: int, left: int)
    requires th.stack != [] && Accounts(th, k, incl, calls, left)
    ensures Accounts(Popped(th, seqEnd, implicit), k, incl, calls,
                     left + if implicit && th.stack[|th.stack| - 1].key == k then 1 else 0)
  {
    hide RunIn, OpenOf, StatsOf, PopStack, AddToStats, ClosingRec;
    var n := |th.stack| - 1;
    ClosedStats(th, seqEnd, implicit, k);
    PopKeepsKeys(th.stack, th.total);
    PopShorter(th.stack, th.total);
    SameOpen(PopStack(th.stack, th.total), th.stack[..n], th.total, k);
    OpenSnoc(th.stack[..n], th.stack[n], th.total, k);
    assert th.stack[..n] + [th.stack[n]] == th.stack;
  }

  lemma PopShorter(stack: seq<Frame>, total: nat)
    requires stack != []
    ensures |PopStack(stack, total)| == |stack| - 1
  {
  }

  lemma CloseFrameAccounts(cfg: Config, s: State, u: nat, seqEnd: nat, implicit: bool, t: nat, k: Key,
                           incl: int, calls: int, left: int)
    requires u < |s.threads| && s.threads[u].stack != [] && AccountsIn(s, t, k, incl, calls, left)
    ensures var st := s.threads[u].stack;
            AccountsIn(CloseFrame(cfg, s, u, seqEnd, implicit), t, k, incl, calls,
                       left + if u == t && implicit && st[|st| - 1].key == k then 1 else 0)
  {
    hide RunIn, OpenOf, Popped, ClosingRec;
    if u == t {
      PoppedAccounts(s.threads[t], seqEnd, implicit, k, incl, calls, left);
    }
  }

  /** The stack after its top frame closed. */
  lemma ClosedStack(cfg: Config, s: State, u: nat, seqEnd: nat, implicit: bool, d: nat, k: Key)
    requires u < |s.threads| && d < |s.threads[u].stack|
    ensures var st := s.threads[u].stack;
            && |CloseFrame(cfg, s, u, seqEnd, implicit).threads[u].stack| == |st| - 1
            && OpenOf(st[d..], k) == OpenOf(CloseFrame(cfg, s, u, seqEnd, implicit).threads[u].stack[d..], k)
                                     + if st[|st| - 1].key == k then 1 else 0
  {
    hide OpenOf, RunIn, AddToStats, StatsOf;
    var st, s1 := s.threads[u].stack, CloseFrame(cfg, s, u, seqEnd, implicit);
    PopKeepsKeys(st, s.threads[u].total);
    SameOpen(s1.threads[u].stack[d..], st[d..|st| - 1], 0, k);
    OpenSnoc(st[d..|st| - 1], st[|st| - 1], 0, k);
    assert st[d..] == st[d..|st| - 1] + [st[|st| - 1]];
  }

  lemma {:induction false} CloseAboveAccounts(cfg: Config, s: State, u: nat, d: nat, seqEnd: nat, t: nat, k: Key,
                                              incl: int, calls: int, left: int)
    requires u < |s.threads| && d <= |s.threads[u].stack| && AccountsIn(s, t, k, incl, calls, left)
    ensures AccountsIn(CloseAbove(cfg, s, u, d, seqEnd), t, k, incl, calls,
                       left + if u == t then OpenOf(s.threads[u].stack[d..], k) else 0)
    decreases |s.threads[u].stack|
  {
    hide AccountsIn, CloseFrame, OpenOf;
    var st := s.threads[u].stack;
    if |st| > d {
      CloseFrameAccounts(cfg, s, u, seqEnd, true, t, k, incl, calls, left);
      CloseAboveAccounts(cfg, CloseFrame(cfg, s, u, seqEnd, true), u, d, seqEnd, t, k, incl, calls,
                         left + if u == t && st[|st| - 1].key == k then 1 else 0);
      ClosedStack(cfg, s, u, seqEnd, true, d, k);
    } else {
      NoneOpen(k);
      assert st[d..] == [];
    }
  }

  lemma NoneOpen(k: Key)
    ensures OpenOf([], k) == 0
  {
  }

  lemma SteeredAccounts(cfg: Config, s: State, s': State, t: nat, k: Key, incl: int, calls: int, left: int)
    requires Steered(cfg, s, s') && AccountsIn(s, t, k, incl, calls, left)
    ensures AccountsIn(s', t, k, incl, calls, left)
  {
  }

  lemma PushedAccounts(th: Thread, th': Thread, f: Frame, k: Key, incl: int, calls: int, left: int)
    requires Accounts(th, k, incl, calls, left) && f.totalAtBegin == th.total
    requires th'.stack == th.stack + [f] && th'.stats == th.stats && th'.total == th.total
    ensures Accounts(th', k, incl, calls + if f.key == k then 1 else 0, left)
  {
    hide RunIn, OpenOf;
    OpenSnoc(th.stack, f, th.total, k);
  }

  lemma BeginAccounts(cfg: Config, s: State, u: nat, key: Key, t: nat, k: Key, incl: int, calls: int, left: int)
    requires u < |s.threads| && AccountsIn(s, t, k, incl, calls, left)
    ensures AccountsIn(Begin(cfg, s, u, key), t, k, incl,
                       calls + if u == t && key == k && |s.threads[t].stack| < 64 then 1 else 0, left)
  {
    hide UpdateShared, Accounts;
    if |s.threads[u].stack| < MAX_DEPTH {
      var s1 := Tick(cfg, s);
      var s2 := Push(cfg, s1, u, key, Ticket(cfg, s1));
      if u == t {
        var f := s2.threads[t].stack[|s.threads[t].stack|];
        PushedAccounts(s.threads[t], s2.threads[t], f, k, incl, calls, left);
      }
      var calls' := calls + if u == t && key == k then 1 else 0;
      assert AccountsIn(s2, t, k, incl, calls', left);
      UpdateSharedSteers(cfg, s2, Some(u));
      SteeredAccounts(cfg, s2, UpdateShared(cfg, s2, Some(u)), t, k, incl, calls', left);
    }
  }

  lemma EndAccounts(cfg: Config, s: State, u: nat, region: string, t: nat, k: Key, incl: int, calls: int, left: int)
    requires u < |s.threads| && AccountsIn(s, t, k, incl, calls, left)
    ensures AccountsIn(End(cfg, s, u, region), t, k, incl, calls, left + LeftBy(s, EndMark(u, region), t, k))
  {
    hide UpdateShared, Accounts, CloseAbove, FindFrame, CloseFrame, Repoint, OpenOf;
    var i := FindFrame(s.threads[u].stack, RegionName(region));
    if i >= 0 {
      var s1 := Tick(cfg, s);
      var n := Ticket(cfg, s1);
      var left' := left + LeftBy(s, EndMark(u, region), t, k);
      CloseAboveAccounts(cfg, s1, u, i + 1, n, t, k, incl, calls, left);
      var s2 := CloseAbove(cfg, s1, u, i + 1, n);
      CloseFrameAccounts(cfg, s2, u, n, false, t, k, incl, calls, left');
      var s3 := CloseFrame(cfg, s2, u, n, false);
      RepointSteers(cfg, s3, u);
      var s4 := Repoint(cfg, s3, u);
      SteeredAccounts(cfg, s3, s4, t, k, incl, calls, left');
      UpdateSharedSteers(cfg, s4, Some(u));
      SteeredAccounts(cfg, s4, UpdateShared(cfg, s4, Some(u)), t, k, incl, calls, left');
    }
  }

  lemma ExitAccounts(cfg: Config, s: State, u: nat, t: nat, k: Key, incl: int, calls: int, left: int)
    requires u < |s.threads| && AccountsIn(s, t, k, incl, calls, left)
    ensures AccountsIn(ThreadExit(cfg, s, u), t, k, incl, calls, left + LeftBy(s, Exit(u), t, k))
  {
    hide UpdateShared, CloseAbove;
    var s1 := s.(seqCounter := s.seqCounter + 1);
    CloseAboveAccounts(cfg, s1, u, 0, s1.seqCounter, t, k, incl, calls, left);
    assert s.threads[u].stack[0..] == s.threads[u].stack;
    var s2 := Retire(cfg, s1, u, s1.seqCounter);
    var left' := left + LeftBy(s, Exit(u), t, k);
    assert AccountsIn(s2, t, k, incl, calls, left');
    UpdateSharedSteers(cfg, s2, None);
    SteeredAccounts(cfg, s2, UpdateShared(cfg, s2, None), t, k, incl, calls, left');
  }

  lemma ExecAccounts(s: State, u: nat, slot: nat, n: nat, t: nat, k: Key, incl: int, calls: int, left: int)
    requires u < |s.threads| && AccountsIn(s, t, k, incl, calls, left)
    ensures AccountsIn(ExecBlock(s, u, slot, n), t, k,
                       incl + if u == t then Product(n, OpenOf(s.threads[t].stack, k)) else 0, calls, left)
  {
    hide RunIn, OpenOf;
    RunLater(s.threads[t].stack, s.threads[t].total, n, k);
  }

  lemma StepAccounts(cfg: Config, s: State, e: Event, t: nat, k: Key, incl: int, calls: int, left: int)
    requires Enabled(cfg, s, e) && AccountsIn(s, t, k, incl, calls, left)
    ensures AccountsIn(Step(cfg, s, e), t, k,
                       incl + InclusiveBy(s, e, t, k),
                       calls + if && e.BeginMark? && e.t == t && e.key == k
                                  && |s.threads[t].stack| < 64 then 1 else 0,
                       left + LeftBy(s, e, t, k))
  {
    hide Begin, End, ThreadExit, ExecBlock, Accounts, OpenOf, FindFrame;
    match e
    case Exec(u, slot, n) => ExecAccounts(s, u, slot, n, t, k, incl, calls, left);
    case BeginMark(u, key) => BeginAccounts(cfg, s, u, key, t, k, incl, calls, left);
    case EndMark(u, region) => EndAccounts(cfg, s, u, region, t, k, incl, calls, left);
    case Start => assert ThreadInit(cfg, s).threads[t] == s.threads[t];
    case Exit(u) => ExitAccounts(cfg, s, u, t, k, incl, calls, left);
  }

  lemma NothingYet(cfg: Config, s: State, k: Key)
    ensures AccountsIn(ThreadInit(cfg, s), |s.threads|, k, 0, 0, 0)
  {
  }

  lemma {:induction false} NoThreadNoWork(cfg: Config, r: Run, t: nat, k: Key)
    requires Valid(cfg, r) && |Final(cfg, r).threads| <= t
    ensures InclusiveWork(cfg, r, t, k) == 0 && Begun(cfg, r, t, k) == 0 && LeftOpen(cfg, r, t, k) == 0
  {
    match r
    case Empty =>
    case Then(p, e) =>
      ThreadsStay(cfg, Final(cfg, p), e);
      NoThreadNoWork(cfg, p, t, k);
  }

  /**
   Over every run and for every thread and key: its inclusive sum, with what its open frames have run
   so far, is what ran inside frames of the key; its calls and open frames are the begin markers that
   pushed; and its implicit ends are the frames that were left open.
   */
  lemma {:induction false} StatsAreOfTheRun(cfg: Config, r: Run, t: nat, k: Key)
    requires Valid(cfg, r) && t < |Final(cfg, r).threads|
    ensures var th := Final(cfg, r).threads[t];
            && StatsOf(th, k).inclSum + RunIn(th.stack, th.total, k) == InclusiveWork(cfg, r, t, k)
            && StatsOf(th, k).count + OpenOf(th.stack, k) == Begun(cfg, r, t, k)
            && StatsOf(th, k).implicitEnds == LeftOpen(cfg, r, t, k)
  {
    hide Step, RunIn, OpenOf, LeftBy, InclusiveBy;
    match r
    case Empty =>
    case Then(p, e) =>
      var s := Final(cfg, p);
      ThreadsStay(cfg, s, e);
      if t < |s.threads| {
        StatsAreOfTheRun(cfg, p, t, k);
        StepAccounts(cfg, s, e, t, k, InclusiveWork(cfg, p, t, k), Begun(cfg, p, t, k), LeftOpen(cfg, p, t, k));
      } else {
        NoThreadNoWork(cfg, p, t, k);
        NewThread(cfg, s, e, t, k);
      }
  }

  lemma NewThread(cfg: Config, s: State, e: Event, t: nat, k: Key)
    requires Enabled(cfg, s, e) && |s.threads| <= t < |Step(cfg, s, e).threads|
    ensures e == Start && AccountsIn(Step(cfg, s, e), t, k, 0, 0, 0)
    ensures LeftBy(s, e, t, k) == 0 && InclusiveBy(s, e, t, k) == 0
  {
    ThreadsStay(cfg, s, e);
    NothingYet(cfg, s, k);
  }
}
