/**
 What the client counts of the markers themselves: begins beyond the stack's depth, ends of regions
 not open, and the sequence numbers drawn; what there is of a trace when none is asked for; and
 which thread leads.
 */
module RunTallies {
  import opened Options
  import opened Attribution
  import opened AttributionInvariant

  // ---------------------------------------------------------------- ignored markers and numbers drawn

  predicate SameTallies(s: State, s': State) {
    s'.unmatchedEnds == s.unmatchedEnds && s'.depthOverflows == s.depthOverflows && s'.seqCounter == s.seqCounter
  }

  lemma {:induction false} SteerAllTallies(cfg: Config, s: State, nk: Option<Key>, n: nat)
    requires n <= |s.threads|
    ensures SameTallies(s, SteerAll(cfg, s, nk, n))
    decreases n
  {
    if n > 0 {
      var th := s.threads[n - 1];
      if th.alive && th.stack == [] {
        var (s1, p) := SlotsFor(cfg, s, nk, th.index);
        SteerAllTallies(cfg, Put(s1, n - 1, Steer(th, p)), nk, n - 1);
      } else {
        SteerAllTallies(cfg, s, nk, n - 1);
      }
    }
  }

  lemma UpdateSharedTallies(cfg: Config, s: State, self: Option<nat>)
    requires self.Some? ==> self.value < |s.threads|
    ensures SameTallies(s, UpdateShared(cfg, s, self))
  {
    if |s.threads| > 1 {
      var s1 := Elect(s, self);
      SteerAllTallies(cfg, s1.(shared := LeaderKey(s1)), LeaderKey(s1), |s1.threads|);
    }
  }

  lemma {:induction false} CloseAboveTallies(cfg: Config, s: State, t: nat, d: nat, seqEnd: nat)
    requires t < |s.threads| && d <= |s.threads[t].stack|
    ensures SameTallies(s, CloseAbove(cfg, s, t, d, seqEnd))
    decreases |s.threads[t].stack|
  {
    if |s.threads[t].stack| != d {
      CloseAboveTallies(cfg, CloseFrame(cfg, s, t, seqEnd, true), t, d, seqEnd);
    }
  }

  /** A begin marker on a thread with 64 open regions. */
  predicate TooDeep(s: State, e: Event) {
    e.BeginMark? && e.t < |s.threads| && |s.threads[e.t].stack| >= 64
  }

  /** An end marker of a region the thread has not open; an empty name stands for "<unnamed>". */
  predicate Unmatched(s: State, e: Event) {
    && e.EndMark? && e.t < |s.threads|
    && forall i :: 0 <= i < |s.threads[e.t].stack| ==>
         s.threads[e.t].stack[i].key.region != if e.region == "" then "<unnamed>" else e.region
  }

  ghost function Ignored(cfg: Config, r: Run): (n: (nat, nat))
    requires Valid(cfg, r)
  {
    match r
    case Empty => (0, 0)
    case Then(p, e) =>
      var s := Final(cfg, p);
      (Ignored(cfg, p).0 + (if TooDeep(s, e) then 1 else 0), Ignored(cfg, p).1 + (if Unmatched(s, e) then 1 else 0))
  }

  /** Exits draw a number each; begins that push and ends that close do so while tracing. */
  predicate Draws(cfg: Config, s: State, e: Event) {
    match e
    case Exit(_) => true
    case BeginMark(_, _) => cfg.traceLimit >= 1 && !TooDeep(s, e)
    case EndMark(_, _) => cfg.traceLimit >= 1 && !Unmatched(s, e)
    case _ => false
  }

  ghost function Drawn(cfg: Config, r: Run): nat
    requires Valid(cfg, r)
  {
    match r
    case Empty => 0
    case Then(p, e) => Drawn(cfg, p) + if Draws(cfg, Final(cfg, p), e) then 1 else 0
  }

  lemma BeginTallies(cfg: Config, s: State, t: nat, k: Key)
    requires t < |s.threads|
    ensures var s', e := Begin(cfg, s, t, k), BeginMark(t, k);
            && s'.depthOverflows == s.depthOverflows + (if TooDeep(s, e) then 1 else 0)
            && s'.unmatchedEnds == s.unmatchedEnds
            && s'.seqCounter == s.seqCounter + (if Draws(cfg, s, e) then 1 else 0)
  {
    hide UpdateShared;
    if |s.threads[t].stack| < MAX_DEPTH {
      var s1 := Tick(cfg, s);
      UpdateSharedTallies(cfg, Push(cfg, s1, t, k, Ticket(cfg, s1)), Some(t));
    }
  }

  lemma FinishTallies(cfg: Config, s: State, t: nat, i: nat)
    requires t < |s.threads| && i < |s.threads[t].stack|
    ensures SameTallies(Tick(cfg, s), Finish(cfg, s, t, i))
  {
    hide CloseAbove;
    var s1 := Tick(cfg, s);
    CloseAboveTallies(cfg, s1, t, i + 1, Ticket(cfg, s1));
  }

  lemma EndTallies(cfg: Config, s: State, t: nat, region: string)
    requires t < |s.threads|
    ensures var s', e := End(cfg, s, t, region), EndMark(t, region);
            && s'.unmatchedEnds == s.unmatchedEnds + (if Unmatched(s, e) then 1 else 0)
            && s'.depthOverflows == s.depthOverflows
            && s'.seqCounter == s.seqCounter + (if Draws(cfg, s, e) then 1 else 0)
  {
    hide UpdateShared, FindFrame, Finish;
    var i := FindFrame(s.threads[t].stack, RegionName(region));
    if i >= 0 {
      FinishTallies(cfg, s, t, i);
      UpdateSharedTallies(cfg, Finish(cfg, s, t, i), Some(t));
    }
  }

  lemma ExitTallies(cfg: Config, s: State, t: nat)
    requires t < |s.threads|
    ensures SameTallies(s.(seqCounter := s.seqCounter + 1), ThreadExit(cfg, s, t))
  {
    hide UpdateShared, CloseAbove;
    var s1 := s.(seqCounter := s.seqCounter + 1);
    CloseAboveTallies(cfg, s1, t, 0, s1.seqCounter);
    UpdateSharedTallies(cfg, Retire(cfg, s1, t, s1.seqCounter), None);
  }

  /** Over every run, the markers counted as ignored are those of the run, and so are the numbers drawn. */
  lemma {:induction false} TalliesAreOfTheRun(cfg: Config, r: Run)
    requires Valid(cfg, r)
    ensures var s := Final(cfg, r);
            (s.depthOverflows, s.unmatchedEnds) == Ignored(cfg, r) && s.seqCounter == Drawn(cfg, r)
  {
    hide Begin, End, ThreadExit, ThreadInit;
    match r
    case Empty =>
    case Then(p, e) =>
      var s := Final(cfg, p);
      TalliesAreOfTheRun(cfg, p);
      match e {
        case Exec(u, slot, n) =>
        case BeginMark(u, key) => BeginTallies(cfg, s, u, key);
        case EndMark(u, region) => EndTallies(cfg, s, u, region);
        case Start => StartTallies(cfg, s);
        case Exit(u) => ExitTallies(cfg, s, u);
      }
  }

  lemma StartTallies(cfg: Config, s: State)
    ensures SameTallies(s, ThreadInit(cfg, s))
  {
  }

  // ---------------------------------------------------------------- without a trace

  /** No record and no count of one, and no open frame has a number. */
  ghost predicate Traceless(s: State) {
    && s.traceRecords == 0 && s.traceDropped == 0
    && forall t :: 0 <= t < |s.threads| ==> Numberless(s.threads[t])
  }

  ghost predicate Numberless(th: Thread) {
    th.trace == [] && forall i :: 0 <= i < |th.stack| ==> th.stack[i].seqBegin == 0
  }

  lemma {:induction false} SteerAllTraceless(cfg: Config, s: State, nk: Option<Key>, n: nat)
    requires n <= |s.threads| && Traceless(s)
    ensures Traceless(SteerAll(cfg, s, nk, n))
    decreases n
  {
    if n > 0 {
      var th := s.threads[n - 1];
      if th.alive && th.stack == [] {
        var (s1, p) := SlotsFor(cfg, s, nk, th.index);
        SteerAllTraceless(cfg, Put(s1, n - 1, Steer(th, p)), nk, n - 1);
      } else {
        SteerAllTraceless(cfg, s, nk, n - 1);
      }
    }
  }

  lemma UpdateSharedTraceless(cfg: Config, s: State, self: Option<nat>)
    requires (self.Some? ==> self.value < |s.threads|) && Traceless(s)
    ensures Traceless(UpdateShared(cfg, s, self))
  {
    hide Numberless;
    if |s.threads| > 1 {
      var s1 := Elect(s, self);
      SteerAllTraceless(cfg, s1.(shared := LeaderKey(s1)), LeaderKey(s1), |s1.threads|);
    } else if self.Some? {
      CurNumberless(s.threads[self.value]);
    }
  }

  lemma CurNumberless(th: Thread)
    requires Numberless(th)
    ensures forall p :: Numberless(SetCur(th, p))
  {
  }

  lemma CloseFrameTraceless(cfg: Config, s: State, t: nat, seqEnd: nat, implicit: bool)
    requires t < |s.threads| && s.threads[t].stack != [] && cfg.traceLimit <= 0 && Traceless(s)
    ensures Traceless(CloseFrame(cfg, s, t, seqEnd, implicit))
  {
  }

  lemma {:induction false} CloseAboveTraceless(cfg: Config, s: State, t: nat, d: nat, seqEnd: nat)
    requires t < |s.threads| && d <= |s.threads[t].stack| && cfg.traceLimit <= 0 && Traceless(s)
    ensures Traceless(CloseAbove(cfg, s, t, d, seqEnd))
    decreases |s.threads[t].stack|
  {
    hide CloseFrame, Traceless;
    if |s.threads[t].stack| != d {
      CloseFrameTraceless(cfg, s, t, seqEnd, true);
      CloseAboveTraceless(cfg, CloseFrame(cfg, s, t, seqEnd, true), t, d, seqEnd);
    }
  }

  lemma BeginTraceless(cfg: Config, s: State, t: nat, k: Key)
    requires t < |s.threads| && cfg.traceLimit <= 0 && Traceless(s)
    ensures Traceless(Begin(cfg, s, t, k))
  {
    hide UpdateShared;
    if |s.threads[t].stack| < MAX_DEPTH {
      var s1 := Tick(cfg, s);
      var s2 := Push(cfg, s1, t, k, Ticket(cfg, s1));
      assert Traceless(s2);
      UpdateSharedTraceless(cfg, s2, Some(t));
    }
  }

  lemma RepointTraceless(cfg: Config, s: State, t: nat)
    requires t < |s.threads| && Traceless(s)
    ensures Traceless(Repoint(cfg, s, t))
  {
  }

  lemma EndTraceless(cfg: Config, s: State, t: nat, region: string)
    requires t < |s.threads| && cfg.traceLimit <= 0 && Traceless(s)
    ensures Traceless(End(cfg, s, t, region))
  {
    hide UpdateShared, CloseAbove, FindFrame, CloseFrame, Repoint, Numberless;
    var i := FindFrame(s.threads[t].stack, RegionName(region));
    if i >= 0 {
      var s1 := Tick(cfg, s);
      CloseAboveTraceless(cfg, s1, t, i + 1, Ticket(cfg, s1));
      var s2 := CloseAbove(cfg, s1, t, i + 1, Ticket(cfg, s1));
      CloseFrameTraceless(cfg, s2, t, Ticket(cfg, s1), false);
      RepointTraceless(cfg, CloseFrame(cfg, s2, t, Ticket(cfg, s1), false), t);
      UpdateSharedTraceless(cfg, Finish(cfg, s, t, i), Some(t));
    }
  }

  lemma ExitTraceless(cfg: Config, s: State, t: nat)
    requires t < |s.threads| && cfg.traceLimit <= 0 && Traceless(s)
    ensures Traceless(ThreadExit(cfg, s, t))
  {
    hide UpdateShared, CloseAbove;
    var s1 := s.(seqCounter := s.seqCounter + 1);
    CloseAboveTraceless(cfg, s1, t, 0, s1.seqCounter);
    UpdateSharedTraceless(cfg, Retire(cfg, s1, t, s1.seqCounter), None);
  }

  lemma OtherTraceless(cfg: Config, s: State, e: Event)
    requires Enabled(cfg, s, e) && (e.Exec? || e.Start?) && Traceless(s)
    ensures Traceless(Step(cfg, s, e))
  {
  }

  /** A limit of 0 or less: over every run nothing is recorded, counted as dropped or numbered. */
  lemma {:induction false} UntracedRunsLeaveNone(cfg: Config, r: Run)
    requires Valid(cfg, r) && cfg.traceLimit <= 0
    ensures Traceless(Final(cfg, r))
  {
    hide Begin, End, ThreadExit, ThreadInit, ExecBlock, Numberless;
    match r
    case Empty =>
    case Then(p, e) =>
      var s := Final(cfg, p);
      UntracedRunsLeaveNone(cfg, p);
      match e {
        case BeginMark(u, key) => BeginTraceless(cfg, s, u, key);
        case EndMark(u, region) => EndTraceless(cfg, s, u, region);
        case Exit(u) => ExitTraceless(cfg, s, u);
        case _ => OtherTraceless(cfg, s, e);
      }
  }

  // ---------------------------------------------------------------- who leads

  /** The leader after one more event, given who led before and how many threads there ever were. */
  function NextLeader(s: State, s': State, e: Event): Option<nat>
    requires e.Start? || e.t < |s.threads| == |s'.threads|
  {
    match e
    case BeginMark(t, _) => if s.leader.None? && !TooDeep(s, e) then Some(t) else s.leader
    case EndMark(t, _) =>
      if |s.threads| == 1 && s.leader == Some(t) && s.threads[t].stack != [] && s'.threads[t].stack == []
      then None else s.leader
    case Exit(t) => if s.leader == Some(t) then None else s.leader
    case _ => s.leader
  }

  lemma {:induction false} SteerAllLeads(cfg: Config, s: State, nk: Option<Key>, n: nat)
    requires n <= |s.threads|
    ensures var s' := SteerAll(cfg, s, nk, n);
            s'.leader == s.leader && forall t :: 0 <= t < |s.threads| ==> s'.threads[t].stack == s.threads[t].stack
    decreases n
  {
    if n > 0 {
      var th := s.threads[n - 1];
      if th.alive && th.stack == [] {
        var (s1, p) := SlotsFor(cfg, s, nk, th.index);
        SteerAllLeads(cfg, Put(s1, n - 1, Steer(th, p)), nk, n - 1);
      } else {
        SteerAllLeads(cfg, s, nk, n - 1);
      }
    }
  }

  /** Whom an update leaves in the lead. */
  lemma UpdateSharedLeads(cfg: Config, s: State, self: Option<nat>)
    requires (self.Some? ==> self.value < |s.threads|)
    ensures forall t :: 0 <= t < |s.threads| ==> UpdateShared(cfg, s, self).threads[t].stack == s.threads[t].stack
    ensures var busy := self.Some? && s.threads[self.value].stack != [];
            var kept := s.leader.Some? && s.leader.value < |s.threads| && s.threads[s.leader.value].alive;
            UpdateShared(cfg, s, self).leader ==
            if |s.threads| > 1 && kept then s.leader else if busy then self else None
  {
    if |s.threads| > 1 {
      var s1 := Elect(s, self);
      SteerAllLeads(cfg, s1.(shared := LeaderKey(s1)), LeaderKey(s1), |s1.threads|);
    }
  }

  lemma {:induction false} CloseAboveLeads(cfg: Config, s: State, t: nat, d: nat, seqEnd: nat)
    requires t < |s.threads| && d <= |s.threads[t].stack|
    ensures var s' := CloseAbove(cfg, s, t, d, seqEnd);
            s'.leader == s.leader && forall u :: 0 <= u < |s.threads| ==> s'.threads[u].alive == s.threads[u].alive
    decreases |s.threads[t].stack|
  {
    if |s.threads[t].stack| != d {
      CloseAboveLeads(cfg, CloseFrame(cfg, s, t, seqEnd, true), t, d, seqEnd);
    }
  }

  lemma FinishLeads(cfg: Config, s: State, t: nat, i: nat)
    requires t < |s.threads| && i < |s.threads[t].stack|
    ensures var s' := Finish(cfg, s, t, i);
            s'.leader == s.leader && forall u :: 0 <= u < |s.threads| ==> s'.threads[u].alive == s.threads[u].alive
  {
    hide CloseAbove;
    var s1 := Tick(cfg, s);
    CloseAboveLeads(cfg, s1, t, i + 1, Ticket(cfg, s1));
  }

  lemma EndLeads(cfg: Config, s: State, t: nat, region: string)
    requires LeaderOk(s) && t < |s.threads|
    ensures End(cfg, s, t, region).leader == NextLeader(s, End(cfg, s, t, region), EndMark(t, region))
  {
    hide UpdateShared, FindFrame, Finish;
    var i := FindFrame(s.threads[t].stack, RegionName(region));
    if i >= 0 {
      FinishLeads(cfg, s, t, i);
      UpdateSharedLeads(cfg, Finish(cfg, s, t, i), Some(t));
    }
  }

  lemma ExitLeads(cfg: Config, s: State, t: nat)
    requires LeaderOk(s) && t < |s.threads|
    ensures ThreadExit(cfg, s, t).leader == if s.leader == Some(t) then None else s.leader
  {
    hide UpdateShared, CloseAbove;
    var s1 := s.(seqCounter := s.seqCounter + 1);
    CloseAboveLeads(cfg, s1, t, 0, s1.seqCounter);
    UpdateSharedLeads(cfg, Retire(cfg, s1, t, s1.seqCounter), None);
  }

  lemma BeginLeads(cfg: Config, s: State, t: nat, k: Key)
    requires LeaderOk(s) && t < |s.threads|
    ensures Begin(cfg, s, t, k).leader == NextLeader(s, Begin(cfg, s, t, k), BeginMark(t, k))
  {
    hide UpdateShared;
    if |s.threads[t].stack| < MAX_DEPTH {
      var s1 := Tick(cfg, s);
      UpdateSharedLeads(cfg, Push(cfg, s1, t, k, Ticket(cfg, s1)), Some(t));
    }
  }

  /**
   Over every run the lead goes to the first thread that opens a region while nobody leads, and is
   lost only when the leader exits, or closes its last region while no second thread ever was.
   */
  lemma LeadIs(cfg: Config, p: Run, e: Event)
    requires Valid(cfg, Then(p, e))
    ensures var s, s' := Final(cfg, p), Final(cfg, Then(p, e));
            (e.Start? || e.t < |s.threads| == |s'.threads|) && s'.leader == NextLeader(s, s', e)
  {
    hide Begin, End, ThreadExit, Base, PointersOk;
    var s := Final(cfg, p);
    Reachable(cfg, p);
    match e
    case BeginMark(u, key) => BeginLeads(cfg, s, u, key);
    case EndMark(u, region) => EndLeads(cfg, s, u, region);
    case Exit(u) => ExitLeads(cfg, s, u);
    case _ =>
  }
}
