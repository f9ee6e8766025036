/**
 The counting client as a state machine.

 A thread has a running instruction total, a stack of open regions and a pointer
 to the counter array it currently counts into.  Every callback of the client
 (a counted basic block, a begin marker, an end marker, a thread start, a thread
 exit) is one atomic step of the machine.
 */
module Attribution {
  import opened Options
  import opened Sums

  const MAX_DEPTH: nat := 64
  const MAX_THREADS: nat := 4096
  const COUNTER_BUDGET: nat := 96 * 0x4000_0000
  const UINT64_MAX: nat := 0xFFFF_FFFF_FFFF_FFFF

  /** A region key: its position in the key list and the region name it carries. */
  datatype Key = Key(index: nat, region: string)

  /** A counter array: the shared dummy, or the private array of one thread slot for one key. */
  datatype Place = Dummy | Slots(key: Key, owner: nat)

  datatype Frame = Frame(key: Key, cur: Place, totalAtBegin: nat, childrenIncl: int, seqBegin: nat)

  datatype KStats = KStats(
    count: nat, inclSum: int, inclMin: int, inclMax: int,
    selfSum: int, selfMin: int, selfMax: int, implicitEnds: nat)

  datatype TraceRec = TraceRec(
    key: Key, seqBegin: nat, seqEnd: nat, clockBegin: nat, incl: int, self: int, implicit: bool)

  datatype Thread = Thread(
    total: nat, cur: Place, followed: Place, index: nat, alive: bool,
    stack: seq<Frame>, stats: map<Key, KStats>, trace: seq<TraceRec>)

  /** Client options: counter slots per array, and the bound on trace records (0 or less: no trace). */
  datatype Config = Config(maxSlots: nat, traceLimit: int)

  /** Threads are listed in creation order and never leave the list; `leader` is a position in it. */
  datatype State = State(
    threads: seq<Thread>, leader: Option<nat>, shared: Option<Key>,
    arrays: map<(Key, nat), seq<nat>>, dummy: seq<nat>, counterBytes: nat, denied: nat,
    seqCounter: nat, traceRecords: nat, traceDropped: nat, unmatchedEnds: nat, depthOverflows: nat)

  function Initial(cfg: Config): State {
    State([], None, None, map[], Zeros(cfg.maxSlots), 0, 0, 0, 0, 0, 0, 0)
  }

  function ArrayBytes(cfg: Config): nat { 8 * cfg.maxSlots }

  /** No further counter array fits the budget. */
  predicate Exhausted(cfg: Config, s: State) {
    s.counterBytes + ArrayBytes(cfg) > COUNTER_BUDGET
  }

  function Put(s: State, t: nat, th: Thread): State
    requires t < |s.threads|
  {
    s.(threads := s.threads[t := th])
  }

  // ---------------------------------------------------------------- counter arrays

  /** The array of key `k` for thread slot `i`, created on first use; the dummy once the budget is gone. */
  function SlotsFor(cfg: Config, s: State, k: Option<Key>, i: nat): (r: (State, Place)) {
    match k
    case None => (s, Dummy)
    case Some(key) =>
      if (key, i) in s.arrays then (s, Slots(key, i))
      else if Exhausted(cfg, s) then (s.(denied := s.denied + 1), Dummy)
      else
        (s.(arrays := s.arrays[(key, i) := Zeros(cfg.maxSlots)],
            counterBytes := s.counterBytes + ArrayBytes(cfg)),
         Slots(key, i))
  }

  function SetCur(th: Thread, p: Place): Thread {
    th.(cur := p, followed := p)
  }

  /** The leader only replaces a pointer it installed itself. */
  function Steer(th: Thread, p: Place): Thread {
    if th.cur == th.followed then SetCur(th, p) else th
  }

  /** Point threads 0..n-1 that have no region of their own at `nk`, newest thread first. */
  function SteerAll(cfg: Config, s: State, nk: Option<Key>, n: nat): (r: State)
    requires n <= |s.threads|
    ensures |r.threads| == |s.threads|
    decreases n
  {
    if n == 0 then s else
      var th := s.threads[n - 1];
      if th.alive && th.stack == [] then
        var (s1, p) := SlotsFor(cfg, s, nk, th.index);
        SteerAll(cfg, Put(s1, n - 1, Steer(th, p)), nk, n - 1)
      else
        SteerAll(cfg, s, nk, n - 1)
  }

  function TopKey(stack: seq<Frame>): Option<Key> {
    if stack == [] then None else Some(stack[|stack| - 1].key)
  }

  /** The innermost region of the leader, if there is a leader and it has an open region. */
  function LeaderKey(s: State): Option<Key> {
    match s.leader
    case None => None
    case Some(l) => if l < |s.threads| then TopKey(s.threads[l].stack) else None
  }

  /** With one thread ever started, it leads exactly while it has an open region. */
  function ShareAlone(cfg: Config, s: State, self: Option<nat>): (r: State)
    requires self.Some? ==> self.value < |s.threads|
    ensures |r.threads| == |s.threads|
  {
    var busy := self.Some? && s.threads[self.value].stack != [];
    var s1 := s.(leader := if busy then self else None);
    var s2 := s1.(shared := LeaderKey(s1));
    if self.Some? && !busy then
      var (s3, p) := SlotsFor(cfg, s2, s2.shared, s2.threads[self.value].index);
      Put(s3, self.value, SetCur(s3.threads[self.value], p))
    else s2
  }

  /** A dead leader is deposed; a vacancy goes to `self` if it has an open region. */
  function Elect(s: State, self: Option<nat>): State
    requires self.Some? ==> self.value < |s.threads|
  {
    var l1 := if s.leader.Some? && !(s.leader.value < |s.threads| && s.threads[s.leader.value].alive)
              then None else s.leader;
    s.(leader := if l1.None? && self.Some? && s.threads[self.value].stack != [] then self else l1)
  }

  /** With several threads, followers are steered when the leader's innermost region changed. */
  function ShareAmong(cfg: Config, s: State, self: Option<nat>): (r: State)
    requires self.Some? ==> self.value < |s.threads|
    ensures |r.threads| == |s.threads|
  {
    var s1 := Elect(s, self);
    var nk := LeaderKey(s1);
    if nk == s1.shared then s1
    else SteerAll(cfg, s1.(shared := nk), nk, |s1.threads|)
  }

  /** Leader bookkeeping after the innermost region of `self` changed (None: a thread exited). */
  function UpdateShared(cfg: Config, s: State, self: Option<nat>): (r: State)
    requires self.Some? ==> self.value < |s.threads|
    ensures |r.threads| == |s.threads|
  {
    if |s.threads| <= 1 then ShareAlone(cfg, s, self) else ShareAmong(cfg, s, self)
  }

  // ---------------------------------------------------------------- closing a frame

  const FRESH_STATS := KStats(0, 0, UINT64_MAX, 0, 0, UINT64_MAX, 0, 0)

  function Min(a: int, b: int): int { if a < b then a else b }
  function Max(a: int, b: int): int { if a > b then a else b }

  function StatsOf(th: Thread, k: Key): KStats {
    if k in th.stats then th.stats[k] else FRESH_STATS
  }

  function AddToStats(s: KStats, incl: int, self: int, implicit: bool): KStats {
    KStats(s.count + 1, s.inclSum + incl, Min(s.inclMin, incl), Max(s.inclMax, incl),
           s.selfSum + self, Min(s.selfMin, self), Max(s.selfMax, self),
           s.implicitEnds + (if implicit then 1 else 0))
  }

  function ClosingRec(th: Thread, seqEnd: nat, implicit: bool): TraceRec
    requires th.stack != []
  {
    var f := th.stack[|th.stack| - 1];
    var incl := th.total - f.totalAtBegin;
    TraceRec(f.key, f.seqBegin, seqEnd, f.totalAtBegin, incl, incl - f.childrenIncl, implicit)
  }

  /** The stack without its top frame, whose inclusive count is charged to the frame below. */
  function PopStack(stack: seq<Frame>, total: nat): seq<Frame>
    requires stack != []
  {
    var d := |stack| - 1;
    var rest := stack[..d];
    if d == 0 then rest
    else rest[d - 1 := rest[d - 1].(childrenIncl := rest[d - 1].childrenIncl + (total - stack[d].totalAtBegin))]
  }

  /** The thread with its top frame closed: statistics updated, frame popped. */
  function Popped(th: Thread, seqEnd: nat, implicit: bool): Thread
    requires th.stack != []
  {
    var rec := ClosingRec(th, seqEnd, implicit);
    th.(stats := th.stats[rec.key := AddToStats(StatsOf(th, rec.key), rec.incl, rec.self, implicit)],
        stack := PopStack(th.stack, th.total))
  }

  /** Append a record to thread `t`'s trace, unless tracing is off or the trace is full. */
  function Traced(cfg: Config, s: State, t: nat, rec: TraceRec): (r: State)
    requires t < |s.threads|
  {
    if cfg.traceLimit <= 0 then s
    else
      var n := s.traceRecords + 1;
      if n > cfg.traceLimit then s.(traceRecords := n, traceDropped := s.traceDropped + 1)
      else Put(s.(traceRecords := n), t, s.threads[t].(trace := s.threads[t].trace + [rec]))
  }

  /** Close the top frame of thread `t`: statistics, trace record, charge to the parent. */
  function CloseFrame(cfg: Config, s: State, t: nat, seqEnd: nat, implicit: bool): (r: State)
    requires t < |s.threads| && s.threads[t].stack != []
    ensures |r.threads| == |s.threads|
    ensures r.threads[t].total == s.threads[t].total
    ensures |r.threads[t].stack| == |s.threads[t].stack| - 1
  {
    Traced(cfg, Put(s, t, Popped(s.threads[t], seqEnd, implicit)), t, ClosingRec(s.threads[t], seqEnd, implicit))
  }

  /** Close the frames of thread `t` above depth `d`, all implicitly. */
  function CloseAbove(cfg: Config, s: State, t: nat, d: nat, seqEnd: nat): (r: State)
    requires t < |s.threads| && d <= |s.threads[t].stack|
    ensures |r.threads| == |s.threads|
    ensures |r.threads[t].stack| == d
    decreases |s.threads[t].stack|
  {
    if |s.threads[t].stack| == d then s
    else CloseAbove(cfg, CloseFrame(cfg, s, t, seqEnd, true), t, d, seqEnd)
  }

  // ---------------------------------------------------------------- the steps

  const UNNAMED := "<unnamed>"

  function RegionName(region: string): string {
    if region == "" then UNNAMED else region
  }

  /** A basic block of `n` instructions with counter slot `slot` ran on thread `t`. */
  function ExecBlock(s: State, t: nat, slot: nat, n: nat): (r: State)
    requires t < |s.threads|
    ensures |r.threads| == |s.threads|
  {
    var th := s.threads[t];
    var s1 := Put(s, t, th.(total := th.total + n));
    match th.cur
    case Dummy =>
      if slot < |s.dummy| then s1.(dummy := s.dummy[slot := s.dummy[slot] + n]) else s1
    case Slots(k, i) =>
      if (k, i) in s.arrays && slot < |s.arrays[(k, i)]| then
        var a: seq<nat> := s.arrays[(k, i)];
        var v: nat := a[slot] + n;
        s1.(arrays := s.arrays[(k, i) := a[slot := v]])
      else s1
  }

  /** One atomic increment of the sequence counter, taken only while tracing. */
  function Tick(cfg: Config, s: State): State {
    if cfg.traceLimit > 0 then s.(seqCounter := s.seqCounter + 1) else s
  }

  /** The number the last tick drew; an untraced frame keeps 0. */
  function Ticket(cfg: Config, s: State): nat {
    if cfg.traceLimit > 0 then s.seqCounter else 0
  }

  /** Push a frame for `k` on thread `t` and count into its array. */
  function Push(cfg: Config, s: State, t: nat, k: Key, sq: nat): (r: State)
    requires t < |s.threads|
    ensures |r.threads| == |s.threads|
  {
    var th := s.threads[t];
    var (s', p) := SlotsFor(cfg, s, Some(k), th.index);
    Put(s', t, SetCur(th.(stack := th.stack + [Frame(k, p, th.total, 0, sq)]), p))
  }

  /** A begin marker whose (region, states, root) resolved to key `k`. */
  function Begin(cfg: Config, s: State, t: nat, k: Key): (r: State)
    requires t < |s.threads|
    ensures |r.threads| == |s.threads|
  {
    if |s.threads[t].stack| >= MAX_DEPTH then s.(depthOverflows := s.depthOverflows + 1)
    else
      var s1 := Tick(cfg, s);
      var s2 := Push(cfg, s1, t, k, Ticket(cfg, s1));
      if s2.leader.None? || s2.leader == Some(t) then UpdateShared(cfg, s2, Some(t)) else s2
  }

  /** The innermost open frame of this region, or -1. */
  function FindFrame(stack: seq<Frame>, region: string): (i: int)
    ensures -1 <= i < |stack|
    ensures i >= 0 ==> stack[i].key.region == region
    ensures forall j :: i < j < |stack| ==> stack[j].key.region != region
  {
    if stack == [] then -1
    else if stack[|stack| - 1].key.region == region then |stack| - 1
    else FindFrame(stack[..|stack| - 1], region)
  }

  /** Point a thread at its top frame's array, or at its array of the shared key. */
  function Repoint(cfg: Config, s: State, t: nat): (r: State)
    requires t < |s.threads|
    ensures |r.threads| == |s.threads|
  {
    var th := s.threads[t];
    if th.stack != [] then Put(s, t, SetCur(th, th.stack[|th.stack| - 1].cur))
    else
      var (s', p) := SlotsFor(cfg, s, s.shared, th.index);
      Put(s', t, SetCur(th, p))
  }

  /** Close frame `i` of thread `t`, and implicitly those above it. */
  function CloseFrom(cfg: Config, s: State, t: nat, i: nat, seqEnd: nat): (r: State)
    requires t < |s.threads| && i < |s.threads[t].stack|
    ensures |r.threads| == |s.threads|
  {
    CloseFrame(cfg, CloseAbove(cfg, s, t, i + 1, seqEnd), t, seqEnd, false)
  }

  /** Number this end, close frame `i`, and count into what is now innermost. */
  function Finish(cfg: Config, s: State, t: nat, i: nat): (r: State)
    requires t < |s.threads| && i < |s.threads[t].stack|
    ensures |r.threads| == |s.threads|
  {
    var s1 := Tick(cfg, s);
    Repoint(cfg, CloseFrom(cfg, s1, t, i, Ticket(cfg, s1)), t)
  }

  /** An end marker: frames left open inside the region are closed implicitly. */
  function End(cfg: Config, s: State, t: nat, region: string): (r: State)
    requires t < |s.threads|
    ensures |r.threads| == |s.threads|
  {
    var i := FindFrame(s.threads[t].stack, RegionName(region));
    if i < 0 then s.(unmatchedEnds := s.unmatchedEnds + 1)
    else
      var s2 := Finish(cfg, s, t, i);
      if s2.leader == Some(t) then UpdateShared(cfg, s2, Some(t)) else s2
  }

  function ThreadInit(cfg: Config, s: State): (r: State)
    ensures |r.threads| == |s.threads| + 1
  {
    var i := if |s.threads| < MAX_THREADS then |s.threads| else MAX_THREADS - 1;
    var (s1, p) := SlotsFor(cfg, s, s.shared, i);
    s1.(threads := s1.threads + [Thread(0, p, p, i, true, [], map[], [])])
  }

  /** Close every frame of thread `t` and mark it dead. */
  function Retire(cfg: Config, s: State, t: nat, seqEnd: nat): (r: State)
    requires t < |s.threads|
    ensures |r.threads| == |s.threads|
  {
    var s1 := CloseAbove(cfg, s, t, 0, seqEnd);
    Put(s1, t, s1.threads[t].(alive := false))
  }

  function ThreadExit(cfg: Config, s: State, t: nat): (r: State)
    requires t < |s.threads|
    ensures |r.threads| == |s.threads|
  {
    var s1 := s.(seqCounter := s.seqCounter + 1);
    var s2 := Retire(cfg, s1, t, s1.seqCounter);
    if s2.leader == Some(t) then UpdateShared(cfg, s2, None) else s2
  }

  // ---------------------------------------------------------------- runs

  datatype Event =
    | Exec(t: nat, slot: nat, n: nat)
    | BeginMark(t: nat, key: Key)
    | EndMark(t: nat, region: string)
    | Start
    | Exit(t: nat)

  /** What the world may do next.  A thread's 64-bit total does not wrap. */
  predicate Enabled(cfg: Config, s: State, e: Event) {
    match e
    case Start => true
    case _ =>
      && e.t < |s.threads| && s.threads[e.t].alive
      && (e.Exec? ==> e.slot < cfg.maxSlots && s.threads[e.t].total + e.n <= UINT64_MAX)
  }

  function Step(cfg: Config, s: State, e: Event): State
    requires Enabled(cfg, s, e)
  {
    match e
    case Exec(t, slot, n) => ExecBlock(s, t, slot, n)
    case BeginMark(t, k) => Begin(cfg, s, t, k)
    case EndMark(t, region) => End(cfg, s, t, region)
    case Start => ThreadInit(cfg, s)
    case Exit(t) => ThreadExit(cfg, s, t)
  }

  /** A run: the events so far, oldest innermost. */
  datatype Run = Empty | Then(before: Run, event: Event)

  ghost predicate Valid(cfg: Config, r: Run)
    decreases r, 0
  {
    match r
    case Empty => true
    case Then(p, e) => Valid(cfg, p) && Enabled(cfg, Final(cfg, p), e)
  }

  /** The state a run reaches. */
  ghost function Final(cfg: Config, r: Run): State
    requires Valid(cfg, r)
    decreases r, 1
  {
    match r
    case Empty => Initial(cfg)
    case Then(p, e) => Step(cfg, Final(cfg, p), e)
  }
}
