/**
 Attribution by what the markers ask for. A begin marker names a region and its states; the client
 finds the key of that request, with the outermost open region as its root, and counts under it.
 Over every run, the counters of a request's key hold what ran while that request was innermost.
 */
module RequestRuns {
  import opened Options
  import opened Attribution
  import opened AttributionInvariant
  import opened Accounting
  import opened KeyEncoding
  import K = KeyTable

  // ---------------------------------------------------------------- the client with its table of keys

  /** What the program calls: a begin marker with its region and states, or any other event. */
  datatype Call = Marker(t: nat, region: string, names: seq<string>, vals: seq<int>) | Other(event: Event)

  /** The counting machine, the table of keys, and for each thread what its open frames were begun for. */
  datatype Whole = Whole(s: State, table: K.Table, asked: seq<seq<Request>>)

  predicate ProperCall(c: Call) {
    match c
    case Marker(_, region, names, vals) =>
      && 1 <= |names| == |vals| <= KEY_STATES && |RegionName(region)| < RNAME_MAX && Plain(region)
      && forall i :: 0 <= i < |names| ==> |names[i]| < STATE_NAME_MAX && Plain(names[i]) && Int64(vals[i])
    case Other(e) => !e.BeginMark?
  }

  predicate CallEnabled(cfg: Config, s: State, c: Call) {
    ProperCall(c) && match c
                     case Marker(t, _, _, _) => t < |s.threads| && s.threads[t].alive
                     case Other(e) => Enabled(cfg, s, e)
  }

  /** The outermost open region of a thread, and the innermost. */
  function RootOf(stack: seq<Frame>): string { if stack == [] then "" else stack[0].key.region }

  function ParentOf(stack: seq<Frame>): string { if stack == [] then "" else stack[|stack| - 1].key.region }

  function RequestOf(stack: seq<Frame>, region: string, names: seq<string>, vals: seq<int>): Request {
    Request(RegionName(region), names, vals, RootOf(stack))
  }

  function KeyFor(k: K.KeyRec): Key { Key(k.index, k.region) }

  /** The table after the lookup of a begin marker, and the event the marker is. */
  function Resolve(cfg: Config, s: State, table: K.Table, c: Call): (r: (K.Table, Event))
    requires CallEnabled(cfg, s, c)
    ensures Enabled(cfg, s, r.1)
  {
    match c
    case Other(e) => (table, e)
    case Marker(t, region, names, vals) =>
      var stack := s.threads[t].stack;
      if |stack| >= MAX_DEPTH then (table, BeginMark(t, Key(0, RegionName(region))))
      else
        var (table', k) := K.Get(cfg, table, RequestOf(stack, region, names, vals), ParentOf(stack));
        (table', BeginMark(t, KeyFor(k)))
  }

  predicate Pushes(s: State, c: Call) {
    c.Marker? && c.t < |s.threads| && |s.threads[c.t].stack| < MAX_DEPTH
  }

  /** A begin marker that pushes adds its request; other events leave those of the frames still open. */
  function AskedAfter(s: State, s': State, asked: seq<seq<Request>>, c: Call): seq<seq<Request>> {
    if Pushes(s, c) && c.t < |asked| then
      asked[c.t := asked[c.t] + [RequestOf(s.threads[c.t].stack, c.region, c.names, c.vals)]]
    else
      seq(|s'.threads|, i requires 0 <= i < |s'.threads| =>
        if i < |asked| && |s'.threads[i].stack| <= |asked[i]| then asked[i][..|s'.threads[i].stack|] else [])
  }

  function StepWhole(cfg: Config, w: Whole, c: Call): Whole
    requires CallEnabled(cfg, w.s, c)
  {
    var (table, e) := Resolve(cfg, w.s, w.table, c);
    var s := Step(cfg, w.s, e);
    Whole(s, table.(bytes := s.counterBytes), AskedAfter(w.s, s, w.asked, c))
  }

  datatype Calls = Nothing | After(before: Calls, call: Call)

  ghost predicate Proper(cfg: Config, r: Calls)
    decreases r, 0
  {
    match r
    case Nothing => true
    case After(p, c) => Proper(cfg, p) && CallEnabled(cfg, Reached(cfg, p).s, c)
  }

  ghost function Reached(cfg: Config, r: Calls): Whole
    requires Proper(cfg, r)
    decreases r, 1
  {
    match r
    case Nothing => Whole(Initial(cfg), K.EMPTY, [])
    case After(p, c) => StepWhole(cfg, Reached(cfg, p), c)
  }

  /** The run of the counting machine that the calls make. */
  ghost function RunOf(cfg: Config, r: Calls): (u: Run)
    requires Proper(cfg, r)
    ensures Valid(cfg, u) && Final(cfg, u) == Reached(cfg, r).s
  {
    match r
    case Nothing => Empty
    case After(p, c) => Then(RunOf(cfg, p), Resolve(cfg, Reached(cfg, p).s, Reached(cfg, p).table, c).1)
  }

  // ---------------------------------------------------------------- attribution, by request

  /** What the innermost open frame of a thread, or else of the leader, was begun for. */
  function InnermostRequest(w: Whole, t: nat): Option<Request> {
    if t < |w.asked| && w.asked[t] != [] then Some(w.asked[t][|w.asked[t]| - 1])
    else
      match w.s.leader
      case None => None
      case Some(l) => if l < |w.asked| && w.asked[l] != [] then Some(w.asked[l][|w.asked[l]| - 1]) else None
  }

  /** A request with a key of its own, or those of a region that share its bucket. */
  datatype Group = Own(q: Request) | Shared(region: string)

  predicate Belongs(table: K.Table, g: Group, q: Request) {
    match g
    case Own(p) => q == p
    case Shared(region) => q.region == region && q !in table.keys
  }

  predicate HasKey(table: K.Table, g: Group) {
    match g
    case Own(q) => q in table.keys
    case Shared(region) => region in table.others
  }

  function KeyOfGroup(table: K.Table, g: Group): K.KeyRec
    requires HasKey(table, g)
  {
    match g
    case Own(q) => table.keys[q]
    case Shared(region) => table.others[region]
  }

  predicate Counts(table: K.Table, g: Group, w: Whole, t: nat) {
    match InnermostRequest(w, t)
    case None => false
    case Some(q) => Belongs(table, g, q)
  }

  /** Instructions of block `slot` that thread `t` ran while a request of the group was innermost. */
  ghost function GroupCount(cfg: Config, r: Calls, table: K.Table, g: Group, t: nat, slot: nat): nat
    requires Proper(cfg, r)
  {
    match r
    case Nothing => 0
    case After(p, c) =>
      GroupCount(cfg, p, table, g, t, slot) +
      if && c.Other? && c.event.Exec? && c.event.t == t && c.event.slot == slot
         && Counts(table, g, Reached(cfg, p), t)
      then c.event.n else 0
  }

  /** All instructions that thread `t` ran while a request of the group was innermost. */
  ghost function GroupWork(cfg: Config, r: Calls, table: K.Table, g: Group, t: nat): nat
    requires Proper(cfg, r)
  {
    match r
    case Nothing => 0
    case After(p, c) =>
      GroupWork(cfg, p, table, g, t) +
      if c.Other? && c.event.Exec? && c.event.t == t && Counts(table, g, Reached(cfg, p), t) then c.event.n else 0
  }

  // ---------------------------------------------------------------- numbers are distinct

  /** No bucket has the number of a key or of another bucket. */
  ghost predicate NumbersApart(t: K.Table) {
    && (forall r :: r in t.others ==> t.others[r].index < t.nkeys)
    && (forall q :: q in t.keys ==> t.keys[q].index < t.nkeys)
    && (forall q, r :: q in t.keys && r in t.others ==> t.keys[q].index != t.others[r].index)
    && (forall r, r' :: r in t.others && r' in t.others && t.others[r].index == t.others[r'].index ==> r == r')
  }

  lemma GetNumbers(cfg: Config, t: K.Table, q: Request, parent: string)
    requires NumbersApart(t) && |q.names| == |q.vals|
    ensures NumbersApart(K.Get(cfg, t, q, parent).0)
  {
    hide K.Charge, K.OutOfMemory;
  }

  // ---------------------------------------------------------------- what later tables keep

  /** Everything settled in `t` is settled in `u`. */
  ghost predicate Later(cfg: Config, t: K.Table, u: K.Table) {
    forall q, k :: WellFormed(q) && K.Settled(cfg, t, q, k) ==> K.Settled(cfg, u, q, k)
  }

  lemma GetLater(cfg: Config, t: K.Table, p: Request, parent: string)
    requires WellFormed(p)
    ensures Later(cfg, t, K.Get(cfg, t, p, parent).0)
  {
    hide K.Settled, K.Get;
    forall q, k | WellFormed(q) && K.Settled(cfg, t, q, k) ensures K.Settled(cfg, K.Get(cfg, t, p, parent).0, q, k) {
      K.SettledStays(cfg, t, q, k, p, parent);
    }
  }

  lemma BytesLater(cfg: Config, t: K.Table, bytes: nat)
    requires t.bytes <= bytes
    ensures Later(cfg, t, t.(bytes := bytes))
  {
    hide WellFormed, K.Full;
  }

  lemma LaterTrans(cfg: Config, t: K.Table, u: K.Table, v: K.Table)
    requires Later(cfg, t, u) && Later(cfg, u, v)
    ensures Later(cfg, t, v)
  {
    hide WellFormed, K.Settled;
  }

  // ---------------------------------------------------------------- every frame has its request's key

  /** The answer the table gives, and always will, for a request that was asked. */
  ghost predicate Answered(cfg: Config, t: K.Table, q: Request, key: Key) {
    WellFormed(q) && exists k :: K.Settled(cfg, t, q, k) && key == KeyFor(k)
  }

  ghost predicate FramesAnswered(cfg: Config, t: K.Table, stack: seq<Frame>, asked: seq<Request>) {
    && |asked| == |stack|
    && forall j :: 0 <= j < |stack| ==>
         Answered(cfg, t, asked[j], stack[j].key) && |stack[j].key.region| < RNAME_MAX && Plain(stack[j].key.region)
  }

  ghost predicate WholeOk(cfg: Config, w: Whole) {
    && K.TableOk(w.table) && NumbersApart(w.table) && w.table.bytes == w.s.counterBytes
    && |w.asked| == |w.s.threads|
    && forall i :: 0 <= i < |w.asked| ==> FramesAnswered(cfg, w.table, w.s.threads[i].stack, w.asked[i])
  }

  lemma AnsweredLater(cfg: Config, t: K.Table, u: K.Table, q: Request, key: Key)
    requires Later(cfg, t, u) && Answered(cfg, t, q, key)
    ensures Answered(cfg, u, q, key)
  {
    hide WellFormed, K.Settled;
    var k :| K.Settled(cfg, t, q, k) && key == KeyFor(k);
    assert K.Settled(cfg, u, q, k);
  }

  lemma FramesLater(cfg: Config, t: K.Table, u: K.Table, stack: seq<Frame>, asked: seq<Request>)
    requires Later(cfg, t, u) && FramesAnswered(cfg, t, stack, asked)
    ensures FramesAnswered(cfg, u, stack, asked)
  {
    hide Later, Answered, Plain;
    forall j | 0 <= j < |stack| ensures Answered(cfg, u, asked[j], stack[j].key) {
      AnsweredLater(cfg, t, u, asked[j], stack[j].key);
    }
  }

  /** The frames of `b` are the first ones of `a`, up to what their children have run. */
  ghost predicate Cut(a: seq<Frame>, b: seq<Frame>) {
    |b| <= |a| && forall j :: 0 <= j < |b| ==> b[j].key == a[j].key
  }

  lemma FramesCut(cfg: Config, t: K.Table, a: seq<Frame>, b: seq<Frame>, asked: seq<Request>)
    requires FramesAnswered(cfg, t, a, asked) && Cut(a, b)
    ensures FramesAnswered(cfg, t, b, asked[..|b|])
  {
    hide Answered, Plain;
  }

  // ---------------------------------------------------------------- what events do to the stacks

  ghost predicate StacksCut(s: State, s': State) {
    |s.threads| <= |s'.threads| && forall i :: 0 <= i < |s.threads| ==> Cut(s.threads[i].stack, s'.threads[i].stack)
  }

  lemma SteeredCuts(cfg: Config, s: State, s': State)
    requires Steered(cfg, s, s')
    ensures StacksCut(s, s') && forall i :: 0 <= i < |s.threads| ==> s'.threads[i].stack == s.threads[i].stack
  {
  }

  lemma CutTrans(a: State, b: State, c: State)
    requires StacksCut(a, b) && StacksCut(b, c)
    ensures StacksCut(a, c)
  {
  }

  lemma CloseFrameCuts(cfg: Config, s: State, t: nat, seqEnd: nat, implicit: bool)
    requires t < |s.threads| && s.threads[t].stack != []
    ensures StacksCut(s, CloseFrame(cfg, s, t, seqEnd, implicit))
  {
    PopKeepsKeys(s.threads[t].stack, s.threads[t].total);
  }

  lemma {:induction false} CloseAboveCuts(cfg: Config, s: State, t: nat, d: nat, seqEnd: nat)
    requires t < |s.threads| && d <= |s.threads[t].stack|
    ensures StacksCut(s, CloseAbove(cfg, s, t, d, seqEnd))
    decreases |s.threads[t].stack|
  {
    if |s.threads[t].stack| > d {
      hide StacksCut;
      CloseFrameCuts(cfg, s, t, seqEnd, true);
      CloseAboveCuts(cfg, CloseFrame(cfg, s, t, seqEnd, true), t, d, seqEnd);
      CutTrans(s, CloseFrame(cfg, s, t, seqEnd, true), CloseAbove(cfg, s, t, d, seqEnd));
    } else {
      CutSelf(s);
    }
  }

  lemma CutSelf(s: State)
    ensures StacksCut(s, s)
  {
  }

  lemma EndCuts(cfg: Config, s: State, t: nat, region: string)
    requires t < |s.threads|
    ensures StacksCut(s, End(cfg, s, t, region))
  {
    hide StacksCut, UpdateShared, CloseAbove, FindFrame;
    var i := FindFrame(s.threads[t].stack, RegionName(region));
    CutSelf(s);
    SameStacksCut(s, s.(unmatchedEnds := s.unmatchedEnds + 1));
    if i >= 0 {
      var s1 := Tick(cfg, s);
      SameStacksCut(s, s1);
      var n := Ticket(cfg, s1);
      CloseAboveCuts(cfg, s1, t, i + 1, n);
      var s2 := CloseAbove(cfg, s1, t, i + 1, n);
      CloseFrameCuts(cfg, s2, t, n, false);
      var s3 := CloseFrame(cfg, s2, t, n, false);
      RepointSteers(cfg, s3, t);
      SteeredCuts(cfg, s3, Repoint(cfg, s3, t));
      var s4 := Repoint(cfg, s3, t);
      UpdateSharedSteers(cfg, s4, Some(t));
      SteeredCuts(cfg, s4, UpdateShared(cfg, s4, Some(t)));
      CutTrans(s, s1, s2);
      CutTrans(s, s2, s3);
      CutTrans(s, s3, s4);
      CutTrans(s, s4, UpdateShared(cfg, s4, Some(t)));
    }
  }

  lemma SameStacksCut(s: State, s': State)
    requires s'.threads == s.threads
    ensures StacksCut(s, s')
  {
  }

  lemma ExitCuts(cfg: Config, s: State, t: nat)
    requires t < |s.threads|
    ensures StacksCut(s, ThreadExit(cfg, s, t))
  {
    hide StacksCut, UpdateShared, CloseAbove;
    var s1 := s.(seqCounter := s.seqCounter + 1);
    SameStacksCut(s, s1);
    CloseAboveCuts(cfg, s1, t, 0, s1.seqCounter);
    var s2 := CloseAbove(cfg, s1, t, 0, s1.seqCounter);
    var s3 := Retire(cfg, s1, t, s1.seqCounter);
    DeadCuts(s2, t);
    UpdateSharedSteers(cfg, s3, None);
    SteeredCuts(cfg, s3, UpdateShared(cfg, s3, None));
    CutTrans(s, s1, s2);
    CutTrans(s, s2, s3);
    CutTrans(s, s3, UpdateShared(cfg, s3, None));
  }

  lemma DeadCuts(s: State, t: nat)
    requires t < |s.threads|
    ensures StacksCut(s, Put(s, t, s.threads[t].(alive := false)))
  {
  }

  /** Only a begin marker that pushes adds a frame; a thread that starts has none. */
  lemma EventCuts(cfg: Config, s: State, e: Event)
    requires Enabled(cfg, s, e) && (e.BeginMark? ==> |s.threads[e.t].stack| >= MAX_DEPTH)
    ensures var s' := Step(cfg, s, e);
            StacksCut(s, s') && forall i :: |s.threads| <= i < |s'.threads| ==> s'.threads[i].stack == []
  {
    hide End, ThreadExit, UpdateShared;
    ThreadsStay(cfg, s, e);
    match e
    case Exec(t, slot, n) =>
    case BeginMark(t, k) => SameStacksCut(s, Begin(cfg, s, t, k));
    case EndMark(t, region) => EndCuts(cfg, s, t, region);
    case Start =>
    case Exit(t) => ExitCuts(cfg, s, t);
  }

  /** A begin marker that pushes adds one frame with its key, and touches no other stack. */
  lemma BeginPushes(cfg: Config, s: State, t: nat, key: Key)
    requires t < |s.threads| && |s.threads[t].stack| < MAX_DEPTH
    ensures var s' := Begin(cfg, s, t, key);
            && |s'.threads| == |s.threads|
            && |s'.threads[t].stack| == |s.threads[t].stack| + 1
            && Cut(s'.threads[t].stack, s.threads[t].stack)
            && s'.threads[t].stack[|s.threads[t].stack|].key == key
            && forall i :: 0 <= i < |s.threads| && i != t ==> s'.threads[i].stack == s.threads[i].stack
  {
    hide UpdateShared;
    var s1 := Tick(cfg, s);
    var s2 := Push(cfg, s1, t, key, Ticket(cfg, s1));
    UpdateSharedSteers(cfg, s2, Some(t));
    SteeredCuts(cfg, s2, UpdateShared(cfg, s2, Some(t)));
  }

  // ---------------------------------------------------------------- the invariant

  lemma StartOk(cfg: Config)
    ensures WholeOk(cfg, Whole(Initial(cfg), K.EMPTY, []))
  {
  }

  lemma RequestIsWell(cfg: Config, w: Whole, c: Call)
    requires WholeOk(cfg, w) && CallEnabled(cfg, w.s, c) && c.Marker?
    ensures WellFormed(RequestOf(w.s.threads[c.t].stack, c.region, c.names, c.vals))
  {
    hide Answered, K.TableOk, NumbersApart;
    var stack := w.s.threads[c.t].stack;
    assert FramesAnswered(cfg, w.table, stack, w.asked[c.t]);
    NameIsPlain(c.region);
  }

  lemma NameIsPlain(region: string)
    requires Plain(region)
    ensures Plain(RegionName(region))
  {
  }

  lemma StepBytes(cfg: Config, w: Whole, r: Calls, c: Call)
    requires Proper(cfg, r) && w == Reached(cfg, r) && CallEnabled(cfg, w.s, c)
    ensures w.s.counterBytes <= StepWhole(cfg, w, c).s.counterBytes
  {
    hide Proper, Reached, Step, Inv, Resolve;
    Reachable(cfg, RunOf(cfg, r));
    StepKeeps(cfg, w.s, Resolve(cfg, w.s, w.table, c).1);
  }

  /** The table only moves on. */
  lemma TableMoves(cfg: Config, w: Whole, c: Call)
    requires WholeOk(cfg, w) && CallEnabled(cfg, w.s, c)
    requires w.s.counterBytes <= StepWhole(cfg, w, c).s.counterBytes
    ensures var t := StepWhole(cfg, w, c).table;
            && Later(cfg, w.table, t) && K.TableOk(t) && NumbersApart(t)
            && t.bytes == StepWhole(cfg, w, c).s.counterBytes
  {
    hide Step, K.Get, FramesAnswered, Later, K.TableOk, NumbersApart, RequestOf;
    var (u, e) := Resolve(cfg, w.s, w.table, c);
    var bytes := StepWhole(cfg, w, c).s.counterBytes;
    if Pushes(w.s, c) {
      var q := RequestOf(w.s.threads[c.t].stack, c.region, c.names, c.vals);
      RequestIsWell(cfg, w, c);
      GetLater(cfg, w.table, q, ParentOf(w.s.threads[c.t].stack));
      K.GetOk(cfg, w.table, q, ParentOf(w.s.threads[c.t].stack));
      WellShaped(q);
      GetNumbers(cfg, w.table, q, ParentOf(w.s.threads[c.t].stack));
      GetBytes(cfg, w.table, q, ParentOf(w.s.threads[c.t].stack));
    } else {
      LaterSelf(cfg, w.table);
    }
    BytesLater(cfg, u, bytes);
    BytesOk(u, bytes);
    LaterTrans(cfg, w.table, u, u.(bytes := bytes));
  }

  lemma WellShaped(q: Request)
    requires WellFormed(q)
    ensures |q.names| == |q.vals|
  {
  }

  lemma GetBytes(cfg: Config, t: K.Table, q: Request, parent: string)
    requires |q.names| == |q.vals|
    ensures K.Get(cfg, t, q, parent).0.bytes == t.bytes
  {
  }

  lemma LaterSelf(cfg: Config, t: K.Table)
    ensures Later(cfg, t, t)
  {
  }

  lemma BytesOk(t: K.Table, bytes: nat)
    ensures K.TableOk(t) ==> K.TableOk(t.(bytes := bytes))
    ensures NumbersApart(t) ==> NumbersApart(t.(bytes := bytes))
  {
    hide K.CountsOk;
  }

  /** What the table answers carries the request's region, and stays the answer. */
  lemma AnswerIs(cfg: Config, t: K.Table, q: Request, parent: string, bytes: nat)
    requires K.TableOk(t) && WellFormed(q) && t.bytes <= bytes
    ensures var (u, k) := K.Get(cfg, t, q, parent);
            Answered(cfg, u.(bytes := bytes), q, KeyFor(k)) && k.region == q.region
  {
    hide K.CountsOk, K.Charge;
    var (u, k) := K.Get(cfg, t, q, parent);
    K.GetSettles(cfg, t, q, parent);
    GetBytes(cfg, t, q, parent);
    BytesLater(cfg, u, bytes);
    assert K.Settled(cfg, u.(bytes := bytes), q, k);
  }

  lemma FramesPushed(cfg: Config, t: K.Table, a: seq<Frame>, b: seq<Frame>, asked: seq<Request>, q: Request)
    requires FramesAnswered(cfg, t, a, asked) && Cut(b, a) && |b| == |a| + 1
    requires var key := b[|a|].key; Answered(cfg, t, q, key) && |key.region| < RNAME_MAX && Plain(key.region)
    ensures FramesAnswered(cfg, t, b, asked + [q])
  {
    hide Answered, Plain;
  }

  lemma PushOk(cfg: Config, w: Whole, c: Call)
    requires WholeOk(cfg, w) && CallEnabled(cfg, w.s, c) && Pushes(w.s, c)
    requires w.s.counterBytes <= StepWhole(cfg, w, c).s.counterBytes
    ensures WholeOk(cfg, StepWhole(cfg, w, c))
  {
    hide K.Get, FramesAnswered, Later, K.TableOk, NumbersApart, RequestOf, Answered, Begin, Plain, WellFormed;
    var stack := w.s.threads[c.t].stack;
    var q, v := RequestOf(stack, c.region, c.names, c.vals), StepWhole(cfg, w, c);
    RequestIsWell(cfg, w, c);
    RegionIsPlain(q);
    TableMoves(cfg, w, c);
    AnswerIs(cfg, w.table, q, ParentOf(stack), v.s.counterBytes);
    var k := K.Get(cfg, w.table, q, ParentOf(stack)).1;
    BeginPushes(cfg, w.s, c.t, KeyFor(k));
    forall i | 0 <= i < |v.asked| ensures FramesAnswered(cfg, v.table, v.s.threads[i].stack, v.asked[i]) {
      FramesLater(cfg, w.table, v.table, w.s.threads[i].stack, w.asked[i]);
      if i == c.t {
        FramesPushed(cfg, v.table, stack, v.s.threads[i].stack, w.asked[i], q);
      }
    }
  }

  lemma RegionIsPlain(q: Request)
    requires WellFormed(q)
    ensures |q.region| < RNAME_MAX && Plain(q.region) && |q.names| == |q.vals|
  {
  }

  lemma OtherOk(cfg: Config, w: Whole, c: Call)
    requires WholeOk(cfg, w) && CallEnabled(cfg, w.s, c) && !Pushes(w.s, c)
    requires w.s.counterBytes <= StepWhole(cfg, w, c).s.counterBytes
    ensures WholeOk(cfg, StepWhole(cfg, w, c))
  {
    hide K.Get, Later, K.TableOk, NumbersApart, RequestOf, Answered, Step, Plain, WellFormed, Cut;
    var v := StepWhole(cfg, w, c);
    TableMoves(cfg, w, c);
    var e := Resolve(cfg, w.s, w.table, c).1;
    EventCuts(cfg, w.s, e);
    forall i | 0 <= i < |v.asked| ensures FramesAnswered(cfg, v.table, v.s.threads[i].stack, v.asked[i]) {
      if i < |w.asked| {
        FramesLater(cfg, w.table, v.table, w.s.threads[i].stack, w.asked[i]);
        CutShorter(w.s.threads[i].stack, v.s.threads[i].stack);
        FramesCut(cfg, v.table, w.s.threads[i].stack, v.s.threads[i].stack, w.asked[i]);
      }
    }
  }

  lemma CutShorter(a: seq<Frame>, b: seq<Frame>)
    requires Cut(a, b)
    ensures |b| <= |a|
  {
  }

  /** In every reachable state each open frame has the key its request has, and always will have. */
  lemma {:induction false} CallsKeep(cfg: Config, r: Calls)
    requires Proper(cfg, r)
    ensures WholeOk(cfg, Reached(cfg, r))
  {
    hide WholeOk, StepWhole;
    match r
    case Nothing => StartOk(cfg);
    case After(p, c) =>
      CallsKeep(cfg, p);
      var w := Reached(cfg, p);
      StepBytes(cfg, w, p, c);
      if Pushes(w.s, c) {
        PushOk(cfg, w, c);
      } else {
        OtherOk(cfg, w, c);
      }
  }

  // ---------------------------------------------------------------- the counters of a group

  /** The innermost key of the machine is that of the innermost request. */
  lemma InnermostIs(cfg: Config, w: Whole, t: nat)
    requires WholeOk(cfg, w) && t < |w.s.threads|
    ensures match InnermostRequest(w, t)
            case None => Innermost(w.s, t) == None
            case Some(q) => Innermost(w.s, t).Some? && Answered(cfg, w.table, q, Innermost(w.s, t).value)
  {
    hide Answered, K.TableOk, NumbersApart, Plain;
    assert FramesAnswered(cfg, w.table, w.s.threads[t].stack, w.asked[t]);
    if w.s.leader.Some? && w.s.leader.value < |w.asked| {
      var l := w.s.leader.value;
      assert FramesAnswered(cfg, w.table, w.s.threads[l].stack, w.asked[l]);
    }
  }

  /** A frame counts under a group's key exactly if its request belongs to the group. */
  lemma KeyTells(cfg: Config, t: K.Table, g: Group, q: Request, key: Key)
    requires K.TableOk(t) && NumbersApart(t) && HasKey(t, g) && Answered(cfg, t, q, key)
    ensures key == KeyFor(KeyOfGroup(t, g)) <==> Belongs(t, g, q)
  {
    hide K.CountsOk, WellFormed, K.Full, K.Describes;
    var k :| K.Settled(cfg, t, q, k) && key == KeyFor(k);
  }

  lemma CountsMatch(cfg: Config, w: Whole, table: K.Table, g: Group, t: nat)
    requires WholeOk(cfg, w) && t < |w.s.threads| && Later(cfg, w.table, table)
    requires K.TableOk(table) && NumbersApart(table) && HasKey(table, g)
    ensures Counts(table, g, w, t) <==> Innermost(w.s, t) == Some(KeyFor(KeyOfGroup(table, g)))
  {
    hide WholeOk, Later, K.TableOk, NumbersApart, Answered, Innermost, InnermostRequest, Belongs;
    InnermostIs(cfg, w, t);
    match InnermostRequest(w, t)
    case None =>
    case Some(q) =>
      AnsweredLater(cfg, w.table, table, q, Innermost(w.s, t).value);
      KeyTells(cfg, table, g, q, Innermost(w.s, t).value);
  }

  /** Counted by request, and counted by key: the same. */
  lemma {:induction false} GroupsMatch(cfg: Config, r: Calls, table: K.Table, g: Group, t: nat, slot: nat)
    requires Proper(cfg, r) && Later(cfg, Reached(cfg, r).table, table)
    requires K.TableOk(table) && NumbersApart(table) && HasKey(table, g)
    ensures var k := KeyFor(KeyOfGroup(table, g));
            && GroupCount(cfg, r, table, g, t, slot) == BlockCount(cfg, RunOf(cfg, r), t, k, slot)
            && GroupWork(cfg, r, table, g, t) ==
               OwnWork(cfg, RunOf(cfg, r), t, k) + FollowWork(cfg, RunOf(cfg, r), t, k)
  {
    hide Later, K.TableOk, NumbersApart, StepWhole, WholeOk, Counts, KeyOfGroup, HasKey, Innermost, K.Get;
    match r
    case Nothing =>
    case After(p, c) =>
      var w := Reached(cfg, p);
      CallsKeep(cfg, p);
      StepBytes(cfg, w, p, c);
      TableMoves(cfg, w, c);
      LaterTrans(cfg, w.table, Reached(cfg, r).table, table);
      GroupsMatch(cfg, p, table, g, t, slot);
      if c.Other? && c.event.Exec? && c.event.t == t {
        CountsMatch(cfg, w, table, g, t);
        InnermostSplits(w.s, t, KeyFor(KeyOfGroup(table, g)));
      }
  }

  lemma InnermostSplits(s: State, t: nat, k: Key)
    requires t < |s.threads|
    ensures Innermost(s, t) == Some(k) <==>
            (TopKey(s.threads[t].stack) == Some(k) || (s.threads[t].stack == [] && LeaderKey(s) == Some(k)))
  {
  }

  /**
   Over every run of calls, the counters of a request's key for a thread hold, block by block, what
   the thread ran while that request was innermost, on its own stack or on the leader's; the counters
   of a region's bucket, what it ran for the requests of the region that have no key of their own.
   */
  lemma ArraysByRequest(cfg: Config, r: Calls, g: Group, t: nat, slot: nat)
    requires Proper(cfg, r) && |Reached(cfg, r).s.threads| <= MAX_THREADS && slot < cfg.maxSlots
    requires HasKey(Reached(cfg, r).table, g)
    ensures var w := Reached(cfg, r);
            Holds(cfg, w.s, t, KeyFor(KeyOfGroup(w.table, g)), slot,
                  GroupCount(cfg, r, w.table, g, t, slot), GroupWork(cfg, r, w.table, g, t))
  {
    hide Later, K.TableOk, NumbersApart, Reached, Holds, KeyOfGroup, HasKey, FramesAnswered;
    var w := Reached(cfg, r);
    CallsKeep(cfg, r);
    LaterSelf(cfg, w.table);
    GroupsMatch(cfg, r, w.table, g, t, slot);
    ArraysAreExact(cfg, RunOf(cfg, r), t, KeyFor(KeyOfGroup(w.table, g)), slot);
  }

  /** Every open frame's request has a group with a key, and it is the only one. */
  lemma EveryFrameHasItsGroup(cfg: Config, r: Calls, t: nat, j: nat) returns (g: Group)
    requires Proper(cfg, r)
    requires t < |Reached(cfg, r).asked| && j < |Reached(cfg, r).asked[t]|
    ensures var w := Reached(cfg, r);
            && HasKey(w.table, g) && Belongs(w.table, g, w.asked[t][j])
            && forall h :: HasKey(w.table, h) && Belongs(w.table, h, w.asked[t][j]) ==> h == g
  {
    hide K.TableOk, NumbersApart, Reached;
    var w := Reached(cfg, r);
    CallsKeep(cfg, r);
    var q := w.asked[t][j];
    assert FramesAnswered(cfg, w.table, w.s.threads[t].stack, w.asked[t]);
    assert Answered(cfg, w.table, q, w.s.threads[t].stack[j].key);
    g := if q in w.table.keys then Own(q) else Shared(q.region);
  }
}
