/**
 The two-thread queue of the case suite: a producer that pushes bursts, a consumer that drains
 them, and the mutex and condition variables between them, as an interleaving of atomic steps.
 */
module Handshake {
  import opened Options

  const RING := 0x1_0000

  /** Where the producer is. `b` counts the produces of the burst, `i` the items of one. */
  datatype Producer =
    | Top
    | Burst(size: nat, b: nat)
    | Lock(size: nat, b: nat)
    | Push(size: nat, b: nat, i: nat)
    | NotifyLock
    | Notify
    | WaitTest
    | Waiting
    | Relock
    | DoneLock
    | Done
    | Exited

  /** Where the consumer is. */
  datatype Consumer =
    | Start
    | ReadyTest
    | Asleep
    | Wake
    | SizeLock
    | Size
    | Pop(q: nat, i: nat)
    | DrainedLock
    | Drained
    | Finished

  datatype Who = P | C

  /** One `consume`: its declared q, and the sums over the produces and consumes begun before it. */
  datatype Call = Call(q: int, produced: int, consumed: int)

  /**
   Shared variables, both threads, and the record of the run: `items` in push order, `sunk` in pop
   order, `m` the sum over ended produces, `c` over begun consumes.
   */
  datatype State = State(rounds: int, k: nat, ring: seq<int>, head: nat, tail: nat,
                         ready: bool, drained: bool, done: bool, mu: Option<Who>,
                         p: Producer, c: Consumer,
                         items: seq<int>, sunk: seq<int>, sumM: nat, sumQ: nat, calls: seq<Call>)

  function Amount(k: nat): (m: nat)
    ensures 5 <= m <= 65
  {
    5 + 20 * (k % 4)
  }

  function Start0(rounds: int): State {
    State(rounds, 0, seq(RING, _ => 0), 0, 0, false, false, false, None, Top, Start, [], [], 0, 0, [])
  }

  // ---------------------------------------------------------------- the steps

  /** The producer's next step, if it can take one. */
  function PStep(s: State): Option<State>
    requires |s.ring| == RING
  {
    match s.p
    case Top =>
      if s.k < s.rounds then Some(s.(p := Burst(1 + s.k % 3, 0))) else Some(s.(p := DoneLock))
    case Burst(size, b) =>
      if b < size && s.k < s.rounds then Some(s.(p := Lock(size, b))) else Some(s.(p := NotifyLock))
    case Lock(size, b) =>
      if s.mu == None then Some(s.(mu := Some(P), p := Push(size, b, 0))) else None
    case Push(size, b, i) =>
      if i < Amount(s.k)
       then Some(s.(ring := s.ring[s.tail % RING := i], tail := s.tail + 1,
                    items := s.items + [i], p := Push(size, b, i + 1)))
      else Some(s.(mu := None, k := s.k + 1, sumM := s.sumM + Amount(s.k), p := Burst(size, b + 1)))
    case NotifyLock =>
      if s.mu == None then Some(s.(mu := Some(P), p := Notify)) else None
    case Notify =>
      Some(s.(ready := true, c := Woken(s.c), p := WaitTest))
    case WaitTest =>
      if s.drained then Some(s.(drained := false, mu := None, p := Top)) else Some(s.(mu := None, p := Waiting))
    case Waiting => None
    case Relock =>
      if s.mu == None then Some(s.(mu := Some(P), p := WaitTest)) else None
    case DoneLock =>
      if s.mu == None then Some(s.(mu := Some(P), p := Done)) else None
    case Done =>
      Some(s.(done := true, ready := true, c := Woken(s.c), mu := None, p := Exited))
    case Exited => None
  }

  /** A signal wakes the consumer if it sleeps, and is lost otherwise. */
  function Woken(c: Consumer): Consumer { if c == Asleep then Wake else c }

  function WokenP(p: Producer): Producer { if p == Waiting then Relock else p }

  /** The consumer's next step, if it can take one. */
  function CStep(s: State): Option<State>
    requires |s.ring| == RING
  {
    match s.c
    case Start =>
      if s.mu == None then Some(s.(mu := Some(C), c := ReadyTest)) else None
    case ReadyTest =>
      if !s.ready then Some(s.(mu := None, c := Asleep))
      else if s.done && s.tail == s.head then Some(s.(ready := false, mu := None, c := Finished))
      else Some(s.(ready := false, mu := None, c := SizeLock))
    case Asleep => None
    case Wake =>
      if s.mu == None then Some(s.(mu := Some(C), c := ReadyTest)) else None
    case SizeLock =>
      if s.mu == None then Some(s.(mu := Some(C), c := Size)) else None
    case Size =>
      var q: int := s.tail - s.head;
      Some(s.(mu := None, calls := s.calls + [Call(q, s.sumM, s.sumQ)],
              sumQ := if q > 0 then s.sumQ + q else s.sumQ, c := Pop(if q > 0 then q else 0, 0)))
    case Pop(q, i) =>
      if i < q then Some(s.(sunk := s.sunk + [s.ring[s.head % RING]], head := s.head + 1, c := Pop(q, i + 1)))
      else Some(s.(c := DrainedLock))
    case DrainedLock =>
      if s.mu == None then Some(s.(mu := Some(C), c := Drained)) else None
    case Drained =>
      Some(s.(drained := true, p := WokenP(s.p), mu := None, c := Start))
    case Finished => None
  }

  /** What can happen next: a step of either thread, or a wait returning for no reason. */
  datatype Event = ProducerStep | ConsumerStep | SpuriousP | SpuriousC

  function Next(s: State, e: Event): Option<State>
    requires |s.ring| == RING
  {
    match e
    case ProducerStep => PStep(s)
    case ConsumerStep => CStep(s)
    case SpuriousP => if s.p == Waiting then Some(s.(p := Relock)) else None
    case SpuriousC => if s.c == Asleep then Some(s.(c := Wake)) else None
  }

  /** The state after a run, if every event of it could happen. */
  function Run(rounds: int, es: seq<Event>): (r: Option<State>)
    ensures r.Some? ==> |r.value.ring| == RING
  {
    if es == [] then Some(Start0(rounds)) else
      match Run(rounds, es[..|es| - 1])
      case None => None
      case Some(s) => Next(s, es[|es| - 1])
  }

  // ---------------------------------------------------------------- what every state satisfies

  /** All items of the first `k` produces. */
  function TotalTo(k: nat): nat {
    if k == 0 then 0 else TotalTo(k - 1) + Amount(k - 1)
  }

  predicate Running(p: Producer) {
    p.Top? || p.Burst? || p.Lock? || p.Push? || p.NotifyLock? || p.Notify? || p.DoneLock? || p.Done?
  }

  predicate Parked(p: Producer) { p.WaitTest? || p.Waiting? || p.Relock? }

  predicate Idle(c: Consumer) { c.Start? || c.ReadyTest? || c.Asleep? || c.Wake? }

  predicate Active(c: Consumer) { c.SizeLock? || c.Size? || c.Pop? || c.DrainedLock? || c.Drained? }

  /** Whose turn it is. */
  predicate Turns(s: State) {
    || (Running(s.p) && Idle(s.c) && !s.ready && !s.drained && !s.done)
    || (Parked(s.p) && Idle(s.c) && s.ready && !s.drained && !s.done)
    || (Parked(s.p) && Active(s.c) && !s.ready && !s.drained && !s.done)
    || (Parked(s.p) && Idle(s.c) && !s.ready && s.drained && !s.done && s.head == s.tail)
    || (s.p.Exited? && Idle(s.c) && s.ready && !s.drained && s.done && s.head == s.tail)
    || (s.p.Exited? && s.c.Finished? && !s.ready && !s.drained && s.done && s.head == s.tail)
  }

  predicate PHolds(p: Producer) { p.Push? || p.Notify? || p.WaitTest? || p.Done? }

  predicate CHolds(c: Consumer) { c.ReadyTest? || c.Size? || c.Drained? }

  /** The mutex is held exactly by the thread inside a critical section. */
  predicate Locks(s: State) {
    (s.mu == Some(P) <==> PHolds(s.p)) && (s.mu == Some(C) <==> CHolds(s.c))
  }

  /** Neither thread sleeps through what it waits for. */
  predicate Awake(s: State) {
    (s.p.Waiting? ==> !s.drained) && (s.c.Asleep? ==> !s.ready)
  }

  /** How much of the burst is in the queue. */
  predicate Queued(s: State) {
    && s.head <= s.tail
    && s.tail == s.sumM + (if s.p.Push? then s.p.i else 0)
    && s.head + (if s.c.Pop? then s.c.q - s.c.i else 0) == s.sumQ
    && (s.c.Pop? ==> s.c.i <= s.c.q && s.sumQ == s.tail)
    && (s.c.DrainedLock? || s.c.Drained? ==> s.head == s.tail)
  }

  /** A burst starts on an empty queue and stays below three full produces. */
  predicate Bursts(s: State) {
    && (s.p.Top? || s.p.DoneLock? || s.p.Done? ==> s.head == s.tail)
    && (s.p.Burst? || s.p.Lock? || s.p.Push? ==> 1 <= s.p.size <= 3 && s.p.b <= s.p.size)
    && (s.p.Burst? || s.p.Lock? ==> s.tail - s.head <= 65 * s.p.b)
    && (s.p.Lock? || s.p.Push? ==> s.p.b < s.p.size && s.k < s.rounds)
    && (s.p.Push? ==> s.p.i <= Amount(s.k) && s.tail - s.head <= 65 * s.p.b + s.p.i)
    && s.tail - s.head <= 195
    && (s.p.Burst? && s.p.b == 0 ==> s.k < s.rounds)
  }

  predicate Totals(s: State) {
    && s.sumM == TotalTo(s.k)
    && (s.k > 0 ==> s.k <= s.rounds)
    && (s.p.DoneLock? || s.p.Done? || s.p.Exited? ==> s.k >= s.rounds)
  }

  /** The ring holds the items not yet popped, and what was popped is what was pushed, in order. */
  predicate Stored(ring: seq<int>, head: nat, tail: nat, items: seq<int>, sunk: seq<int>) {
    && |ring| == RING && |items| == tail && |sunk| == head <= tail
    && sunk == items[..head]
    && forall j :: head <= j < tail ==> ring[j % RING] == items[j]
  }

  /** Every `consume` declared what had been produced and not been consumed. */
  predicate Recorded(calls: seq<Call>) {
    forall i :: 0 <= i < |calls| ==> calls[i].q == calls[i].produced - calls[i].consumed
  }

  predicate Inv(s: State) {
    && |s.ring| == RING && Turns(s) && Locks(s) && Awake(s) && Queued(s) && Bursts(s) && Totals(s)
    && Stored(s.ring, s.head, s.tail, s.items, s.sunk) && Recorded(s.calls)
  }

  lemma Starts(rounds: int)
    ensures Inv(Start0(rounds))
  {
  }

  /** The producer keeps turns, locks and wake-ups. */
  lemma ProducerKeepsControl(s: State)
    requires Inv(s) && PStep(s).Some?
    ensures var t := PStep(s).value; Turns(t) && Locks(t) && Awake(t)
  {
    hide Stored, Recorded, TotalTo, Amount;
  }

  lemma ProducerKeepsCounts(s: State)
    requires Inv(s) && PStep(s).Some?
    ensures var t := PStep(s).value; Queued(t) && Bursts(t)
  {
    hide Stored, Recorded, TotalTo, Amount, Locks, Awake, Bursts;
    PushFits(s);
    ProducerKeepsBursts(s);
  }

  lemma PushFits(s: State)
    requires Bursts(s)
    ensures s.p.Push? ==> s.p.i <= Amount(s.k) && s.k < s.rounds
  {
    hide Amount;
  }

  lemma ProducerKeepsBursts(s: State)
    requires Inv(s) && PStep(s).Some?
    ensures Bursts(PStep(s).value)
  {
    hide Stored, Recorded, TotalTo, Amount, Locks, Awake, Queued, Totals;
  }

  lemma ProducerKeepsTotals(s: State)
    requires Inv(s) && PStep(s).Some?
    ensures var t := PStep(s).value; Totals(t)
  {
    hide Stored, Recorded, Locks, Awake, Turns, Queued, Amount, TotalTo, Bursts;
    PushFits(s);
    TotalGrows(s.k);
  }

  lemma TotalGrows(k: nat)
    ensures TotalTo(k + 1) == TotalTo(k) + Amount(k)
  {
  }

  lemma RingSlots(j: nat, tail: nat)
    requires j < tail < j + RING
    ensures j % RING != tail % RING
  {
  }

  /** Pushing never overwrites an item that has not been popped. */
  lemma PushStores(ring: seq<int>, head: nat, tail: nat, items: seq<int>, sunk: seq<int>, i: int)
    requires Stored(ring, head, tail, items, sunk) && tail - head < RING
    ensures Stored(ring[tail % RING := i], head, tail + 1, items + [i], sunk)
  {
    var ring' := ring[tail % RING := i];
    forall j | head <= j < tail + 1 ensures ring'[j % RING] == (items + [i])[j] {
      if j < tail {
        RingSlots(j, tail);
      }
    }
    assert (items + [i])[..head] == items[..head];
  }

  lemma PopStores(ring: seq<int>, head: nat, tail: nat, items: seq<int>, sunk: seq<int>)
    requires Stored(ring, head, tail, items, sunk) && head < tail
    ensures Stored(ring, head + 1, tail, items, sunk + [ring[head % RING]])
  {
    assert items[..head + 1] == items[..head] + [items[head]];
  }

  lemma ProducerKeepsContents(s: State)
    requires Inv(s) && PStep(s).Some?
    ensures var t := PStep(s).value; Stored(t.ring, t.head, t.tail, t.items, t.sunk) && Recorded(t.calls)
  {
    hide Turns, Locks, Awake, Totals, TotalTo, Stored, Recorded, Amount, Queued;
    if s.p.Push? {
      StoredSize(s);
      PushStores(s.ring, s.head, s.tail, s.items, s.sunk, s.p.i);
    }
  }

  lemma StoredSize(s: State)
    requires Stored(s.ring, s.head, s.tail, s.items, s.sunk)
    ensures |s.ring| == RING
  {
  }

  lemma ConsumerKeepsControl(s: State)
    requires Inv(s) && CStep(s).Some?
    ensures var t := CStep(s).value; Turns(t) && Locks(t) && Awake(t)
  {
    hide Stored, Recorded, TotalTo, Amount, Bursts, Totals;
  }

  lemma ConsumerKeepsCounts(s: State)
    requires Inv(s) && CStep(s).Some?
    ensures var t := CStep(s).value; Queued(t) && Bursts(t) && Totals(t)
  {
    hide Stored, Recorded, TotalTo, Amount, Locks, Awake;
  }

  lemma ConsumerKeepsContents(s: State)
    requires Inv(s) && CStep(s).Some?
    ensures var t := CStep(s).value; Stored(t.ring, t.head, t.tail, t.items, t.sunk) && Recorded(t.calls)
  {
    hide Locks, Awake, Totals, TotalTo, Stored, Amount, Bursts;
    if s.c.Pop? && s.c.i < s.c.q {
      PopStores(s.ring, s.head, s.tail, s.items, s.sunk);
    }
  }

  /** Every step keeps the invariant. */
  lemma NextKeeps(s: State, e: Event)
    requires Inv(s) && Next(s, e).Some?
    ensures Inv(Next(s, e).value)
  {
    hide Turns, Locks, Awake, Totals, TotalTo, Stored, Recorded, Amount, Queued, Bursts, PStep, CStep;
    match e
    case ProducerStep =>
      ProducerKeepsControl(s);
      ProducerKeepsCounts(s);
      ProducerKeepsTotals(s);
      ProducerKeepsContents(s);
      StoredSize(PStep(s).value);
    case ConsumerStep =>
      ConsumerKeepsControl(s);
      ConsumerKeepsCounts(s);
      ConsumerKeepsContents(s);
      StoredSize(CStep(s).value);
    case SpuriousP => SpuriousKeeps(s, e);
    case SpuriousC => SpuriousKeeps(s, e);
  }

  lemma SpuriousKeeps(s: State, e: Event)
    requires Inv(s) && Next(s, e).Some? && (e.SpuriousP? || e.SpuriousC?)
    ensures Inv(Next(s, e).value)
  {
    hide TotalTo, Stored, Recorded, Amount;
  }

  /** Every interleaving, of any length, keeps the invariant. */
  lemma {:induction false} RunKeeps(rounds: int, es: seq<Event>)
    requires Run(rounds, es).Some?
    ensures Inv(Run(rounds, es).value)
  {
    hide Inv, Next, Start0;
    if es == [] {
      Starts(rounds);
    } else {
      RunKeeps(rounds, es[..|es| - 1]);
      NextKeeps(Run(rounds, es[..|es| - 1]).value, es[|es| - 1]);
    }
  }

  // ---------------------------------------------------------------- the claims

  /** The two threads are never at the ring together, although the consumer pops without the lock. */
  lemma RingIsExclusive(rounds: int, es: seq<Event>)
    requires Run(rounds, es).Some?
    ensures var s := Run(rounds, es).value; !(s.p.Push? && s.c.Pop?)
  {
    RunKeeps(rounds, es);
  }

  /** No produce is open while the consumer drains, and the queue invariant holds at every consume of the run. */
  lemma QueueInvariant(rounds: int, es: seq<Event>)
    requires Run(rounds, es).Some?
    ensures var s := Run(rounds, es).value;
            && (forall i :: 0 <= i < |s.calls| ==> s.calls[i].q == s.calls[i].produced - s.calls[i].consumed)
            && (Active(s.c) ==> !s.p.Lock? && !s.p.Push?)
  {
    hide Stored, Queued, Bursts, Totals, Awake;
    RunKeeps(rounds, es);
  }

  /** What is popped is what was pushed, in the order it was pushed: nothing is overwritten. */
  lemma PopsArePushes(rounds: int, es: seq<Event>)
    requires Run(rounds, es).Some?
    ensures var s := Run(rounds, es).value; s.head <= |s.items| && s.sunk == s.items[..s.head] && s.tail - s.head <= 195
  {
    hide Turns, Queued, Totals, Awake, Locks;
    RunKeeps(rounds, es);
  }

  /** Unless both threads are through, one of them can step: no wait is for ever, no wake-up is lost. */
  lemma NoDeadlock(rounds: int, es: seq<Event>)
    requires Run(rounds, es).Some?
    ensures var s := Run(rounds, es).value;
            (PStep(s) == None && CStep(s) == None) <==> (s.p.Exited? && s.c.Finished?)
  {
    hide Inv, PStep, CStep, Run;
    RunKeeps(rounds, es);
    SomeoneSteps(Run(rounds, es).value);
  }

  /** A producer without a step waits for the mutex, for the consumer, or is through. */
  lemma ProducerStuck(s: State)
    requires |s.ring| == RING
    ensures PStep(s) == None <==>
            || s.p.Waiting? || s.p.Exited?
            || (s.mu != None && (s.p.Lock? || s.p.NotifyLock? || s.p.Relock? || s.p.DoneLock?))
  {
    hide Amount;
  }

  lemma ConsumerStuck(s: State)
    requires |s.ring| == RING
    ensures CStep(s) == None <==>
            || s.c.Asleep? || s.c.Finished?
            || (s.mu != None && (s.c.Start? || s.c.Wake? || s.c.SizeLock? || s.c.DrainedLock?))
  {
  }

  lemma SomeoneSteps(s: State)
    requires Inv(s)
    ensures (PStep(s) == None && CStep(s) == None) <==> (s.p.Exited? && s.c.Finished?)
  {
    hide Stored, Queued, Bursts, Totals, Recorded, PStep, CStep;
    ProducerStuck(s);
    ConsumerStuck(s);
    match s.mu
    case None =>
    case Some(w) =>
      match w
      case P => assert PHolds(s.p);
      case C => assert CHolds(s.c);
  }

  /** The items of `k` rounds: 5, 25, 45, 65, and over again. */
  function ItemsOf(k: nat): nat {
    140 * (k / 4) + if k % 4 == 0 then 0 else if k % 4 == 1 then 5 else if k % 4 == 2 then 30 else 75
  }

  lemma {:induction false} TotalIs(k: nat)
    ensures TotalTo(k) == ItemsOf(k)
  {
    if k > 0 {
      TotalIs(k - 1);
      if k % 4 == 0 {
        assert k / 4 == (k - 1) / 4 + 1;
      } else {
        assert k / 4 == (k - 1) / 4;
      }
    }
  }

  /** When both are through, every item of every round has been consumed. */
  lemma AllConsumed(rounds: int, es: seq<Event>)
    requires Run(rounds, es).Some?
    ensures var s := Run(rounds, es).value;
            s.p.Exited? && s.c.Finished? ==>
              && s.k == (if rounds > 0 then rounds else 0) && s.sunk == s.items
              && |s.sunk| == ItemsOf(s.k)
  {
    hide Run, Recorded, Awake, Locks, TotalTo;
    TotalIs(Run(rounds, es).value.k);
    RunKeeps(rounds, es);
    RoundsAreFixed(rounds, es);
  }

  lemma StepKeepsRounds(s: State, e: Event)
    requires |s.ring| == RING && Next(s, e).Some?
    ensures Next(s, e).value.rounds == s.rounds
  {
    hide Amount;
  }

  lemma {:induction false} RoundsAreFixed(rounds: int, es: seq<Event>)
    requires Run(rounds, es).Some?
    ensures Run(rounds, es).value.rounds == rounds
  {
    hide Next;
    if es != [] {
      RoundsAreFixed(rounds, es[..|es| - 1]);
      StepKeepsRounds(Run(rounds, es[..|es| - 1]).value, es[|es| - 1]);
    }
  }

  // ---------------------------------------------------------------- every run ends

  /** Steps an idle consumer can take before it sleeps or has work. */
  function IdleLeft(c: Consumer): nat {
    match c
    case ReadyTest => 1
    case Start => 2
    case Wake => 2
    case _ => 0
  }

  /** Stages of a consumer at work; its pops are counted by what is in the ring. */
  function ActiveLeft(c: Consumer): nat {
    match c
    case SizeLock => 5
    case Size => 4
    case Pop(_, _) => 3
    case DrainedLock => 2
    case Drained => 1
    case _ => 0
  }

  /** Steps a parked producer can take before it waits. */
  function ParkedLeft(p: Producer): nat {
    match p
    case WaitTest => 1
    case Relock => 2
    case _ => 0
  }

  /** Stages of a running producer, up to the next hand-over; pushes are counted by items. */
  function RunningLeft(p: Producer): nat {
    match p
    case Top => 5
    case Burst(_, b) => if b == 0 then 4 else 20
    case Lock(_, b) => if b == 0 then 3 else 19
    case Push(_, b, _) => if b == 0 then 2 else 18
    case NotifyLock => 19
    case Notify => 18
    case DoneLock => 4
    case Done => 3
    case _ => 0
  }

  /** What is left of the present exchange. */
  function Stage(s: State): nat {
    if Parked(s.p) then
      if Active(s.c) then 9 + ActiveLeft(s.c) + ParkedLeft(s.p)
      else (if s.ready then 14 else 5) + IdleLeft(s.c) + ParkedLeft(s.p)
    else RunningLeft(s.p) + IdleLeft(s.c)
  }

  function Rounds(rounds: int): nat { if rounds > 0 then rounds else 0 }

  /** Items of the produce under way that are in the ring already. */
  function Pushed(p: Producer): nat { if p.Push? then p.i else 0 }

  /** Rounds and items to come, and items in the ring. */
  function Work(rounds: int, k: nat, pushed: nat, queued: int): int {
    19 * (Rounds(rounds) - k) + 2 * (TotalTo(Rounds(rounds)) - TotalTo(k) - pushed) + queued
  }

  /** Goes down with every step. */
  function Left(s: State): int {
    Work(s.rounds, s.k, Pushed(s.p), s.tail - s.head) + Stage(s)
  }

  lemma {:induction false} TotalOrdered(k: nat, n: nat)
    requires k <= n
    ensures TotalTo(k) <= TotalTo(n)
  {
    hide Amount;
    if k < n {
      TotalOrdered(k, n - 1);
    }
  }

  lemma LeftNatural(s: State)
    requires Inv(s)
    ensures Left(s) >= 0
  {
    hide Stored, Recorded, Locks, Awake, Turns, TotalTo, Amount, Stage;
    TotalOrdered(s.k, Rounds(s.rounds));
    if s.p.Push? {
      TotalGrows(s.k);
      TotalOrdered(s.k + 1, Rounds(s.rounds));
    }
  }

  lemma PushGetsOn(s: State)
    requires Inv(s) && s.p.Push?
    ensures PStep(s).Some? && Left(PStep(s).value) < Left(s)
  {
    hide Stored, Recorded, Locks, Awake, TotalTo, Amount, Queued, Turns;
    TotalGrows(s.k);
  }

  lemma ProducerStage(s: State)
    requires |s.ring| == RING && Turns(s) && Bursts(s) && PStep(s).Some? && !s.p.Push?
    ensures Stage(PStep(s).value) < Stage(s)
  {
    hide Amount;
  }

  lemma ProducerLeaves(s: State)
    requires |s.ring| == RING && PStep(s).Some? && !s.p.Push?
    ensures var t := PStep(s).value;
            t.rounds == s.rounds && t.k == s.k && Pushed(t.p) == Pushed(s.p) && t.head == s.head && t.tail == s.tail
  {
    hide Amount;
  }

  lemma ProducerGetsOn(s: State)
    requires Inv(s) && PStep(s).Some?
    ensures Left(PStep(s).value) < Left(s)
  {
    hide Turns, Bursts, PStep, Work, Stage, Stored, Queued;
    if s.p.Push? {
      PushGetsOn(s);
    } else {
      ProducerStage(s);
      ProducerLeaves(s);
    }
  }

  predicate Popping(c: Consumer) { c.Pop? && c.i < c.q }

  lemma PopGetsOn(s: State)
    requires |s.ring| == RING && Popping(s.c)
    ensures CStep(s).Some? && Left(CStep(s).value) == Left(s) - 1
  {
    hide TotalTo, Amount;
  }

  lemma ConsumerStage(s: State)
    requires |s.ring| == RING && Turns(s) && CStep(s).Some? && !Popping(s.c)
    ensures Stage(CStep(s).value) < Stage(s)
  {
    hide Amount;
  }

  lemma ConsumerLeaves(s: State)
    requires |s.ring| == RING && CStep(s).Some? && !Popping(s.c)
    ensures var t := CStep(s).value;
            t.rounds == s.rounds && t.k == s.k && Pushed(t.p) == Pushed(s.p) && t.head == s.head && t.tail == s.tail
  {
  }

  lemma ConsumerGetsOn(s: State)
    requires Inv(s) && CStep(s).Some?
    ensures Left(CStep(s).value) < Left(s)
  {
    hide Turns, Bursts, CStep, Work, Stage, Stored, Queued;
    if Popping(s.c) {
      PopGetsOn(s);
    } else {
      ConsumerStage(s);
      ConsumerLeaves(s);
    }
  }

  lemma SpuriousCosts(s: State, e: Event)
    requires Inv(s) && Next(s, e).Some? && (e.SpuriousP? || e.SpuriousC?)
    ensures Left(Next(s, e).value) <= Left(s) + 2
  {
    hide Stored, Recorded, Locks, TotalTo, Amount, Bursts, Queued;
  }

  /** Waits of the run that returned for no reason. */
  function Spurious(es: seq<Event>): nat {
    if es == [] then 0 else
      var e := es[|es| - 1];
      Spurious(es[..|es| - 1]) + if e.SpuriousP? || e.SpuriousC? then 1 else 0
  }

  function Budget(rounds: int): nat {
    7 + 19 * Rounds(rounds) + 2 * TotalTo(Rounds(rounds))
  }

  lemma {:induction false} RunGetsOn(rounds: int, es: seq<Event>)
    requires Run(rounds, es).Some?
    ensures |es| + Left(Run(rounds, es).value) <= Budget(rounds) + 3 * Spurious(es)
  {
    hide Inv, Next, Left;
    if es == [] {
      StartLeft(rounds);
    } else {
      var before, e := es[..|es| - 1], es[|es| - 1];
      var s := Run(rounds, before).value;
      RunGetsOn(rounds, before);
      RunKeeps(rounds, before);
      NextGetsOn(s, e);
    }
  }

  lemma NextGetsOn(s: State, e: Event)
    requires Inv(s) && Next(s, e).Some?
    ensures Left(Next(s, e).value) <= Left(s) + if e.SpuriousP? || e.SpuriousC? then 2 else -1
  {
    hide Inv, Left, PStep, CStep;
    match e
    case ProducerStep => ProducerGetsOn(s);
    case ConsumerStep => ConsumerGetsOn(s);
    case SpuriousP => SpuriousCosts(s, e);
    case SpuriousC => SpuriousCosts(s, e);
  }

  lemma StartLeft(rounds: int)
    ensures Left(Start0(rounds)) == Budget(rounds)
  {
  }

  /**
   Every run is finite but for waits that return for no reason: with `n` of these it has at most a
   number of steps fixed by the rounds and 3 for each, and one that cannot go on is through.
   */
  lemma EveryRunEnds(rounds: int, es: seq<Event>)
    requires Run(rounds, es).Some?
    ensures |es| <= Budget(rounds) + 3 * Spurious(es)
    ensures var s := Run(rounds, es).value;
            PStep(s) == None && CStep(s) == None ==> s.sunk == s.items && |s.sunk| == ItemsOf(Rounds(rounds))
  {
    hide Inv, Left, PStep, CStep, Run;
    RunGetsOn(rounds, es);
    RunKeeps(rounds, es);
    LeftNatural(Run(rounds, es).value);
    NoDeadlock(rounds, es);
    AllConsumed(rounds, es);
  }
}
