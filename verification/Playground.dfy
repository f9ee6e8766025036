/**
 The log-processing example: rounds of ingesting into a queue and handling what is popped, with
 the popped lines divided among threads.
 */
module Playground {

  /** A worker's share of the popped range. */
  datatype Job = Job(first: nat, count: nat)

  /** What the markers declared, in order. */
  datatype Mark = Ingest(batch: nat) | Handle(q: nat, inflight: nat)

  /** Sum of the batches declared so far, and of the pops. */
  function Batches(marks: seq<Mark>): nat {
    if marks == [] then 0 else
      var n := |marks| - 1;
      Batches(marks[..n]) + if marks[n].Ingest? then marks[n].batch else 0
  }

  function Pops(marks: seq<Mark>): nat {
    if marks == [] then 0 else
      var n := |marks| - 1;
      Pops(marks[..n]) + if marks[n].Handle? then marks[n].q else 0
  }

  /** At every `handle`, the declared queue length is what was ingested and not popped before. */
  predicate QueueInvariant(marks: seq<Mark>) {
    forall i :: 0 <= i < |marks| && marks[i].Handle? ==>
      marks[i].inflight == Batches(marks[..i]) - Pops(marks[..i])
  }

  // ---------------------------------------------------------------- dividing the popped range

  /** Jobs that follow one another from `first` to `last`, none of them empty. */
  predicate Divides(jobs: seq<Job>, first: nat, last: nat) {
    if jobs == [] then first == last else
      var n := |jobs| - 1;
      jobs[n].count > 0 && jobs[n].first + jobs[n].count == last && Divides(jobs[..n], first, jobs[n].first)
  }

  /** Each popped line is in exactly one job. */
  lemma {:induction false} InOneJob(jobs: seq<Job>, first: nat, last: nat, x: nat)
    requires Divides(jobs, first, last)
    ensures first <= last
    ensures (exists i :: 0 <= i < |jobs| && InJob(jobs[i], x)) <==> first <= x < last
    ensures forall i, j :: 0 <= i < |jobs| && 0 <= j < |jobs| && InJob(jobs[i], x) && InJob(jobs[j], x) ==> i == j
  {
    if jobs != [] {
      var n := |jobs| - 1;
      InOneJob(jobs[..n], first, jobs[n].first, x);
      if exists i :: 0 <= i < |jobs[..n]| && InJob(jobs[..n][i], x) {
        var i :| 0 <= i < |jobs[..n]| && InJob(jobs[..n][i], x);
        assert InJob(jobs[i], x);
      }
      if InJob(jobs[n], x) {
        assert first <= x < last;
      }
      forall i | 0 <= i < n && InJob(jobs[i], x) ensures first <= x < jobs[n].first {
        assert InJob(jobs[..n][i], x);
      }
    }
  }

  predicate InJob(j: Job, x: nat) { j.first <= x < j.first + j.count }

  lemma DividesSnoc(jobs: seq<Job>, first: nat, last: nat, j: Job)
    requires Divides(jobs, first, last) && j.first == last && j.count > 0
    ensures Divides(jobs + [j], first, last + j.count)
  {
    assert (jobs + [j])[..|jobs|] == jobs;
  }

  /** Rounding up covers the range with at most `threads` jobs. */
  lemma CeilingCovers(q: nat, threads: nat)
    requires threads > 0
    ensures ((q + threads - 1) / threads) * threads >= q
    ensures q > 0 ==> (q + threads - 1) / threads > 0
  {
    var a := q + threads - 1;
    assert a == a / threads * threads + a % threads;
    if q > 0 {
      QuotientPositive(a, threads);
    }
  }

  lemma CeilingIsLeast(q: nat, threads: nat)
    requires threads > 0 && q > 0
    ensures threads * (((q + threads - 1) / threads) - 1) < q
  {
    var a := q + threads - 1;
    assert a == threads * (a / threads) + a % threads;
  }

  /** All jobs but the last have `per` lines, the fewest with which that many threads suffice. */
  predicate Shares(jobs: seq<Job>, q: nat, threads: nat, per: nat) {
    && threads * (per - 1) < q <= per * threads
    && (forall i :: 0 <= i < |jobs| ==> jobs[i].count <= per)
    && forall i :: 0 <= i < |jobs| - 1 ==> jobs[i].count == per
  }

  ghost predicate Even(jobs: seq<Job>, q: nat, threads: nat) {
    exists per :: Shares(jobs, q, threads, per)
  }

  lemma QuotientPositive(a: nat, b: nat)
    requires 0 < b <= a
    ensures a / b > 0
  {
  }

  /** The jobs of one `handle`: a contiguous division of the popped range among the threads, as even as can be. */
  method Jobs(qhead: nat, q: nat, threads: nat) returns (jobs: seq<Job>)
    requires q > 0 && 1 < threads <= 64
    ensures Divides(jobs, qhead, qhead + q) && 0 < |jobs| <= threads
    ensures Even(jobs, q, threads)
  {
    hide Filled, Divides, Taken;
    var per := (q + threads - 1) / threads;
    PerCovers(q, threads);
    NoneFilled(per);
    NoneDivided(qhead);
    NoneTaken(per);
    var first: nat := qhead;
    jobs := [];
    var t := 0;
    while t < threads && first < qhead + q
      invariant t <= threads && |jobs| == t && Divides(jobs, qhead, first) && qhead <= first <= qhead + q
      invariant first == qhead + q || first == qhead + Taken(t, per)
      invariant Filled(jobs, per, first < qhead + q) && (t == 0 ==> first == qhead)
    {
      NextStart(t, per);
      var count: nat := if first + per <= qhead + q then per else qhead + q - first;
      DividesSnoc(jobs, qhead, first, Job(first, count));
      FilledSnoc(jobs, per, Job(first, count), first + count < qhead + q);
      jobs := jobs + [Job(first, count)];
      first := first + count;
      t := t + 1;
    }
    FilledShares(jobs, q, threads, per);
  }

  function Taken(t: nat, per: nat): nat { t * per }

  lemma NoneTaken(per: nat)
    ensures Taken(0, per) == 0
  {
  }

  lemma PerCovers(q: nat, threads: nat)
    requires threads > 0 && q > 0
    ensures var per := (q + threads - 1) / threads; per > 0 && Taken(threads, per) >= q
  {
    CeilingCovers(q, threads);
  }

  lemma NextStart(t: nat, per: nat)
    ensures Taken(t + 1, per) == Taken(t, per) + per
  {
  }

  lemma FilledShares(jobs: seq<Job>, q: nat, threads: nat, per: nat)
    requires q > 0 && threads > 1 && per == (q + threads - 1) / threads && Filled(jobs, per, false)
    ensures Even(jobs, q, threads)
  {
    CeilingCovers(q, threads);
    CeilingIsLeast(q, threads);
    assert Shares(jobs, q, threads, per);
  }

  lemma NoneDivided(first: nat)
    ensures Divides([], first, first)
  {
  }

  /** Jobs of `per` lines, but the last may have fewer if there are no more to come. */
  predicate Filled(jobs: seq<Job>, per: nat, more: bool) {
    && (forall i :: 0 <= i < |jobs| ==> jobs[i].count <= per)
    && (forall i :: 0 <= i < |jobs| - 1 ==> jobs[i].count == per)
    && (more && jobs != [] ==> jobs[|jobs| - 1].count == per)
  }

  lemma NoneFilled(per: nat)
    ensures forall more :: Filled([], per, more)
  {
  }

  lemma FilledSnoc(jobs: seq<Job>, per: nat, j: Job, more: bool)
    requires Filled(jobs, per, true) && j.count <= per && (more ==> j.count == per)
    ensures Filled(jobs + [j], per, more)
  {
  }

  // ---------------------------------------------------------------- the system

  class System {
    const reqs: int
    const batch: nat
    const cap: nat
    const threads: int
    /** Slots of the line buffer. */
    const qcap: nat
    const queue: array<int>
    var qhead: nat
    var qtail: nat
    var produced: int
    var rounds: nat
    ghost var ingested: seq<int>
    ghost var handled: seq<int>
    ghost var marks: seq<Mark>

    /** Lines from head to tail are in their slots; what was handled is what was ingested before. */
    ghost predicate Valid()
      reads this, queue
    {
      && 0 < batch && 0 < cap && threads <= 64 && qcap == queue.Length && qcap >= reqs
      && qhead <= qtail == produced == |ingested| && (qtail > 0 ==> qtail <= reqs)
      && handled == ingested[..qhead]
      && (forall j :: qhead <= j < qtail ==> queue[j % qcap] == ingested[j])
      && Batches(marks) == qtail && Pops(marks) == qhead && QueueInvariant(marks)
    }

    constructor (reqs: int, batch: nat, cap: nat, threads: int)
      requires batch > 0 && cap > 0
      ensures Valid() && this.reqs == reqs && this.batch == batch && this.cap == cap
      ensures this.threads == (if threads < 64 then threads else 64)
      ensures qcap == (if reqs + 4 * batch >= 0 then reqs + 4 * batch else 0)
      ensures qhead == 0 && qtail == 0 && marks == [] && rounds == 0 && fresh(queue)
    {
      var slots := if reqs + 4 * batch > 0 then reqs + 4 * batch else 0;
      this.reqs, this.batch, this.cap, qcap := reqs, batch, cap, slots;
      this.threads := if threads > 64 then 64 else threads;
      queue := new int[slots];
      qhead, qtail, produced, rounds := 0, 0, 0, 0;
      ingested, handled, marks := [], [], [];
    }

    /** `b` lines are written to the slots after the tail. */
    method IngestLines(b: nat)
      requires Valid() && b > 0 && b <= reqs - produced
      modifies this`qtail, this`produced, this`ingested, this`marks, queue
      ensures Valid() && produced == old(produced) + b
      ensures marks == old(marks) + [Ingest(b)]
      ensures |ingested| == |old(ingested)| + b && ingested[..|old(ingested)|] == old(ingested)
    {
      MarkIngest(marks, b);
      var i := 0;
      ghost var tail := qtail;
      while i < b
        invariant i <= b && qtail == tail + i && |ingested| == qtail
        invariant ingested[..tail] == old(ingested)
        invariant forall j :: qhead <= j < qtail ==> queue[j % qcap] == ingested[j]
        modifies this`qtail, this`ingested, queue
      {
        var line: int := *;
        SlotIsIndex(qtail, qcap);
        WriteKeeps(queue[..], qhead, qtail, ingested, line);
        queue[qtail % qcap] := line;
        ingested := ingested + [line];
        qtail := qtail + 1;
        i := i + 1;
      }
      produced := produced + b;
      marks := marks + [Ingest(b)];
      assert handled == ingested[..qhead] by {
        assert ingested[..tail][..qhead] == ingested[..qhead];
      }
    }

    /** One job for one thread, otherwise the range divided. */
    method Share(q: nat) returns (jobs: seq<Job>)
      requires Valid() && q > 0
      ensures Divides(jobs, qhead, qhead + q)
      ensures if threads <= 1 then |jobs| == 1 else |jobs| <= threads && Even(jobs, q, threads)
    {
      if threads <= 1 {
        jobs := [Job(qhead, q)];
        assert jobs[..0] == [];
      } else {
        jobs := Jobs(qhead, q, threads);
      }
    }

    /** The workers' lines together, in job order. */
    method RunJobs(jobs: seq<Job>, ghost last: nat) returns (lines: seq<int>)
      requires Valid() && Divides(jobs, qhead, last) && qhead <= last <= qtail
      ensures lines == ingested[qhead..last]
    {
      hide Divides, QueueInvariant, Batches, Pops;
      lines := [];
      var t := 0;
      ghost var at: nat := qhead;
      DivisionStarts(jobs, qhead, last);
      while t < |jobs|
        invariant t <= |jobs| && qhead <= at <= last && Divides(jobs[..t], qhead, at)
        invariant lines == ingested[qhead..at]
      {
        JobIn(jobs, qhead, last, t, at);
        var more := Worker(jobs[t]);
        SliceGrows(ingested, qhead, at, jobs[t].count);
        lines := lines + more;
        DividesSnoc(jobs[..t], qhead, at, jobs[t]);
        assert jobs[..t + 1] == jobs[..t] + [jobs[t]];
        at := at + jobs[t].count;
        t := t + 1;
      }
      assert jobs[..t] == jobs;
      DivisionEnds(jobs, qhead, at, last);
    }

    /** The next `q` lines are handled. */
    method HandleLines(q: nat, inflight: nat)
      requires Valid() && 0 < q <= inflight == qtail - qhead
      modifies this`qhead, this`handled, this`marks
      ensures Valid() && qhead == old(qhead) + q
      ensures marks == old(marks) + [Handle(q, inflight)]
      ensures handled == old(handled) + ingested[old(qhead)..old(qhead) + q]
    {
      hide Divides, QueueInvariant, Batches, Pops;
      var jobs := Share(q);
      var lines := RunJobs(jobs, qhead + q);
      HandledGrows(ingested, qhead, q);
      MarkHandle(marks, q, inflight);
      marks := marks + [Handle(q, inflight)];
      handled := handled + lines;
      qhead := qhead + q;
    }

    /** One worker reads the lines of its job from their slots. */
    method Worker(j: Job) returns (lines: seq<int>)
      requires Valid() && qhead <= j.first && j.first + j.count <= qtail
      ensures lines == ingested[j.first..j.first + j.count]
    {
      lines := [];
      var i := 0;
      while i < j.count
        invariant i <= j.count && lines == ingested[j.first..j.first + i]
      {
        SlotIsIndex(j.first + i, qcap);
        var idx := (j.first + i) % qcap;
        lines := lines + [queue[idx]];
        i := i + 1;
      }
    }

    /** Rounds until all requests are ingested and handled, at the pace of the rounds. */
    method RunRounds()
      requires Valid() && qhead == 0 && qtail == 0 && rounds == 0 && marks == []
      modifies this, queue
      ensures Valid() && QueueInvariant(marks)
      ensures Paced(marks, reqs, batch, cap) && rounds == |Handles(marks)|
      ensures handled == ingested && |ingested| == if reqs > 0 then reqs else 0
    {
      hide QueueInvariant, Batches, Pops, Bursts, Handles, Burst, Room;
      NothingPaced(reqs, batch, cap);
      while produced < reqs || qtail > qhead
        invariant Valid()
        invariant Paced(marks, reqs, batch, cap) && rounds == |Handles(marks)|
        invariant produced < reqs ==> rounds == |Bursts(marks)| && AllFull(marks, batch)
        decreases if produced < reqs then reqs - produced else 0, qtail - qhead
      {
        if produced < reqs {
          var b: int := batch + (rounds % 3) * (batch / 2);
          BurstPositive(batch, rounds);
          if b > reqs - produced {
            b := reqs - produced;
          }
          PacedIngest(marks, reqs, batch, cap, b, produced);
          IngestLines(b);
        }
        var inflight := qtail - qhead;
        var room := cap - (rounds % 4) * (cap / 8);
        RoomPositive(cap, rounds);
        var q := if inflight > room then room else inflight;
        if q > 0 {
          PacedHandle(marks, reqs, batch, cap, q, inflight);
          HandleLines(q, inflight);
        }
        rounds := rounds + 1;
      }
    }
  }

  // ---------------------------------------------------------------- the pace of the rounds

  /** The sizes of the batches, in order. */
  function Bursts(marks: seq<Mark>): seq<nat> {
    if marks == [] then [] else
      var n := |marks| - 1;
      Bursts(marks[..n]) + if marks[n].Ingest? then [marks[n].batch] else []
  }

  /** The pops, each with what was in the queue. */
  function Handles(marks: seq<Mark>): seq<(nat, nat)> {
    if marks == [] then [] else
      var n := |marks| - 1;
      Handles(marks[..n]) + if marks[n].Handle? then [(marks[n].q, marks[n].inflight)] else []
  }

  /** What round `i` brings: bursts of up to two halves more. */
  function Burst(batch: nat, i: nat): nat {
    batch + (i % 3) * (batch / 2)
  }

  /** What it can take: up to three eighths less. */
  function Room(cap: nat, i: nat): int {
    cap - (i % 4) * (cap / 8)
  }

  predicate AllFull(marks: seq<Mark>, batch: nat) {
    forall i :: 0 <= i < |Bursts(marks)| ==> Bursts(marks)[i] == Burst(batch, i)
  }

  /** Every batch is its round's burst, but the last may be what was left of the requests; every pop is
      all there is, or what the round can take. */
  predicate Paced(marks: seq<Mark>, reqs: int, batch: nat, cap: nat) {
    var bs, hs := Bursts(marks), Handles(marks);
    && (forall i :: 0 <= i < |bs| ==> bs[i] <= Burst(batch, i))
    && (forall i :: 0 <= i < |bs| && (i < |bs| - 1 || Batches(marks) != reqs) ==> bs[i] == Burst(batch, i))
    && forall i :: 0 <= i < |hs| ==> hs[i].0 == if hs[i].1 <= Room(cap, i) then hs[i].1 else Room(cap, i)
  }

  lemma NothingPaced(reqs: int, batch: nat, cap: nat)
    ensures Paced([], reqs, batch, cap) && AllFull([], batch) && |Bursts([])| == 0 == |Handles([])|
  {
  }

  lemma PacedIngest(marks: seq<Mark>, reqs: int, batch: nat, cap: nat, b: nat, produced: nat)
    requires Paced(marks, reqs, batch, cap) && AllFull(marks, batch) && Batches(marks) == produced < reqs
    requires b == Burst(batch, |Bursts(marks)|) || (b < Burst(batch, |Bursts(marks)|) && b == reqs - produced)
    ensures var ms := marks + [Ingest(b)];
            && Paced(ms, reqs, batch, cap) && Handles(ms) == Handles(marks) && |Bursts(ms)| == |Bursts(marks)| + 1
            && (produced + b < reqs ==> AllFull(ms, batch))
  {
    hide Burst, Room;
    var ms := marks + [Ingest(b)];
    assert ms[..|marks|] == marks;
    assert Bursts(ms) == Bursts(marks) + [b];
  }

  lemma PacedHandle(marks: seq<Mark>, reqs: int, batch: nat, cap: nat, q: nat, inflight: nat)
    requires Paced(marks, reqs, batch, cap)
    requires q == if inflight <= Room(cap, |Handles(marks)|) then inflight else Room(cap, |Handles(marks)|)
    ensures var ms := marks + [Handle(q, inflight)];
            && Paced(ms, reqs, batch, cap) && Bursts(ms) == Bursts(marks) && |Handles(ms)| == |Handles(marks)| + 1
            && (AllFull(marks, batch) ==> AllFull(ms, batch))
  {
    hide Burst, Room;
    var ms := marks + [Handle(q, inflight)];
    assert ms[..|marks|] == marks;
    assert Handles(ms) == Handles(marks) + [(q, inflight)];
    assert Bursts(ms) == Bursts(marks);
  }

  lemma BurstPositive(batch: nat, rounds: nat)
    requires batch > 0
    ensures Burst(batch, rounds) == batch + (rounds % 3) * (batch / 2) >= batch
  {
  }

  lemma RoomPositive(cap: nat, rounds: nat)
    requires cap > 0
    ensures Room(cap, rounds) == cap - (rounds % 4) * (cap / 8) > 0
  {
    var r, c := rounds % 4, cap / 8;
    assert r * c <= 3 * c;
  }

  /** Every line has its own slot: the buffer is never wrapped around. */
  lemma SlotIsIndex(i: nat, qcap: nat)
    requires i < qcap
    ensures i % qcap == i
  {
  }

  lemma WriteKeeps(queue: seq<int>, qhead: nat, qtail: nat, ingested: seq<int>, line: int)
    requires qtail < |queue| && qtail == |ingested|
    requires forall j :: qhead <= j < qtail ==> queue[j % |queue|] == ingested[j]
    ensures forall j :: qhead <= j < qtail + 1 ==> queue[qtail % |queue| := line][j % |queue|] == (ingested + [line])[j]
  {
    forall j | qhead <= j < qtail + 1
      ensures queue[qtail % |queue| := line][j % |queue|] == (ingested + [line])[j]
    {
      SlotIsIndex(j, |queue|);
      SlotIsIndex(qtail, |queue|);
    }
  }

  lemma MarkIngest(marks: seq<Mark>, b: nat)
    requires QueueInvariant(marks)
    ensures QueueInvariant(marks + [Ingest(b)])
    ensures Batches(marks + [Ingest(b)]) == Batches(marks) + b && Pops(marks + [Ingest(b)]) == Pops(marks)
  {
    MarkSnoc(marks, Ingest(b));
  }

  lemma MarkHandle(marks: seq<Mark>, q: nat, inflight: nat)
    requires QueueInvariant(marks) && inflight == Batches(marks) - Pops(marks)
    ensures QueueInvariant(marks + [Handle(q, inflight)])
    ensures Batches(marks + [Handle(q, inflight)]) == Batches(marks)
    ensures Pops(marks + [Handle(q, inflight)]) == Pops(marks) + q
  {
    MarkSnoc(marks, Handle(q, inflight));
  }

  lemma MarkSnoc(marks: seq<Mark>, mark: Mark)
    requires QueueInvariant(marks) && (mark.Handle? ==> mark.inflight == Batches(marks) - Pops(marks))
    ensures QueueInvariant(marks + [mark])
    ensures (marks + [mark])[..|marks|] == marks
  {
    hide Batches, Pops;
    var ms := marks + [mark];
    assert ms[..|marks|] == marks;
    forall i | 0 <= i < |ms| && ms[i].Handle? ensures ms[i].inflight == Batches(ms[..i]) - Pops(ms[..i]) {
      if i < |marks| {
        assert ms[..i] == marks[..i];
      }
    }
  }

  lemma SliceGrows(s: seq<int>, a: nat, b: nat, n: nat)
    requires a <= b && b + n <= |s|
    ensures s[a..b] + s[b..b + n] == s[a..b + n]
  {
  }

  lemma HandledGrows(s: seq<int>, head: nat, q: nat)
    requires head + q <= |s|
    ensures s[..head] + s[head..head + q] == s[..head + q]
  {
  }

  lemma DivisionStarts(jobs: seq<Job>, first: nat, last: nat)
    requires Divides(jobs, first, last)
    ensures Divides(jobs[..0], first, first)
  {
  }

  /** The next job starts where the ones before it end. */
  lemma {:induction false} JobIn(jobs: seq<Job>, first: nat, last: nat, t: nat, at: nat)
    requires Divides(jobs, first, last) && t < |jobs| && Divides(jobs[..t], first, at)
    ensures jobs[t].first == at && jobs[t].count > 0 && at + jobs[t].count <= last
  {
    var n := |jobs| - 1;
    if t < n {
      assert jobs[..n][..t] == jobs[..t];
      JobIn(jobs[..n], first, jobs[n].first, t, at);
    } else {
      DivisionEnds(jobs[..n], first, at, jobs[n].first);
    }
  }

  lemma {:induction false} DivisionEnds(jobs: seq<Job>, first: nat, a: nat, b: nat)
    requires Divides(jobs, first, a) && Divides(jobs, first, b)
    ensures a == b
  {
  }
}
