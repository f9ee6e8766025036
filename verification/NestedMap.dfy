/**
 The analysis side of nesting: for each trigger of a region, the marked regions that ran
 inside it, recovered from trace records.
 */
module NestedMap {
  import opened Attribution
  import opened TraceNesting

  /** A trace record as read back; `group` stands for its run, process and thread. */
  datatype Rec = Rec(group: nat, sq: int, sqEnd: int, region: string, state: seq<int>)

  type NKey = (string, seq<int>)

  predicate Excluded(region: string, target: string) {
    region == target || ':' in region || region == "_perfmark_capture"
  }

  predicate NestedIn(t: Rec, r: Rec, target: string) {
    !Excluded(r.region, target) && t.sq < r.sq && r.sqEnd <= t.sqEnd
  }

  /** What ran inside trigger `t`, with multiplicity. */
  function NestedBag(lst: seq<Rec>, t: Rec, target: string): multiset<NKey> {
    if lst == [] then multiset{} else
      var n := |lst| - 1;
      NestedBag(lst[..n], t, target) + BagOf(lst[n], t, target)
  }

  /** A dictionary of counts holds exactly the bag. */
  predicate Tallies(m: map<NKey, nat>, bag: multiset<NKey>) {
    && (forall k :: k in m ==> k in bag && m[k] == bag[k])
    && (forall k :: k in bag ==> k in m)
  }

  // ---------------------------------------------------------------- grouping and sorting

  function GroupRecs(recs: seq<Rec>, g: nat): seq<Rec> {
    if recs == [] then [] else
      var n := |recs| - 1;
      GroupRecs(recs[..n], g) + if recs[n].group == g then [recs[n]] else []
  }

  /** Groups in order of first appearance. */
  function Groups(recs: seq<Rec>): seq<nat> {
    if recs == [] then [] else
      var n := |recs| - 1;
      var before := Groups(recs[..n]);
      if recs[n].group in before then before else before + [recs[n].group]
  }

  lemma {:induction false} NoGroupNoRecs(recs: seq<Rec>, g: nat)
    requires g !in Groups(recs)
    ensures GroupRecs(recs, g) == []
  {
    if recs != [] {
      NoGroupNoRecs(recs[..|recs| - 1], g);
    }
  }

  predicate Sorted(lst: seq<Rec>) {
    forall i, j :: 0 <= i < j < |lst| ==> lst[i].sq <= lst[j].sq
  }

  /** Stable insertion by begin number. */
  function Insert(lst: seq<Rec>, r: Rec): (s: seq<Rec>)
    requires Sorted(lst)
    ensures Sorted(s) && |s| == |lst| + 1
    ensures forall x :: x in s <==> x in lst || x == r
  {
    if lst == [] || lst[|lst| - 1].sq <= r.sq then lst + [r]
    else
      var n := |lst| - 1;
      var front := Insert(lst[..n], r);
      assert lst == lst[..n] + [lst[n]];
      assert forall i :: 0 <= i < |front| ==> front[i].sq <= lst[n].sq by {
        forall i | 0 <= i < |front| ensures front[i].sq <= lst[n].sq {
          assert front[i] in front;
          if front[i] != r {
            var j :| 0 <= j < n && lst[..n][j] == front[i];
            assert lst[j] == front[i];
          }
        }
      }
      front + [lst[n]]
  }

  function SortBySeq(lst: seq<Rec>): (s: seq<Rec>)
    ensures Sorted(s)
  {
    if lst == [] then [] else Insert(SortBySeq(lst[..|lst| - 1]), lst[|lst| - 1])
  }

  /** What record `r` contributes to the bag. */
  function BagOf(r: Rec, t: Rec, target: string): multiset<NKey> {
    if NestedIn(t, r, target) then multiset{(r.region, r.state)} else multiset{}
  }

  lemma BagSnoc(lst: seq<Rec>, r: Rec, t: Rec, target: string)
    ensures NestedBag(lst + [r], t, target) == NestedBag(lst, t, target) + BagOf(r, t, target)
  {
    assert (lst + [r])[..|lst|] == lst;
  }

  lemma {:induction false} InsertKeepsBag(lst: seq<Rec>, r: Rec, t: Rec, target: string)
    requires Sorted(lst)
    ensures NestedBag(Insert(lst, r), t, target) == NestedBag(lst + [r], t, target)
  {
    if !(lst == [] || lst[|lst| - 1].sq <= r.sq) {
      var n := |lst| - 1;
      InsertKeepsBag(lst[..n], r, t, target);
      BagSnoc(Insert(lst[..n], r), lst[n], t, target);
      BagSnoc(lst, r, t, target);
      BagSnoc(lst[..n], r, t, target);
    }
  }

  /** What ran inside a trigger does not depend on the order of the records. */
  lemma {:induction false} SortKeepsBag(lst: seq<Rec>, t: Rec, target: string)
    ensures NestedBag(SortBySeq(lst), t, target) == NestedBag(lst, t, target)
  {
    if lst != [] {
      var n := |lst| - 1;
      SortKeepsBag(lst[..n], t, target);
      InsertKeepsBag(SortBySeq(lst[..n]), lst[n], t, target);
      var s := SortBySeq(lst[..n]);
      assert (s + [lst[n]])[..|s|] == s;
    }
  }

  function TriggersOf(lst: seq<Rec>, target: string): seq<Rec> {
    if lst == [] then [] else
      var n := |lst| - 1;
      TriggersOf(lst[..n], target) + if lst[n].region == target then [lst[n]] else []
  }

  // ---------------------------------------------------------------- the map

  /** One trigger's entry: its state, and the tally of what ran inside it. */
  ghost predicate EntryOk(e: (seq<int>, map<NKey, nat>), recs: seq<Rec>, t: Rec, target: string) {
    e.0 == t.state && Tallies(e.1, NestedBag(GroupRecs(recs, t.group), t, target))
  }

  /** One entry for each of the triggers, in order. */
  ghost predicate EntriesOk(out: seq<(seq<int>, map<NKey, nat>)>, recs: seq<Rec>, ts: seq<Rec>, target: string) {
    |out| == |ts| && forall i :: 0 <= i < |ts| ==> EntryOk(out[i], recs, ts[i], target)
  }

  /** Triggers of all groups: groups as first seen, records by begin number. */
  function AllTriggers(recs: seq<Rec>, gs: seq<nat>, target: string): seq<Rec> {
    if gs == [] then [] else
      var n := |gs| - 1;
      AllTriggers(recs, gs[..n], target) + TriggersOf(SortBySeq(GroupRecs(recs, gs[n])), target)
  }

  method InnerOf(lst: seq<Rec>, t: Rec, target: string) returns (inner: map<NKey, nat>)
    ensures Tallies(inner, NestedBag(lst, t, target))
  {
    inner := map[];
    for i := 0 to |lst|
      invariant Tallies(inner, NestedBag(lst[..i], t, target))
    {
      var r := lst[i];
      assert lst[..i + 1][..i] == lst[..i];
      if NestedIn(t, r, target) {
        var k := (r.region, r.state);
        inner := inner[k := (if k in inner then inner[k] else 0) + 1];
      }
    }
    assert lst[..|lst|] == lst;
  }

  method ByGroup(recs: seq<Rec>) returns (order: seq<nat>, byTid: map<nat, seq<Rec>>)
    ensures order == Groups(recs)
    ensures forall g :: g in order ==> g in byTid && byTid[g] == GroupRecs(recs, g)
  {
    order, byTid := [], map[];
    for i := 0 to |recs|
      invariant order == Groups(recs[..i])
      invariant forall g :: g in byTid <==> g in order
      invariant forall g :: g in byTid ==> byTid[g] == GroupRecs(recs[..i], g)
    {
      var g := recs[i].group;
      assert recs[..i + 1][..i] == recs[..i];
      if g !in byTid {
        NoGroupNoRecs(recs[..i], g);
        order := order + [g];
        byTid := byTid[g := []];
      }
      byTid := byTid[g := byTid[g] + [recs[i]]];
    }
    assert recs[..|recs|] == recs;
  }

  lemma EntryMade(recs: seq<Rec>, g: nat, t: Rec, target: string, inner: map<NKey, nat>)
    requires t.group == g && Tallies(inner, NestedBag(SortBySeq(GroupRecs(recs, g)), t, target))
    ensures EntryOk((t.state, inner), recs, t, target)
  {
    SortKeepsBag(GroupRecs(recs, g), t, target);
  }

  /** The entries of one group's triggers. */
  method GroupEntries(ghost recs: seq<Rec>, ghost g: nat, lst: seq<Rec>, target: string)
    returns (out: seq<(seq<int>, map<NKey, nat>)>)
    requires lst == SortBySeq(GroupRecs(recs, g))
    ensures EntriesOk(out, recs, TriggersOf(lst, target), target)
  {
    hide TriggersOf, SortBySeq, EntryOk, Tallies, NestedBag;
    var trigs := TriggersOf(lst, target);
    TriggersInGroup(recs, g, target);
    out := [];
    for i := 0 to |trigs|
      invariant |out| == i
      invariant forall j :: 0 <= j < i ==> EntryOk(out[j], recs, trigs[j], target)
    {
      var t := trigs[i];
      assert t in trigs;
      var inner := InnerOf(lst, t, target);
      EntryMade(recs, g, t, target, inner);
      out := out + [(t.state, inner)];
    }
  }

  method NestedMap(recs: seq<Rec>, target: string) returns (out: seq<(seq<int>, map<NKey, nat>)>)
    ensures EntriesOk(out, recs, AllTriggers(recs, Groups(recs), target), target)
    ensures exists ts :: TriggersAre(ts, recs, target) && EntriesAre(out, recs, ts, target)
  {
    hide EntriesOk, TriggersOf, SortBySeq, AllTriggers, TriggersAre, EntriesAre;
    var order, byTid := ByGroup(recs);
    out := [];
    NoEntries(recs, target);
    for gi := 0 to |order|
      invariant EntriesOk(out, recs, AllTriggers(recs, order[..gi], target), target)
    {
      var g := order[gi];
      var entries := GroupEntries(recs, g, SortBySeq(byTid[g]), target);
      AllTriggersGrow(recs, order, gi, target);
      EntriesJoin(out, entries, recs, AllTriggers(recs, order[..gi], target),
                  TriggersOf(SortBySeq(GroupRecs(recs, g)), target), target);
      out := out + entries;
    }
    assert order[..|order|] == order;
    EntriesMean(out, recs, target);
  }

  lemma NoEntries(recs: seq<Rec>, target: string)
    ensures EntriesOk([], recs, AllTriggers(recs, [], target), target)
  {
  }

  lemma AllTriggersGrow(recs: seq<Rec>, order: seq<nat>, gi: nat, target: string)
    requires gi < |order|
    ensures AllTriggers(recs, order[..gi + 1], target) ==
            AllTriggers(recs, order[..gi], target) + TriggersOf(SortBySeq(GroupRecs(recs, order[gi])), target)
  {
    assert order[..gi + 1][..gi] == order[..gi];
  }

  lemma EntriesJoin(a: seq<(seq<int>, map<NKey, nat>)>, b: seq<(seq<int>, map<NKey, nat>)>, recs: seq<Rec>,
                    ts: seq<Rec>, us: seq<Rec>, target: string)
    requires EntriesOk(a, recs, ts, target) && EntriesOk(b, recs, us, target)
    ensures EntriesOk(a + b, recs, ts + us, target)
  {
    hide EntryOk;
  }

  lemma {:induction false} TriggersInGroup(recs: seq<Rec>, g: nat, target: string)
    ensures forall t :: t in TriggersOf(SortBySeq(GroupRecs(recs, g)), target) ==> t.group == g
  {
    GroupRecsInGroup(recs, g);
    SortMembers(GroupRecs(recs, g));
    TriggersMembers(SortBySeq(GroupRecs(recs, g)), target);
  }

  lemma {:induction false} GroupRecsInGroup(recs: seq<Rec>, g: nat)
    ensures forall t :: t in GroupRecs(recs, g) ==> t.group == g
  {
    if recs != [] { GroupRecsInGroup(recs[..|recs| - 1], g); }
  }

  lemma {:induction false} SortMembers(lst: seq<Rec>)
    ensures forall t :: t in SortBySeq(lst) <==> t in lst
  {
    if lst != [] {
      SortMembers(lst[..|lst| - 1]);
      assert lst == lst[..|lst| - 1] + [lst[|lst| - 1]];
    }
  }

  lemma {:induction false} TriggersMembers(lst: seq<Rec>, target: string)
    ensures forall t :: t in TriggersOf(lst, target) ==> t in lst
  {
    if lst != [] { TriggersMembers(lst[..|lst| - 1], target); }
  }

  // ---------------------------------------------------------------- which triggers, and what is in them

  /** The record itself, if it is of this group, begin number and region. */
  function PickOne(r: Rec, g: nat, sq: int, region: string): seq<Rec> {
    if r.group == g && r.sq == sq && r.region == region then [r] else []
  }

  /** Records of one group, begin number and region, in the order given. */
  function Pick(rs: seq<Rec>, g: nat, sq: int, region: string): seq<Rec> {
    if rs == [] then [] else
      var n := |rs| - 1;
      Pick(rs[..n], g, sq, region) + PickOne(rs[n], g, sq, region)
  }

  lemma PickSnoc(rs: seq<Rec>, r: Rec, g: nat, sq: int, region: string)
    ensures Pick(rs + [r], g, sq, region) == Pick(rs, g, sq, region) + PickOne(r, g, sq, region)
  {
    assert (rs + [r])[..|rs|] == rs;
  }

  lemma PickEmpty(g: nat, sq: int, region: string)
    ensures Pick([], g, sq, region) == []
  {
  }

  lemma PickLast(rs: seq<Rec>, g: nat, sq: int, region: string)
    requires rs != []
    ensures Pick(rs, g, sq, region) == Pick(rs[..|rs| - 1], g, sq, region) + PickOne(rs[|rs| - 1], g, sq, region)
  {
  }

  lemma {:induction false} PickConcat(a: seq<Rec>, b: seq<Rec>, g: nat, sq: int, region: string)
    ensures Pick(a + b, g, sq, region) == Pick(a, g, sq, region) + Pick(b, g, sq, region)
  {
    hide Pick, PickOne;
    if b == [] {
      assert a + b == a;
      PickEmpty(g, sq, region);
    } else {
      var n := |b| - 1;
      assert a + b == (a + b[..n]) + [b[n]];
      PickConcat(a, b[..n], g, sq, region);
      PickSnoc(a + b[..n], b[n], g, sq, region);
      PickLast(b, g, sq, region);
    }
  }

  lemma {:induction false} PickGroup(recs: seq<Rec>, h: nat, g: nat, sq: int, region: string)
    ensures Pick(GroupRecs(recs, h), g, sq, region) == if g == h then Pick(recs, g, sq, region) else []
  {
    hide Pick, PickOne;
    if recs == [] {
      PickEmpty(g, sq, region);
    } else {
      var n := |recs| - 1;
      PickGroup(recs[..n], h, g, sq, region);
      PickSnoc(GroupRecs(recs[..n], h), recs[n], g, sq, region);
      PickLast(recs, g, sq, region);
      PickOtherGroup(recs[n], g, sq, region);
      assert recs[n].group != h ==> GroupRecs(recs, h) == GroupRecs(recs[..n], h);
    }
  }

  lemma PickOtherGroup(r: Rec, g: nat, sq: int, region: string)
    ensures r.group != g || r.region != region ==> PickOne(r, g, sq, region) == []
  {
  }

  /** Records with the same begin number stay in order. */
  lemma {:induction false} PickInsert(lst: seq<Rec>, r: Rec, g: nat, sq: int, region: string)
    requires Sorted(lst)
    ensures Pick(Insert(lst, r), g, sq, region) == Pick(lst, g, sq, region) + PickOne(r, g, sq, region)
  {
    hide Pick, PickOne;
    if lst == [] || lst[|lst| - 1].sq <= r.sq {
      PickSnoc(lst, r, g, sq, region);
    } else {
      var n := |lst| - 1;
      PickInsert(lst[..n], r, g, sq, region);
      PickSnoc(Insert(lst[..n], r), lst[n], g, sq, region);
      PickLast(lst, g, sq, region);
      PickApart(lst[n], r, g, sq, region);
    }
  }

  lemma PickApart(a: Rec, b: Rec, g: nat, sq: int, region: string)
    requires a.sq != b.sq
    ensures PickOne(a, g, sq, region) == [] || PickOne(b, g, sq, region) == []
  {
  }

  lemma {:induction false} PickSorted(lst: seq<Rec>, g: nat, sq: int, region: string)
    ensures Pick(SortBySeq(lst), g, sq, region) == Pick(lst, g, sq, region)
  {
    hide Pick, PickOne;
    if lst != [] {
      var n := |lst| - 1;
      PickSorted(lst[..n], g, sq, region);
      PickInsert(SortBySeq(lst[..n]), lst[n], g, sq, region);
      PickLast(lst, g, sq, region);
    }
  }

  lemma {:induction false} PickTriggers(lst: seq<Rec>, target: string, g: nat, sq: int)
    ensures Pick(TriggersOf(lst, target), g, sq, target) == Pick(lst, g, sq, target)
  {
    hide Pick, PickOne;
    if lst != [] {
      var n := |lst| - 1;
      PickTriggers(lst[..n], target, g, sq);
      PickSnoc(TriggersOf(lst[..n], target), lst[n], g, sq, target);
      PickLast(lst, g, sq, target);
      PickOtherGroup(lst[n], g, sq, target);
      assert lst[n].region != target ==> TriggersOf(lst, target) == TriggersOf(lst[..n], target);
    }
  }

  lemma {:induction false} PickAll(recs: seq<Rec>, gs: seq<nat>, target: string, g: nat, sq: int)
    requires forall i, j :: 0 <= i < j < |gs| ==> gs[i] != gs[j]
    ensures Pick(AllTriggers(recs, gs, target), g, sq, target) == if g in gs then Pick(recs, g, sq, target) else []
  {
    hide Pick, SortBySeq, GroupRecs, TriggersOf;
    if gs == [] {
      PickEmpty(g, sq, target);
    } else {
      var n := |gs| - 1;
      var lst := SortBySeq(GroupRecs(recs, gs[n]));
      PickAll(recs, gs[..n], target, g, sq);
      PickConcat(AllTriggers(recs, gs[..n], target), TriggersOf(lst, target), g, sq, target);
      PickTriggers(lst, target, g, sq);
      PickSorted(GroupRecs(recs, gs[n]), g, sq, target);
      PickGroup(recs, gs[n], g, sq, target);
      assert gs == gs[..n] + [gs[n]];
    }
  }

  /** Position of the first record of a group. */
  function FirstOf(recs: seq<Rec>, g: nat): (i: nat)
    ensures i <= |recs| && (i < |recs| ==> recs[i].group == g)
    ensures forall j :: 0 <= j < i ==> recs[j].group != g
  {
    if recs == [] then 0 else
      var n := |recs| - 1;
      var i := FirstOf(recs[..n], g);
      if i < n || recs[n].group == g then i else n + 1
  }

  /** The groups of these positions come in the order of their first records. */
  ghost predicate InOrder(recs: seq<Rec>, gs: seq<nat>) {
    forall i, j :: 0 <= i < j < |gs| ==> FirstOf(recs, gs[i]) < FirstOf(recs, gs[j])
  }

  lemma FirstOfFront(recs: seq<Rec>, g: nat)
    requires recs != []
    ensures var n, i := |recs| - 1, FirstOf(recs[..|recs| - 1], g);
            FirstOf(recs, g) == if i < n || recs[n].group == g then i else n + 1
  {
  }

  /** The groups are those of the records, in the order of their first ones. */
  lemma {:induction false} GroupsInOrder(recs: seq<Rec>)
    ensures InOrder(recs, Groups(recs))
    ensures forall g :: g in Groups(recs) <==> FirstOf(recs, g) < |recs|
  {
    hide FirstOf;
    if recs == [] {
      forall g ensures FirstOf(recs, g) == 0 {
      }
    } else {
      var n := |recs| - 1;
      GroupsInOrder(recs[..n]);
      forall g ensures g in Groups(recs) <==> FirstOf(recs, g) < |recs| {
        FirstOfFront(recs, g);
      }
      forall i, j | 0 <= i < j < |Groups(recs)|
        ensures FirstOf(recs, Groups(recs)[i]) < FirstOf(recs, Groups(recs)[j])
      {
        FirstOfFront(recs, Groups(recs)[i]);
        FirstOfFront(recs, Groups(recs)[j]);
        assert Groups(recs)[i] in Groups(recs[..n]);
      }
    }
  }

  /** The records of the target region: each as often as it is there, those of a group together and in begin
      order, groups in the order they come in, and equal begin numbers in the order of the records. */
  ghost predicate TriggersAre(ts: seq<Rec>, recs: seq<Rec>, target: string) {
    && (forall x: Rec :: multiset(ts)[x] == if x.region == target then multiset(recs)[x] else 0)
    && (forall i, j :: 0 <= i < j < |ts| ==> FirstOf(recs, ts[i].group) <= FirstOf(recs, ts[j].group))
    && (forall i, j :: 0 <= i < j < |ts| && ts[i].group == ts[j].group ==> ts[i].sq <= ts[j].sq)
    && forall g, sq :: Pick(ts, g, sq, target) == Pick(recs, g, sq, target)
  }

  lemma {:induction false} PickCounts(rs: seq<Rec>, x: Rec)
    ensures multiset(rs)[x] == multiset(Pick(rs, x.group, x.sq, x.region))[x]
  {
    if rs != [] {
      var n := |rs| - 1;
      PickCounts(rs[..n], x);
      assert rs == rs[..n] + [rs[n]];
    }
  }

  lemma {:induction false} TriggersSorted(lst: seq<Rec>, target: string)
    requires Sorted(lst)
    ensures Sorted(TriggersOf(lst, target))
    ensures forall t :: t in TriggersOf(lst, target) ==> t.region == target
  {
    if lst != [] {
      var n := |lst| - 1;
      var front := TriggersOf(lst[..n], target);
      TriggersSorted(lst[..n], target);
      TriggersMembers(lst[..n], target);
      forall i | 0 <= i < |front| ensures front[i].sq <= lst[n].sq {
        assert front[i] in lst[..n];
        var j :| 0 <= j < n && lst[j] == front[i];
      }
    }
  }

  /** Triggers of the target, by group in the order given and by begin number within one. */
  ghost predicate InTurn(ts: seq<Rec>, recs: seq<Rec>, gs: seq<nat>, target: string) {
    && (forall i :: 0 <= i < |ts| ==> ts[i].group in gs && ts[i].region == target)
    && forall i, j :: 0 <= i < j < |ts| ==>
         || FirstOf(recs, ts[i].group) < FirstOf(recs, ts[j].group)
         || (ts[i].group == ts[j].group && ts[i].sq <= ts[j].sq)
  }

  lemma TurnGrows(front: seq<Rec>, last: seq<Rec>, recs: seq<Rec>, gs: seq<nat>, target: string)
    requires gs != [] && InOrder(recs, gs) && InTurn(front, recs, gs[..|gs| - 1], target) && Sorted(last)
    requires forall i :: 0 <= i < |last| ==> last[i].group == gs[|gs| - 1] && last[i].region == target
    ensures InTurn(front + last, recs, gs, target)
  {
    hide FirstOf;
    var n := |gs| - 1;
    forall i | 0 <= i < |front| ensures front[i].group in gs && FirstOf(recs, front[i].group) < FirstOf(recs, gs[n]) {
      var j :| 0 <= j < n && gs[..n][j] == front[i].group;
      assert gs[j] == front[i].group;
    }
  }

  lemma {:induction false} AllInTurn(recs: seq<Rec>, gs: seq<nat>, target: string)
    requires InOrder(recs, gs)
    ensures InTurn(AllTriggers(recs, gs, target), recs, gs, target)
  {
    hide FirstOf, InTurn, TriggersOf, SortBySeq, GroupRecs;
    if gs == [] {
      NoneInTurn(recs, target);
    } else {
      var n := |gs| - 1;
      var last := TriggersOf(SortBySeq(GroupRecs(recs, gs[n])), target);
      AllInTurn(recs, gs[..n], target);
      TriggersSorted(SortBySeq(GroupRecs(recs, gs[n])), target);
      TriggersInGroup(recs, gs[n], target);
      assert forall i :: 0 <= i < |last| ==> last[i] in last;
      TurnGrows(AllTriggers(recs, gs[..n], target), last, recs, gs, target);
    }
  }

  lemma NoneInTurn(recs: seq<Rec>, target: string)
    ensures InTurn([], recs, [], target)
  {
  }

  lemma AllPicked(recs: seq<Rec>, target: string, g: nat, sq: int)
    ensures Pick(AllTriggers(recs, Groups(recs), target), g, sq, target) == Pick(recs, g, sq, target)
  {
    hide AllTriggers, Groups, Pick, GroupRecs, FirstOf;
    var gs := Groups(recs);
    GroupsInOrder(recs);
    PickAll(recs, gs, target, g, sq);
    if g !in gs {
      NoGroupNoRecs(recs, g);
      PickGroup(recs, g, g, sq, target);
      PickEmpty(g, sq, target);
    }
  }

  lemma AllCounted(recs: seq<Rec>, target: string, x: Rec)
    ensures multiset(AllTriggers(recs, Groups(recs), target))[x] == if x.region == target then multiset(recs)[x] else 0
  {
    hide AllTriggers, Groups, Pick, FirstOf;
    var ts := AllTriggers(recs, Groups(recs), target);
    GroupsInOrder(recs);
    AllInTurn(recs, Groups(recs), target);
    PickCounts(ts, x);
    PickCounts(recs, x);
    if x.region == target {
      AllPicked(recs, target, x.group, x.sq);
    } else {
      assert forall i :: 0 <= i < |ts| ==> ts[i] != x;
    }
  }

  /** The triggers entries are made for are the records of the target region, and no others. */
  lemma TriggersAreAll(recs: seq<Rec>, target: string)
    ensures TriggersAre(AllTriggers(recs, Groups(recs), target), recs, target)
  {
    hide AllTriggers, Groups, Pick, FirstOf;
    var ts := AllTriggers(recs, Groups(recs), target);
    GroupsInOrder(recs);
    AllInTurn(recs, Groups(recs), target);
    forall g, sq ensures Pick(ts, g, sq, target) == Pick(recs, g, sq, target) {
      AllPicked(recs, target, g, sq);
    }
    forall x: Rec ensures multiset(ts)[x] == if x.region == target then multiset(recs)[x] else 0 {
      AllCounted(recs, target, x);
    }
  }

  /** Record `r` is of this region and state, on the trigger's thread, begun after it and ended no later. */
  predicate RanIn(t: Rec, r: Rec, k: NKey) {
    r.group == t.group && (r.region, r.state) == k && t.sq < r.sq && r.sqEnd <= t.sqEnd
  }

  /** How often a marked region ran in a trigger with these states. */
  function TimesIn(recs: seq<Rec>, t: Rec, k: NKey): nat {
    if recs == [] then 0 else TimesIn(recs[..|recs| - 1], t, k) + if RanIn(t, recs[|recs| - 1], k) then 1 else 0
  }

  /** Regions with a colon, captures and the target itself are not nested regions. */
  predicate Marks(region: string, target: string) {
    region != target && ':' !in region && region != "_perfmark_capture"
  }

  /** An entry has the trigger's states, and each marked region and state that ran in it, as often as it did. */
  ghost predicate EntryIs(e: (seq<int>, map<NKey, nat>), recs: seq<Rec>, t: Rec, target: string) {
    && e.0 == t.state
    && forall k: NKey ::
         && (k in e.1 <==> Marks(k.0, target) && TimesIn(recs, t, k) > 0)
         && (k in e.1 ==> e.1[k] == TimesIn(recs, t, k))
  }

  lemma BagOfIs(r: Rec, t: Rec, k: NKey, target: string)
    requires r.group == t.group
    ensures BagOf(r, t, target)[k] == if Marks(k.0, target) && RanIn(t, r, k) then 1 else 0
  {
  }

  lemma {:induction false} BagIs(recs: seq<Rec>, t: Rec, k: NKey, target: string)
    ensures NestedBag(GroupRecs(recs, t.group), t, target)[k] == if Marks(k.0, target) then TimesIn(recs, t, k) else 0
  {
    hide BagOf, Marks, RanIn;
    if recs != [] {
      var n := |recs| - 1;
      BagIs(recs[..n], t, k, target);
      if recs[n].group == t.group {
        BagSnoc(GroupRecs(recs[..n], t.group), recs[n], t, target);
        BagOfIs(recs[n], t, k, target);
      } else {
        ElsewhereNotIn(recs[n], t, k);
        assert GroupRecs(recs, t.group) == GroupRecs(recs[..n], t.group);
      }
    }
  }

  lemma ElsewhereNotIn(r: Rec, t: Rec, k: NKey)
    requires r.group != t.group
    ensures !RanIn(t, r, k)
  {
  }

  lemma EntryMeans(e: (seq<int>, map<NKey, nat>), recs: seq<Rec>, t: Rec, target: string)
    requires EntryOk(e, recs, t, target)
    ensures EntryIs(e, recs, t, target)
  {
    hide NestedBag, GroupRecs, TimesIn, Marks;
    var bag := NestedBag(GroupRecs(recs, t.group), t, target);
    forall k: NKey ensures bag[k] == if Marks(k.0, target) then TimesIn(recs, t, k) else 0 {
      BagIs(recs, t, k, target);
    }
    assert forall k: NKey :: k in e.1 <==> bag[k] > 0;
  }

  /** One entry for each of these triggers, in order. */
  ghost predicate EntriesAre(out: seq<(seq<int>, map<NKey, nat>)>, recs: seq<Rec>, ts: seq<Rec>, target: string) {
    |out| == |ts| && forall i :: 0 <= i < |ts| ==> EntryIs(out[i], recs, ts[i], target)
  }

  lemma EntriesMean(out: seq<(seq<int>, map<NKey, nat>)>, recs: seq<Rec>, target: string)
    requires EntriesOk(out, recs, AllTriggers(recs, Groups(recs), target), target)
    ensures exists ts :: TriggersAre(ts, recs, target) && EntriesAre(out, recs, ts, target)
  {
    hide AllTriggers, Groups, EntryOk, EntryIs, TriggersAre;
    var ts := AllTriggers(recs, Groups(recs), target);
    TriggersAreAll(recs, target);
    forall i | 0 <= i < |ts| ensures EntryIs(out[i], recs, ts[i], target) {
      EntryMeans(out[i], recs, ts[i], target);
    }
    assert EntriesAre(out, recs, ts, target);
  }

  // ---------------------------------------------------------------- the client's trace, read back

  /** A thread's trace as records of group `t`; `stateOf` gives the declared values of a key. */
  function RecsOfThread(trace: seq<TraceRec>, t: nat, stateOf: Key -> seq<int>): (rs: seq<Rec>)
    ensures |rs| == |trace|
    ensures forall i :: 0 <= i < |rs| ==>
              rs[i] == Rec(t, trace[i].seqBegin, trace[i].seqEnd, trace[i].key.region, stateOf(trace[i].key))
  {
    seq(|trace|, i requires 0 <= i < |trace| =>
      Rec(t, trace[i].seqBegin, trace[i].seqEnd, trace[i].key.region, stateOf(trace[i].key)))
  }

  /** The whole trace file: newest thread first. */
  function TraceFile(threads: seq<Thread>, stateOf: Key -> seq<int>): seq<Rec> {
    if threads == [] then [] else
      var n := |threads| - 1;
      RecsOfThread(threads[n].trace, n, stateOf) + TraceFile(threads[..n], stateOf)
  }

  lemma {:induction false} GroupRecsConcat(a: seq<Rec>, b: seq<Rec>, g: nat)
    ensures GroupRecs(a + b, g) == GroupRecs(a, g) + GroupRecs(b, g)
  {
    if b == [] {
      assert a + b == a;
    } else {
      var n := |b| - 1;
      assert (a + b)[..|a| + n] == a + b[..n];
      GroupRecsConcat(a, b[..n], g);
    }
  }

  lemma {:induction false} GroupRecsOfOne(recs: seq<Rec>, g: nat, h: nat)
    requires forall r :: r in recs ==> r.group == h
    ensures GroupRecs(recs, g) == if g == h then recs else []
  {
    if recs != [] {
      var n := |recs| - 1;
      GroupRecsOfOne(recs[..n], g, h);
      assert recs == recs[..n] + [recs[n]];
    }
  }

  /** Grouping the trace file by thread gives back each thread's own trace. */
  lemma {:induction false} FileGroups(threads: seq<Thread>, t: nat, stateOf: Key -> seq<int>)
    ensures GroupRecs(TraceFile(threads, stateOf), t)
         == if t < |threads| then RecsOfThread(threads[t].trace, t, stateOf) else []
  {
    if threads != [] {
      var n := |threads| - 1;
      FileGroups(threads[..n], t, stateOf);
      GroupRecsConcat(RecsOfThread(threads[n].trace, n, stateOf), TraceFile(threads[..n], stateOf), t);
      GroupRecsOfOne(RecsOfThread(threads[n].trace, n, stateOf), t, n);
    }
  }

  /** The records among `trace` whose frames were pushed inside frame `a`, with multiplicity. */
  ghost function DynamicBag(
    trace: seq<TraceRec>, above: set<(nat, nat)>, a: nat, target: string, stateOf: Key -> seq<int>): multiset<NKey>
  {
    if trace == [] then multiset{} else
      var n := |trace| - 1;
      var rec := trace[n];
      DynamicBag(trace[..n], above, a, target, stateOf)
      + if (a, rec.seqBegin) in above && !Excluded(rec.key.region, target)
        then multiset{(rec.key.region, stateOf(rec.key))} else multiset{}
  }

  lemma {:induction false} BagsAgree(
    trace: seq<TraceRec>, x: TraceRec, t: nat, above: set<(nat, nat)>, target: string, stateOf: Key -> seq<int>)
    requires forall j :: 0 <= j < |trace| ==> (Inside(x, trace[j]) <==> (x.seqBegin, trace[j].seqBegin) in above)
    ensures NestedBag(RecsOfThread(trace, t, stateOf),
                      Rec(t, x.seqBegin, x.seqEnd, x.key.region, stateOf(x.key)), target)
         == DynamicBag(trace, above, x.seqBegin, target, stateOf)
  {
    if trace != [] {
      var n := |trace| - 1;
      assert RecsOfThread(trace, t, stateOf)[..n] == RecsOfThread(trace[..n], t, stateOf);
      BagsAgree(trace[..n], x, t, above, target, stateOf);
    }
  }

  /** For every run of the client and every trigger in its trace: what the analysis counts inside the
      trigger is exactly what was pushed, on the same thread, while the trigger's frame was open. */
  lemma NestedMapIsDynamicNesting(
    cfg: Config, r: Run, t: nat, i: nat, target: string, stateOf: Key -> seq<int>)
    requires Valid(cfg, r) && cfg.traceLimit > 0 && t < |Final(cfg, r).threads|
    requires i < |Final(cfg, r).threads[t].trace|
    ensures var s := Final(cfg, r);
            var trigger := RecsOfThread(s.threads[t].trace, t, stateOf)[i];
            NestedBag(GroupRecs(TraceFile(s.threads, stateOf), t), trigger, target) ==
            DynamicBag(s.threads[t].trace, Nesting(cfg, r, t), s.threads[t].trace[i].seqBegin, target, stateOf)
  {
    var s := Final(cfg, r);
    var trace := s.threads[t].trace;
    FileGroups(s.threads, t, stateOf);
    forall j | 0 <= j < |trace|
      ensures Inside(trace[i], trace[j]) <==> (trace[i].seqBegin, trace[j].seqBegin) in Nesting(cfg, r, t)
    {
      IntervalsAreNesting(cfg, r, t, i, j);
    }
    BagsAgree(trace, trace[i], t, Nesting(cfg, r, t), target, stateOf);
  }
}
