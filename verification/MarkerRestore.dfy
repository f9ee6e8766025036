/** Exactly when putting commented regions back restores the file. */
module MarkerRestore {
  import opened Whitespace
  import opened MarkerLines
  import opened MarkerTree
  import opened MarkersOff
  import opened MarkersOn
  import opened MarkerRoundTrip
  import opened MarkerCounts

  /** Commented regions that start with another commented region. */
  function Merges(d: Doc): nat {
    match d
    case Eof => 0
    case Plain(_, rest) => Merges(rest)
    case Region(live, _, _, body, rest, _, _, _) =>
      (if !live && StartsOff(body) then 1 else 0) + Merges(body) + Merges(rest)
  }

  lemma {:induction false} FirstMerges(d: Doc)
    requires CountOff(d) > 0 && StartsOff(OffNode(d).body)
    ensures Merges(d) >= 1
  {
    match d
    case Plain(_, rest) => FirstMerges(rest);
    case Region(live, _, _, body, rest, _, _, _) =>
      if live {
        if CountOff(body) > 0 {
          FirstMerges(body);
        } else {
          FirstMerges(rest);
        }
      }
  }

  // ---------------------------------------------------------------- counts on the text of a tree

  lemma PlainCounts(t: string, prev: bool)
    requires !IsOff(t) && !IsEnd(t)
    ensures Ends([t]) == 0 && Runs([t], prev) == 0 && !LastOff([t], prev) && Clean([t])
  {
    hide IsOff, IsEnd, OnLine;
    assert [t][..0] == [];
  }

  lemma {:induction false} NoEnds(ls: seq<string>)
    requires forall i :: 0 <= i < |ls| ==> !IsEnd(ls[i])
    ensures Ends(ls) == 0
  {
    hide IsEnd;
    if ls != [] {
      NoEnds(ls[..|ls| - 1]);
    }
  }

  lemma HeaderCounts(col: nat, header: seq<string>, prev: bool)
    requires HeaderOk(col, header)
    ensures Ends(header) == 0 && Runs(header, prev) == 0 && !LastOff(header, prev) && Clean(header)
  {
    hide IsOff, IsEnd, HeaderLine, HeaderLength, Runs, LastOff;
    HeaderHasNoMarks(col, header);
    NoEnds(header);
    NoRuns(header, prev);
    NoOffIsClean(header);
  }

  lemma EndLineCounts(col: nat, prev: bool)
    ensures Ends([EndLine(col)]) == 1 && Runs([EndLine(col)], prev) == 0 && !LastOff([EndLine(col)], prev)
    ensures Clean([EndLine(col)])
  {
    hide IsOff, IsEnd, OnLine, EndLine;
    EndLineStrips(col);
    EndIsNotOff(EndLine(col));
    assert [EndLine(col)][..0] == [];
  }

  lemma OffLineClean(col: nat, l: string)
    requires HeaderLine(col, l)
    ensures CleanLine(OffLine(col, l))
  {
    hide LStrip, IsSpace, IsEnd, IsBlank;
    OffLineStrips(col, l);
    var t := l[col..];
    assert l == Pad(col) + t;
    KeptOfPadded(col, t);
    LStripPad(col, t);
    assert (OFF + t)[|OFF|..] == t;
    assert OnLine("", OffLine(col, l)) == t by {
      assert "" + t == t;
    }
  }

  lemma OffLinesCounts(col: nat, header: seq<string>)
    requires HeaderOk(col, header)
    ensures Ends(OffLines(col, header)) == 0 && Clean(OffLines(col, header))
    ensures Runs(OffLines(col, header), false) == 1 && Runs(OffLines(col, header), true) == 0
    ensures LastOff(OffLines(col, header), false) && LastOff(OffLines(col, header), true)
  {
    hide IsOff, IsEnd, HeaderLength, Runs, LastOff, OffLine, CleanLine, HeaderLine;
    OffLinesAreOff(col, header);
    HeadHasNoEnds(OffLines(col, header));
    OneRun(OffLines(col, header));
    forall i | 0 <= i < |header| ensures CleanLine(OffLine(col, header[i])) {
      OffLineClean(col, header[i]);
    }
  }

  /** One end mark for each commented region, and no line that hides a second mark. */
  lemma {:induction false} TextEnds(d: Doc, m: nat)
    requires Laid(d, m)
    ensures Ends(Text(d)) == CountOff(d) && Clean(Text(d))
    decreases d
  {
    hide IsOff, IsEnd, AtMargin, Text, Ends, EndLine, HeaderOk, Clean;
    match d
    case Eof =>
      EmptyCounts();
    case Plain(t, rest) =>
      TextEnds(rest, m);
      ItemThenRest(d);
      PlainItem(d);
      PlainCounts(t, false);
      EndsJoin([t], Text(rest));
      CleanParts([t], Text(rest));
    case Region(live, col, header, body, rest, _, _, _) =>
      TextEnds(rest, m);
      TextEnds(body, if live then m else col);
      RegionText(d);
      PartsEnds(HeadText(d), Text(body), TailText(d), Text(rest));
      RegionEnds(d);
  }

  lemma EmptyCounts()
    ensures Text(Eof) == [] && Ends([]) == 0 && Clean([]) && forall p :: Runs([], p) == 0
  {
  }

  lemma PartsEnds(a: seq<string>, b: seq<string>, c: seq<string>, e: seq<string>)
    ensures Ends(a + (b + (c + e))) == Ends(a) + Ends(b) + Ends(c) + Ends(e)
    ensures Clean(a + (b + (c + e))) <==> Clean(a) && Clean(b) && Clean(c) && Clean(e)
  {
    hide Ends, Clean;
    EndsJoin(a, b + (c + e));
    EndsJoin(b, c + e);
    EndsJoin(c, e);
    CleanParts(a, b + (c + e));
    CleanParts(b, c + e);
    CleanParts(c, e);
  }

  lemma RegionEnds(d: Doc)
    requires d.Region? && HeaderOk(d.col, d.header)
    ensures Ends(HeadText(d)) == 0 && Ends(TailText(d)) == (if d.live then 0 else 1)
    ensures Clean(HeadText(d)) && Clean(TailText(d))
  {
    hide Ends, Clean, EndLine, HeaderOk;
    EmptyCounts();
    if d.live {
      HeaderCounts(d.col, d.header, false);
    } else {
      OffLinesCounts(d.col, d.header);
      EndLineCounts(d.col, false);
    }
  }

  lemma FewerRuns(ls: seq<string>, prev: bool)
    ensures Runs(ls, prev) <= Runs(ls, false)
  {
    hide Runs;
    RunsAfterOff(ls);
  }

  lemma PartsRuns(a: seq<string>, b: seq<string>, c: seq<string>, e: seq<string>, prev: bool)
    ensures Runs(a + (b + (c + e)), prev) <=
            Runs(a, prev) + Runs(b, LastOff(a, prev)) + Runs(c, LastOff(b, LastOff(a, prev))) + Runs(e, false)
  {
    hide Runs, LastOff;
    RunsJoin(a, b + (c + e), prev);
    RunsJoin(b, c + e, LastOff(a, prev));
    RunsJoin(c, e, LastOff(b, LastOff(a, prev)));
    FewerRuns(e, LastOff(c, LastOff(b, LastOff(a, prev))));
  }

  /** A run for each commented region, less one wherever two headers meet. */
  lemma {:induction false} TextRuns(d: Doc, m: nat, prev: bool)
    requires Laid(d, m)
    ensures Runs(Text(d), prev) + Merges(d) + (if prev && StartsOff(d) then 1 else 0) <= CountOff(d)
    decreases d
  {
    hide IsOff, IsEnd, AtMargin, Text, Runs, LastOff, EndLine, HeaderOk;
    match d
    case Eof =>
      EmptyCounts();
    case Plain(t, rest) =>
      TextRuns(rest, m, false);
      ItemThenRest(d);
      PlainItem(d);
      PlainCounts(t, prev);
      RunsJoin([t], Text(rest), prev);
    case Region(live, col, header, body, rest, _, _, _) =>
      TextRuns(rest, m, false);
      TextRuns(body, if live then m else col, !live);
      RegionText(d);
      PartsRuns(HeadText(d), Text(body), TailText(d), Text(rest), prev);
      RegionRuns(d, prev, LastOff(Text(body), !live));
  }

  lemma RegionRuns(d: Doc, prev: bool, last: bool)
    requires d.Region? && HeaderOk(d.col, d.header)
    ensures Runs(HeadText(d), prev) == (if d.live || prev then 0 else 1)
    ensures LastOff(HeadText(d), prev) == !d.live
    ensures Runs(TailText(d), last) == 0
  {
    hide Runs, LastOff, EndLine, HeaderOk;
    EmptyCounts();
    if d.live {
      HeaderCounts(d.col, d.header, prev);
    } else {
      OffLinesCounts(d.col, d.header);
      EndLineCounts(d.col, last);
    }
  }

  // ---------------------------------------------------------------- the theorem

  lemma {:induction false} NothingOff(d: Doc)
    requires CountOff(d) == 0
    ensures AllLive(d) && Restorable(d)
  {
    match d
    case Eof =>
    case Plain(_, rest) => NothingOff(rest);
    case Region(_, _, _, body, rest, _, _, _) =>
      NothingOff(body);
      NothingOff(rest);
  }

  lemma NoOffNoFirst(ls: seq<string>)
    requires NoOff(ls)
    ensures FirstOff(ls) == |ls|
  {
    hide IsOff;
  }

  /** The step at a region with header lines to spare finds no end mark. */
  lemma BadStep(d: Doc, m: nat)
    requires Laid(d, m) && CountOff(d) > 0 && !StartsOff(OffNode(d).body) && Surplus(OffNode(d).body) > 0
    ensures FirstOff(Text(d)) < |Text(d)| && MarkOf(Rest(Text(d))) == []
  {
    hide Laid, Text, EndLine, OffLine, OffBefore, OffAfter, OffNode, FirstOff, FindEnd, IsOff, HeaderOk;
    hide Surplus, Head, HeadStop;
    var r := OffNode(d);
    OffNodeLaid(d, m);
    BeforeHasNoOff(d, m);
    OffLinesAreOff(r.col, r.header);
    HeaderSome(r.col, r.header);
    BodyStarts(r.body, r.col, OffAfter(d));
    TextByFirst(d);
    RestIs(OffBefore(d), OffLines(r.col, r.header), Following(d));
    BadEnd(d, m);
  }

  lemma RestIs(before: seq<string>, head: seq<string>, rest: seq<string>)
    requires NoOff(before) && AllOff(head) && head != [] && (rest == [] || !IsOff(rest[0]))
    ensures var ls := before + head + rest; FirstOff(ls) < |ls| && Rest(ls) == rest
  {
    hide IsOff, IsEnd, FirstOff, HeadRun;
    var ls := before + head + rest;
    assert ls == before + (head + rest);
    FirstOffPast(before, head + rest);
    FirstIsOff(head + rest);
    assert ls[|before|..] == head + rest;
    HeadRunPast(head, rest);
  }

  /** Region after region: either all are put back, or an end mark is left over. */
  lemma {:induction false} AllOrLeftover(d: Doc, m: nat)
    requires Laid(d, m)
    ensures Restorable(d) ==> TurnOn(Text(d)) == Text(AllOn(d))
    ensures !Restorable(d) ==> Ends(TurnOn(Text(d))) >= 1
    decreases CountOff(d)
  {
    hide Laid, Text, FirstOff, OnStep, OffWeight, OnFirst, OffNode, AllOn, Ends, Runs, Clean;
    hide Restorable, StartsOff, Surplus, CountOff, Merges, Rest, MarkOf;
    if CountOff(d) == 0 {
      LiveTextHasNoOff(d, m);
      NoOffNoFirst(Text(d));
      NothingOff(d);
      AllOnOfLive(d);
    } else {
      OnFirstKeeps(d, m);
      TextEnds(d, m);
      TextRuns(d, m, false);
      if Separable(OffNode(d)) {
        GoodStep(d, m);
        StepLightens(Text(d));
        AllOrLeftover(OnFirst(d), m);
      } else if StartsOff(OffNode(d).body) {
        FirstMerges(d);
        EndsAreLeft(Text(d));
      } else {
        OffNodeLaid(d, m);
        SurplusNatural(OffNode(d).body, OffNode(d).col);
        BadStep(d, m);
        MissedMark(Text(d));
      }
    }
  }

  /** Where all are put back, it takes one step for each commented region. */
  lemma {:induction false} StepForEach(d: Doc, m: nat)
    requires Laid(d, m) && Restorable(d)
    ensures Steps(Text(d)) == CountOff(d)
    decreases CountOff(d)
  {
    hide Laid, Text, FirstOff, OnStep, OffWeight, OnFirst, OffNode, AllOn, Ends, Runs, Clean;
    hide Restorable, StartsOff, Surplus, CountOff, Merges, Rest, MarkOf;
    if CountOff(d) == 0 {
      LiveTextHasNoOff(d, m);
      NoOffNoFirst(Text(d));
    } else {
      OnFirstKeeps(d, m);
      OffNodeLaid(d, m);
      SurplusNatural(OffNode(d).body, OffNode(d).col);
      GoodStep(d, m);
      StepLightens(Text(d));
      StepForEach(OnFirst(d), m);
    }
  }

  /**
   A file whose regions were all live, some of them since commented out: putting them back gives
   the original lines if and only if no commented region starts with another commented one and
   none has one with a header of several lines anywhere inside.
   */
  lemma RestoredIff(doc0: Doc, doc: Doc)
    requires Laid(doc0, 0) && AllLive(doc0) && Laid(doc, 0) && AllOn(doc) == AllOn(doc0)
    ensures TurnOn(Text(doc)) == Text(doc0) <==> Restorable(doc)
  {
    hide Laid, Text, TurnOn, AllOn, Ends, Restorable, AllLive, Clean;
    AllOnOfLive(doc0);
    AllOrLeftover(doc, 0);
    TextEnds(doc0, 0);
    LiveCounts(doc0);
  }

  lemma {:induction false} LiveCounts(d: Doc)
    requires AllLive(d)
    ensures CountOff(d) == 0
  {
    match d
    case Eof =>
    case Plain(_, rest) => LiveCounts(rest);
    case Region(_, _, _, body, rest, _, _, _) =>
      LiveCounts(body);
      LiveCounts(rest);
  }
}
