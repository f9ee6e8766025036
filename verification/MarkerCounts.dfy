/**
 Counting end marks against runs of commented lines: putting regions back removes at most one end
 mark for each run, so what starts with more marks than runs ends with marks left over.
 */
module MarkerCounts {
  import opened Whitespace
  import opened MarkerLines
  import opened MarkersOn

  function Ends(ls: seq<string>): nat {
    if ls == [] then 0 else
      var n := |ls| - 1;
      Ends(ls[..n]) + if IsEnd(ls[n]) then 1 else 0
  }

  predicate LastOff(ls: seq<string>, prev: bool) {
    if ls == [] then prev else IsOff(ls[|ls| - 1])
  }

  /** Commented lines that do not follow another one; `prev` says whether one comes before. */
  function Runs(ls: seq<string>, prev: bool): nat {
    if ls == [] then 0 else
      var n := |ls| - 1;
      Runs(ls[..n], prev) + if IsOff(ls[n]) && !LastOff(ls[..n], prev) then 1 else 0
  }

  lemma {:induction false} EndsJoin(a: seq<string>, b: seq<string>)
    ensures Ends(a + b) == Ends(a) + Ends(b)
  {
    hide IsEnd;
    if b == [] {
      assert a + b == a;
    } else {
      var n := |b| - 1;
      EndsJoin(a, b[..n]);
      assert (a + b)[..|a + b| - 1] == a + b[..n];
    }
  }

  lemma {:induction false} RunsJoin(a: seq<string>, b: seq<string>, prev: bool)
    ensures Runs(a + b, prev) == Runs(a, prev) + Runs(b, LastOff(a, prev))
    ensures LastOff(a + b, prev) == LastOff(b, LastOff(a, prev))
  {
    hide IsOff;
    if b == [] {
      assert a + b == a;
    } else {
      var n := |b| - 1;
      RunsJoin(a, b[..n], prev);
      assert (a + b)[..|a + b| - 1] == a + b[..n];
    }
  }

  /** A commented line just before can only save a run, and only at the front. */
  lemma {:induction false} RunsAfterOff(ls: seq<string>)
    ensures Runs(ls, true) <= Runs(ls, false)
    ensures ls != [] && IsOff(ls[0]) ==> Runs(ls, true) + 1 == Runs(ls, false)
    ensures ls == [] || !IsOff(ls[0]) ==> Runs(ls, true) == Runs(ls, false)
    ensures ls != [] ==> LastOff(ls, true) == LastOff(ls, false)
  {
    hide IsOff;
    if |ls| > 1 {
      RunsAfterOff(ls[..|ls| - 1]);
    } else if |ls| == 1 {
      assert ls[..0] == [];
    }
  }

  lemma {:induction false} NoRuns(ls: seq<string>, prev: bool)
    requires forall i :: 0 <= i < |ls| ==> !IsOff(ls[i])
    ensures Runs(ls, prev) == 0 && (ls != [] ==> !LastOff(ls, prev))
  {
    hide IsOff;
    if ls != [] {
      NoRuns(ls[..|ls| - 1], prev);
    }
  }

  lemma {:induction false} OneRun(ls: seq<string>)
    requires AllOff(ls) && ls != []
    ensures Runs(ls, false) == 1 && Runs(ls, true) == 0 && LastOff(ls, false) && LastOff(ls, true)
  {
    hide IsOff;
    if |ls| > 1 {
      OneRun(ls[..|ls| - 1]);
    } else {
      assert ls[..0] == [];
    }
  }

  lemma SameMarks(l: string)
    ensures IsOff(IndentLine(l)) == IsOff(l) && IsEnd(IndentLine(l)) == IsEnd(l)
  {
    hide LStrip, RStrip;
    IndentStrips(l);
  }

  lemma {:induction false} IndentKeepsCounts(ls: seq<string>, prev: bool)
    ensures Ends(IndentAll(ls)) == Ends(ls) && Runs(IndentAll(ls), prev) == Runs(ls, prev)
    ensures LastOff(IndentAll(ls), prev) == LastOff(ls, prev)
  {
    hide IsOff, IsEnd, IndentLine;
    if ls != [] {
      var n := |ls| - 1;
      IndentKeepsCounts(ls[..n], prev);
      SameMarks(ls[n]);
      if n > 0 {
        SameMarks(ls[n - 1]);
      }
      assert IndentAll(ls)[..n] == IndentAll(ls[..n]);
    }
  }

  // ---------------------------------------------------------------- lines that do not hide a second mark

  /** A commented line put back is not itself a commented line. */
  predicate CleanLine(l: string) { IsOff(l) ==> !IsOff(OnLine("", l)) }

  predicate Clean(ls: seq<string>) { forall i :: 0 <= i < |ls| ==> CleanLine(ls[i]) }

  lemma CleanParts(a: seq<string>, b: seq<string>)
    ensures Clean(a + b) <==> Clean(a) && Clean(b)
  {
    hide CleanLine;
    if Clean(a + b) {
      forall i | 0 <= i < |a| ensures CleanLine(a[i]) {
        assert a[i] == (a + b)[i];
      }
      forall i | 0 <= i < |b| ensures CleanLine(b[i]) {
        assert b[i] == (a + b)[|a| + i];
      }
    }
  }

  lemma CleanIndents(ls: seq<string>)
    requires Clean(ls)
    ensures Clean(IndentAll(ls))
  {
    hide IsOff, OnLine, IndentLine;
    forall i | 0 <= i < |ls| ensures CleanLine(IndentLine(ls[i])) {
      CleanLineIndents(ls[i]);
    }
  }

  lemma CleanLineIndents(l: string)
    requires CleanLine(l)
    ensures CleanLine(IndentLine(l))
  {
    hide LStrip, IndentLine;
    IndentStrips(l);
    assert OnLine("", IndentLine(l)) == OnLine("", l);
  }

  lemma OnLineMark(pad: string, l: string)
    requires IsOff(l) && CleanLine(l) && forall i :: 0 <= i < |pad| ==> IsSpace(pad[i])
    ensures !IsOff(OnLine(pad, l))
  {
    hide LStrip, OnLine, IsSpace;
    OnLineLighter(pad, l);
  }

  /** The header put back: no commented line among them. */
  lemma HeadCleared(pad: string, head: seq<string>)
    requires AllOff(head) && Clean(head) && forall i :: 0 <= i < |pad| ==> IsSpace(pad[i])
    ensures forall i :: 0 <= i < |head| ==> !IsOff(OnLines(pad, head)[i])
  {
    hide LStrip, OnLine, IsSpace, IsOff, CleanLine;
    forall i | 0 <= i < |head| ensures !IsOff(OnLine(pad, head[i])) {
      OnLineMark(pad, head[i]);
    }
  }

  lemma NoOffIsClean(ls: seq<string>)
    requires forall i :: 0 <= i < |ls| ==> !IsOff(ls[i])
    ensures Clean(ls)
  {
    hide IsOff, OnLine;
  }

  // ---------------------------------------------------------------- a step's balance

  lemma MarkCounts(rest: seq<string>)
    ensures Ends(MarkOf(rest)) <= 1 && Runs(MarkOf(rest), true) == 0 && Runs(MarkOf(rest), false) == 0
    ensures Ends(MarkOf(rest)) == 0 ==> MarkOf(rest) == []
    ensures MarkOf(rest) != [] ==> !LastOff(MarkOf(rest), true) && !LastOff(MarkOf(rest), false)
  {
    hide IsOff, IsEnd, FindEnd;
    RestParts(rest);
    var m := MarkOf(rest);
    if m != [] {
      assert m[..0] == [];
      if IsOff(m[0]) {
        OffIsNotEnd(m[0]);
      }
    }
  }

  lemma BeforeIsBare(ls: seq<string>)
    ensures forall i :: 0 <= i < FirstOff(ls) ==> !IsOff(ls[..FirstOff(ls)][i])
  {
    hide IsOff;
  }

  lemma RestStarts(ls: seq<string>)
    requires FirstOff(ls) < |ls|
    ensures Rest(ls) == [] || !IsOff(Rest(ls)[0])
  {
    hide IsOff;
    var start := FirstOff(ls);
    var h := HeadRun(ls[start..]);
    if start + h < |ls| {
      assert ls[start..][h] == ls[start + h];
    }
  }

  /** Runs of the rest, with or without its end mark in the middle. */
  lemma RunsWithoutMark(body: seq<string>, mark: seq<string>, beyond: seq<string>)
    requires Runs(mark, true) == 0 && Runs(mark, false) == 0
    requires mark != [] ==> !LastOff(mark, true) && !LastOff(mark, false)
    ensures Runs(body + beyond, false) <= Runs(body + mark + beyond, false)
  {
    hide IsOff, Runs, LastOff;
    RunsJoin(body, beyond, false);
    RunsJoin(body + mark, beyond, false);
    RunsJoin(body, mark, false);
    RunsAfterOff(beyond);
    if mark == [] {
      assert body + mark == body;
    }
  }

  lemma StepRuns(ls: seq<string>)
    requires FirstOff(ls) < |ls| && Clean(ls)
    ensures Runs(OnStep(ls), false) + 1 <= Runs(ls, false)
  {
    hide IsOff, IsEnd, FirstOff, HeadStop, Head, Rest, FindEnd, OnLine, IndentLine, LStrip, Beyond, MarkOf;
    hide Runs, LastOff, Clean;
    StepParts(ls);
    RestParts(Rest(ls));
    MarkCounts(Rest(ls));
    var before, pad, head := ls[..FirstOff(ls)], Margin(ls[FirstOff(ls)]), Head(ls);
    var body, mark, beyond := Rest(ls)[..FindEnd(Rest(ls), 0)], MarkOf(Rest(ls)), Beyond(Rest(ls));
    CleanParts(before + head, Rest(ls));
    CleanParts(before, head);
    MarginIsSpace(ls[FirstOff(ls)]);
    HeadCleared(pad, head);
    BeforeIsBare(ls);
    RestStarts(ls);
    BareFront(before, OnLines(pad, head), IndentAll(body), beyond);
    FullFront(before, head, Rest(ls));
    IndentKeepsCounts(body, false);
    RunsJoin(IndentAll(body), beyond, false);
    RunsJoin(body, beyond, false);
    RunsWithoutMark(body, mark, beyond);
  }

  lemma BareFront(a: seq<string>, b: seq<string>, c: seq<string>, e: seq<string>)
    requires (forall i :: 0 <= i < |a| ==> !IsOff(a[i])) && (forall i :: 0 <= i < |b| ==> !IsOff(b[i]))
    ensures Runs(a + b + c + e, false) == Runs(c + e, false)
  {
    hide IsOff, Runs;
    assert a + b + c + e == (a + b) + (c + e);
    NoRuns(a + b, false);
    RunsJoin(a + b, c + e, false);
  }

  lemma FullFront(a: seq<string>, head: seq<string>, rest: seq<string>)
    requires forall i :: 0 <= i < |a| ==> !IsOff(a[i])
    requires AllOff(head) && head != [] && (rest == [] || !IsOff(rest[0]))
    ensures Runs(a + head + rest, false) == 1 + Runs(rest, false)
  {
    hide IsOff, Runs;
    NoRuns(a, false);
    OneRun(head);
    RunsJoin(a, head, false);
    RunsJoin(a + head, rest, false);
    RunsAfterOff(rest);
  }

  lemma StepEnds(ls: seq<string>)
    requires FirstOff(ls) < |ls|
    ensures Ends(OnStep(ls)) + Ends(MarkOf(Rest(ls))) >= Ends(ls) && Ends(MarkOf(Rest(ls))) <= 1
  {
    hide IsOff, IsEnd, FirstOff, HeadStop, Head, Rest, FindEnd, OnLine, IndentLine, LStrip, Beyond, MarkOf, Ends;
    StepParts(ls);
    RestParts(Rest(ls));
    MarkCounts(Rest(ls));
    var before, pad, head := ls[..FirstOff(ls)], Margin(ls[FirstOff(ls)]), Head(ls);
    var body, mark, beyond := Rest(ls)[..FindEnd(Rest(ls), 0)], MarkOf(Rest(ls)), Beyond(Rest(ls));
    HeadHasNoEnds(head);
    EndsJoin(before + head, Rest(ls));
    EndsJoin(before, head);
    EndsJoin(body + mark, beyond);
    EndsJoin(body, mark);
    EndsJoin(before + OnLines(pad, head) + IndentAll(body), beyond);
    EndsJoin(before + OnLines(pad, head), IndentAll(body));
    EndsJoin(before, OnLines(pad, head));
    IndentKeepsCounts(body, false);
  }

  lemma {:induction false} HeadHasNoEnds(head: seq<string>)
    requires AllOff(head)
    ensures Ends(head) == 0
  {
    hide IsOff, IsEnd;
    if head != [] {
      HeadHasNoEnds(head[..|head| - 1]);
      OffIsNotEnd(head[|head| - 1]);
    }
  }

  lemma StepClean(ls: seq<string>)
    requires FirstOff(ls) < |ls| && Clean(ls)
    ensures Clean(OnStep(ls))
  {
    hide IsOff, IsEnd, FirstOff, HeadStop, Head, Rest, FindEnd, OnLine, IndentLine, LStrip, Beyond, MarkOf;
    hide CleanLine, Clean;
    StepParts(ls);
    RestParts(Rest(ls));
    var before, pad, head := ls[..FirstOff(ls)], Margin(ls[FirstOff(ls)]), Head(ls);
    var body, mark, beyond := Rest(ls)[..FindEnd(Rest(ls), 0)], MarkOf(Rest(ls)), Beyond(Rest(ls));
    CleanParts(before + head, Rest(ls));
    CleanParts(before, head);
    CleanParts(body + mark, beyond);
    CleanParts(body, mark);
    MarginIsSpace(ls[FirstOff(ls)]);
    HeadCleared(pad, head);
    NoOffIsClean(OnLines(pad, head));
    CleanIndents(body);
    CleanParts(before + OnLines(pad, head) + IndentAll(body), beyond);
    CleanParts(before + OnLines(pad, head), IndentAll(body));
    CleanParts(before, OnLines(pad, head));
  }

  lemma {:induction false} NoOffNoRuns(ls: seq<string>)
    requires FirstOff(ls) == |ls|
    ensures Runs(ls, false) == 0
  {
    hide IsOff, Runs;
    NoRuns(ls, false);
  }

  /** End marks beyond the number of runs are never removed. */
  lemma {:induction false} EndsAreLeft(ls: seq<string>)
    requires Clean(ls)
    ensures Ends(TurnOn(ls)) + Runs(ls, false) >= Ends(ls)
    decreases OffWeight(ls)
  {
    hide IsOff, OnStep, FirstOff, Clean, Ends, Runs, OffWeight;
    if FirstOff(ls) == |ls| {
      NoOffNoRuns(ls);
    } else {
      StepLightens(ls);
      StepClean(ls);
      EndsAreLeft(OnStep(ls));
      StepRuns(ls);
      StepEnds(ls);
    }
  }

  /** A step that finds no end mark leaves one too many. */
  lemma MissedMark(ls: seq<string>)
    requires Clean(ls) && FirstOff(ls) < |ls| && MarkOf(Rest(ls)) == []
    ensures Ends(TurnOn(ls)) + Runs(ls, false) >= Ends(ls) + 1
  {
    hide IsOff, OnStep, FirstOff, Clean, Runs, OffWeight, Rest, MarkOf;
    StepLightens(ls);
    StepClean(ls);
    EndsAreLeft(OnStep(ls));
    StepRuns(ls);
    StepEnds(ls);
    assert TurnOn(ls) == TurnOn(OnStep(ls));
  }
}
