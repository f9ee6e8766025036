/** Putting commented regions back: the loop over the file's lines, and that it always ends. */
module MarkersOn {
  import opened Whitespace
  import opened MarkerLines

  function FirstOff(ls: seq<string>): (n: nat)
    ensures n <= |ls|
    ensures n < |ls| ==> IsOff(ls[n])
    ensures forall i :: 0 <= i < n ==> !IsOff(ls[i])
  {
    if ls == [] || IsOff(ls[0]) then 0 else 1 + FirstOff(ls[1..])
  }

  function HeadRun(ls: seq<string>): (n: nat)
    ensures n <= |ls|
    ensures n < |ls| ==> !IsOff(ls[n])
    ensures forall i :: 0 <= i < n ==> IsOff(ls[i])
  {
    if ls == [] || !IsOff(ls[0]) then 0 else 1 + HeadRun(ls[1..])
  }

  /** The depth after a line: header lines count up, end marks down. */
  function DepthAfter(l: string, depth: int): int {
    if IsOff(l) then depth + 1 else if IsEnd(l) then depth - 1 else depth
  }

  /** How far the end mark at depth 0 is, or all the lines if there is none. */
  function FindEnd(ls: seq<string>, depth: int): (n: nat)
    ensures n <= |ls|
    ensures n < |ls| ==> IsEnd(ls[n])
  {
    if ls == [] || (IsEnd(ls[0]) && depth == 0) then 0
    else 1 + FindEnd(ls[1..], DepthAfter(ls[0], depth))
  }

  /** The line after the first run of header lines. */
  function HeadStop(ls: seq<string>): (n: nat)
    requires FirstOff(ls) < |ls|
    ensures FirstOff(ls) < n <= |ls|
  {
    assert ls[FirstOff(ls)..][0] == ls[FirstOff(ls)];
    FirstOff(ls) + HeadRun(ls[FirstOff(ls)..])
  }

  function Head(ls: seq<string>): seq<string>
    requires FirstOff(ls) < |ls|
  {
    ls[FirstOff(ls)..HeadStop(ls)]
  }

  function Rest(ls: seq<string>): seq<string>
    requires FirstOff(ls) < |ls|
  {
    ls[HeadStop(ls)..]
  }

  /** All after the end mark. */
  function Beyond(rest: seq<string>): seq<string> {
    Past(rest, FindEnd(rest, 0))
  }

  /** What follows position `e`. */
  function Past<T>(s: seq<T>, e: nat): seq<T> {
    if e < |s| then s[e + 1..] else []
  }

  /** The first run of header lines put back, with all that follows up to the end mark. */
  function OnStep(ls: seq<string>): seq<string>
    requires FirstOff(ls) < |ls|
  {
    ls[..FirstOff(ls)] + OnLines(Margin(ls[FirstOff(ls)]), Head(ls))
    + IndentAll(Rest(ls)[..FindEnd(Rest(ls), 0)]) + Beyond(Rest(ls))
  }

  // ---------------------------------------------------------------- termination

  /** The text of the commented lines: what putting one back shortens. */
  function OffWeight(ls: seq<string>): nat {
    if ls == [] then 0 else
      var n := |ls| - 1;
      OffWeight(ls[..n]) + if IsOff(ls[n]) then |LStrip(ls[n])| else 0
  }

  lemma {:induction false} WeightJoins(a: seq<string>, b: seq<string>)
    ensures OffWeight(a + b) == OffWeight(a) + OffWeight(b)
  {
    hide IsOff, LStrip;
    if b == [] {
      assert a + b == a;
    } else {
      var n := |b| - 1;
      WeightJoins(a, b[..n]);
      assert (a + b)[..|a + b| - 1] == a + b[..n];
    }
  }

  lemma {:induction false} WeightIndents(ls: seq<string>)
    ensures OffWeight(IndentAll(ls)) == OffWeight(ls)
  {
    hide IndentLine, LStrip;
    if ls != [] {
      var n := |ls| - 1;
      WeightIndents(ls[..n]);
      assert IndentAll(ls)[..n] == IndentAll(ls[..n]);
      IndentStrips(ls[n]);
    }
  }

  lemma OnLineLighter(pad: string, l: string)
    requires IsOff(l) && forall i :: 0 <= i < |pad| ==> IsSpace(pad[i])
    ensures LStrip(OnLine(pad, l)) == LStrip(OnLine("", l)) && |LStrip(OnLine(pad, l))| < |LStrip(l)|
  {
    hide IsSpace;
    var x := if |LStrip(l)| >= |OFF| then LStrip(l)[|OFF|..] else "";
    LStripSpaces(pad, x);
    assert OnLine("", l) == x;
  }

  predicate AllOff(ls: seq<string>) { forall i :: 0 <= i < |ls| ==> IsOff(ls[i]) }

  lemma {:induction false} WeightLightens(pad: string, ls: seq<string>)
    requires AllOff(ls) && forall i :: 0 <= i < |pad| ==> IsSpace(pad[i])
    ensures OffWeight(OnLines(pad, ls)) + |ls| <= OffWeight(ls)
  {
    hide IsSpace, OnLine, LStrip, IsOff;
    if ls != [] {
      var n := |ls| - 1;
      WeightLightens(pad, ls[..n]);
      assert OnLines(pad, ls)[..n] == OnLines(pad, ls[..n]);
      OnLineLighter(pad, ls[n]);
    }
  }

  /** The parts of the lines that a step takes apart. */
  lemma StepParts(ls: seq<string>)
    requires FirstOff(ls) < |ls|
    ensures ls == ls[..FirstOff(ls)] + Head(ls) + Rest(ls)
    ensures Head(ls) != [] && AllOff(Head(ls))
  {
    hide IsOff, FirstOff, HeadRun;
    ThreeParts(ls, FirstOff(ls), HeadStop(ls));
    RunIsOff(ls, FirstOff(ls), HeadStop(ls) - FirstOff(ls));
  }

  lemma ThreeParts<T>(ls: seq<T>, a: nat, b: nat)
    requires a <= b <= |ls|
    ensures ls == ls[..a] + ls[a..b] + ls[b..]
  {
  }

  lemma RunIsOff(ls: seq<string>, start: nat, h: nat)
    requires start + h <= |ls| && h <= HeadRun(ls[start..])
    ensures AllOff(ls[start..start + h])
  {
    hide IsOff, HeadRun;
    var run := ls[start..start + h];
    forall i | 0 <= i < h ensures IsOff(run[i]) {
      assert ls[start..][i] == run[i];
    }
  }

  /** The mark between the body and what is beyond it, if it is there. */
  function MarkOf(rest: seq<string>): (m: seq<string>)
    ensures |m| <= 1
  {
    var e := FindEnd(rest, 0);
    if e < |rest| then [rest[e]] else []
  }

  lemma RestParts(rest: seq<string>)
    ensures rest == rest[..FindEnd(rest, 0)] + MarkOf(rest) + Beyond(rest)
    ensures MarkOf(rest) != [] ==> IsEnd(MarkOf(rest)[0])
  {
    hide FindEnd, IsEnd;
  }

  lemma StepLightens(ls: seq<string>)
    requires FirstOff(ls) < |ls|
    ensures OffWeight(OnStep(ls)) < OffWeight(ls)
  {
    hide IsOff, IsEnd, FirstOff, HeadStop, Head, Rest, FindEnd, OffWeight, OnLine, IndentLine, LStrip, Beyond, MarkOf;
    StepParts(ls);
    RestParts(Rest(ls));
    var before, pad, head := ls[..FirstOff(ls)], Margin(ls[FirstOff(ls)]), Head(ls);
    var body, mark, beyond := Rest(ls)[..FindEnd(Rest(ls), 0)], MarkOf(Rest(ls)), Beyond(Rest(ls));
    MarginIsSpace(ls[FirstOff(ls)]);
    WeightLightens(pad, head);
    WeightIndents(body);
    WeightJoins(before + OnLines(pad, head) + IndentAll(body), beyond);
    WeightJoins(before + OnLines(pad, head), IndentAll(body));
    WeightJoins(before, OnLines(pad, head));
    WeightJoins(before + head, Rest(ls));
    WeightJoins(before, head);
    WeightJoins(body + mark, beyond);
    WeightJoins(body, mark);
  }

  /** Steps until no commented line is left. */
  function TurnOn(ls: seq<string>): seq<string>
    decreases OffWeight(ls)
  {
    if FirstOff(ls) == |ls| then ls
    else
      StepLightens(ls);
      TurnOn(OnStep(ls))
  }

  /** How many steps that takes. */
  function Steps(ls: seq<string>): nat
    decreases OffWeight(ls)
  {
    if FirstOff(ls) == |ls| then 0
    else
      StepLightens(ls);
      Steps(OnStep(ls)) + 1
  }

  // ---------------------------------------------------------------- the loop over the lines

  method Uncomment(lines: seq<string>, start: nat) returns (head: seq<string>, i: nat)
    requires start < |lines| && IsOff(lines[start])
    ensures i == start + HeadRun(lines[start..]) && head == OnLines(Margin(lines[start]), lines[start..i])
  {
    hide OnLine, LStrip, IsOff;
    var pad := Margin(lines[start]);
    head := [];
    i := start;
    while i < |lines| && IsOff(lines[i])
      invariant start <= i <= |lines| && HeadRun(lines[start..]) == i - start + HeadRun(lines[i..])
      invariant |head| == i - start && forall j :: start <= j < i ==> head[j - start] == OnLine(pad, lines[j])
    {
      head := head + [OnLine(pad, lines[i])];
      assert lines[i..][1..] == lines[i + 1..];
      i := i + 1;
    }
    assert i < |lines| ==> lines[i..][0] == lines[i];
  }

  method Reindent(lines: seq<string>, from: nat) returns (body: seq<string>, i: nat)
    requires from <= |lines|
    ensures i == from + FindEnd(lines[from..], 0) && body == IndentAll(lines[from..i])
  {
    hide LStrip, RStrip, IsOff, IsEnd, IndentLine, FindEnd;
    body := [];
    i := from;
    var depth := 0;
    while i < |lines|
      invariant from <= i <= |lines| && FindEnd(lines[from..], 0) == i - from + FindEnd(lines[i..], depth)
      invariant |body| == i - from && forall j :: from <= j < i ==> body[j - from] == IndentLine(lines[j])
    {
      var stripped := Strip(lines[i]);
      StrippedMark(lines[i]);
      EndByStrip(lines[i]);
      FindEndStep(lines, i, depth);
      if stripped == END && depth == 0 {
        break;
      }
      if OFF_MARK <= stripped {
        depth := depth + 1;
      } else if stripped == END {
        depth := depth - 1;
      }
      IndentIs(lines[i]);
      body := body + [if IsBlank(lines[i]) then lines[i] else Pad(INDENT) + lines[i]];
      i := i + 1;
    }
    FindEndNone(lines, i);
  }

  lemma IndentIs(l: string)
    ensures IndentLine(l) == if IsBlank(l) then l else Pad(INDENT) + l
  {
  }

  lemma FindEndStep(lines: seq<string>, i: nat, depth: int)
    requires i < |lines|
    ensures FindEnd(lines[i..], depth) ==
            if IsEnd(lines[i]) && depth == 0 then 0 else 1 + FindEnd(lines[i + 1..], DepthAfter(lines[i], depth))
  {
    hide IsEnd, IsOff;
    assert lines[i..][0] == lines[i] && lines[i..][1..] == lines[i + 1..];
  }

  lemma FindEndNone(lines: seq<string>, i: nat)
    requires i <= |lines|
    ensures forall depth :: i == |lines| ==> FindEnd(lines[i..], depth) == 0
  {
  }

  lemma EndByStrip(l: string)
    ensures (Strip(l) == END) == IsEnd(l)
  {
  }

  method FindOff(lines: seq<string>) returns (start: nat)
    ensures start == FirstOff(lines)
  {
    hide IsOff;
    start := 0;
    while start < |lines| && !IsOff(lines[start])
      invariant start <= |lines| && FirstOff(lines) == start + FirstOff(lines[start..])
    {
      assert lines[start..][1..] == lines[start + 1..];
      start := start + 1;
    }
    assert start < |lines| ==> lines[start..][0] == lines[start];
  }

  method TurnOnLines(src: seq<string>) returns (lines: seq<string>, changed: nat)
    ensures lines == TurnOn(src) && changed == Steps(src)
    ensures FirstOff(lines) == |lines|
  {
    hide OnLine, IndentLine, LStrip, IsOff, FirstOff, FindEnd, OffWeight, Beyond, Rest;
    lines, changed := src, 0;
    while true
      invariant TurnOn(lines) == TurnOn(src) && changed + Steps(lines) == Steps(src)
      decreases OffWeight(lines)
    {
      var start := FindOff(lines);
      if start == |lines| {
        return;
      }
      StepLightens(lines);
      var head, from := Uncomment(lines, start);
      assert from == HeadStop(lines) && head == OnLines(Margin(lines[start]), Head(lines));
      var body, i := Reindent(lines, from);
      BeyondIs(lines, from, i);
      lines, changed := lines[..start] + head + body + Past(lines, i), changed + 1;
    }
  }

  lemma BeyondIs(ls: seq<string>, from: nat, i: nat)
    requires FirstOff(ls) < |ls| && from == HeadStop(ls) && i == from + FindEnd(ls[from..], 0)
    ensures Rest(ls)[..FindEnd(Rest(ls), 0)] == ls[from..i]
    ensures Beyond(Rest(ls)) == Past(ls, i)
  {
    hide FindEnd, FirstOff, HeadStop, IsEnd, IsOff, LStrip, RStrip, Past;
    DropTwice(ls, from, FindEnd(ls[from..], 0));
  }

  lemma DropTwice<T>(ls: seq<T>, from: nat, e: nat)
    requires from <= |ls| && e <= |ls| - from
    ensures ls[from..][..e] == ls[from..from + e]
    ensures Past(ls[from..], e) == Past(ls, from + e)
  {
  }
}
