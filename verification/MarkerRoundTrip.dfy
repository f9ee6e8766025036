/**
 Out and back in: putting commented regions back restores the file exactly when no commented
 region starts with another one and none holds one whose header spans lines.
 */
module MarkerRoundTrip {
  import opened Whitespace
  import opened MarkerLines
  import opened MarkerTree
  import opened MarkersOff
  import opened MarkerMeaning
  import opened MarkersOn

  // ---------------------------------------------------------------- the condition

  /** Header lines of the commented regions beyond the first of each. */
  function Surplus(d: Doc): int {
    match d
    case Eof => 0
    case Plain(_, rest) => Surplus(rest)
    case Region(live, _, header, body, rest, _, _, _) =>
      (if live then 0 else |header| - 1) + Surplus(body) + Surplus(rest)
  }

  predicate StartsOff(d: Doc) { d.Region? && !d.live }

  /** A commented region whose own body can be told from what it holds. */
  predicate Separable(d: Doc)
    requires d.Region?
  {
    !StartsOff(d.body) && Surplus(d.body) == 0
  }

  predicate Restorable(d: Doc) {
    match d
    case Eof => true
    case Plain(_, rest) => Restorable(rest)
    case Region(live, _, _, body, rest, _, _, _) => (live || Separable(d)) && Restorable(body) && Restorable(rest)
  }

  lemma {:induction false} SurplusNatural(d: Doc, m: nat)
    requires Laid(d, m)
    ensures Surplus(d) >= 0
    decreases d
  {
    hide IsOff, IsEnd, AtMargin, HeaderLength, HeaderLine;
    match d
    case Eof =>
    case Plain(_, rest) => SurplusNatural(rest, m);
    case Region(live, col, _, body, rest, _, _, _) =>
      SurplusNatural(rest, m);
      SurplusNatural(body, if live then m else col);
  }

  lemma {:induction false} IndentKeepsCondition(d: Doc)
    ensures Surplus(IndentDoc(d)) == Surplus(d) && Restorable(IndentDoc(d)) == Restorable(d)
    ensures StartsOff(IndentDoc(d)) == StartsOff(d)
  {
    hide IndentLine;
    match d
    case Eof =>
    case Plain(_, rest) => IndentKeepsCondition(rest);
    case Region(_, _, _, body, rest, _, _, _) =>
      IndentKeepsCondition(body);
      IndentKeepsCondition(rest);
  }

  // ---------------------------------------------------------------- the first commented region

  function OffNode(d: Doc): (r: Doc)
    requires CountOff(d) > 0
    ensures r.Region? && !r.live
  {
    match d
    case Plain(_, rest) => OffNode(rest)
    case Region(live, _, _, body, rest, _, _, _) =>
      if !live then d else if CountOff(body) > 0 then OffNode(body) else OffNode(rest)
  }

  function OffBefore(d: Doc): seq<string>
    requires CountOff(d) > 0
  {
    match d
    case Plain(t, rest) => [t] + OffBefore(rest)
    case Region(live, _, header, body, rest, _, _, _) =>
      if !live then []
      else if CountOff(body) > 0 then header + OffBefore(body)
      else ItemText(d) + OffBefore(rest)
  }

  function OffAfter(d: Doc): seq<string>
    requires CountOff(d) > 0
  {
    match d
    case Plain(_, rest) => OffAfter(rest)
    case Region(live, _, _, body, rest, _, _, _) =>
      if !live then Text(rest)
      else if CountOff(body) > 0 then OffAfter(body) + Text(rest)
      else OffAfter(rest)
  }

  /** The tree with its first commented region put back. */
  function OnFirst(d: Doc): Doc
    requires CountOff(d) > 0
  {
    match d
    case Plain(t, rest) => Plain(t, OnFirst(rest))
    case Region(live, col, header, body, rest, alone, strings, level) =>
      if !live then Region(true, col, header, IndentDoc(body), rest, alone, strings, level)
      else if CountOff(body) > 0 then Region(true, col, header, OnFirst(body), rest, alone, strings, level)
      else Region(true, col, header, body, OnFirst(rest), alone, strings, level)
  }

  predicate NoOff(ls: seq<string>) { forall i :: 0 <= i < |ls| ==> !IsOff(ls[i]) }

  lemma NoOffJoins(a: seq<string>, b: seq<string>)
    requires NoOff(a) && NoOff(b)
    ensures NoOff(a + b)
  {
    hide IsOff;
  }

  lemma {:induction false} LiveTextHasNoOff(d: Doc, m: nat)
    requires Laid(d, m) && CountOff(d) == 0
    ensures NoOff(Text(d))
    decreases d
  {
    hide IsOff, IsEnd, AtMargin, HeaderLength, NoOff;
    match d
    case Eof => EmptyHasNoOff();
    case Plain(t, rest) =>
      LiveTextHasNoOff(rest, m);
      LineHasNoOff(t);
      NoOffJoins([t], Text(rest));
    case Region(_, col, header, body, rest, _, _, _) =>
      LiveTextHasNoOff(rest, m);
      LiveTextHasNoOff(body, m);
      HeaderHasNoOff(col, header);
      NoOffJoins(header, Text(body));
      NoOffJoins(header + Text(body), Text(rest));
  }

  lemma EmptyHasNoOff()
    ensures NoOff([])
  {
  }

  lemma LineHasNoOff(t: string)
    requires !IsOff(t)
    ensures NoOff([t])
  {
    hide IsOff;
  }

  lemma HeaderHasNoOff(col: nat, header: seq<string>)
    requires HeaderOk(col, header)
    ensures NoOff(header)
  {
    hide IsOff, IsEnd, IsBlank, HeaderLength;
  }

  lemma {:induction false} BeforeHasNoOff(d: Doc, m: nat)
    requires Laid(d, m) && CountOff(d) > 0
    ensures NoOff(OffBefore(d))
    decreases d
  {
    hide IsOff, IsEnd, AtMargin, HeaderOk, NoOff, Text;
    match d
    case Plain(t, rest) =>
      BeforeHasNoOff(rest, m);
      LineHasNoOff(t);
      NoOffJoins([t], OffBefore(rest));
    case Region(live, col, header, body, rest, _, _, _) =>
      if !live {
        EmptyHasNoOff();
      } else {
        HeaderHasNoOff(col, header);
        if CountOff(body) > 0 {
          BeforeHasNoOff(body, m);
          NoOffJoins(header, OffBefore(body));
        } else {
          LiveTextHasNoOff(body, m);
          BeforeHasNoOff(rest, m);
          NoOffJoins(header, Text(body));
          NoOffJoins(ItemText(d), OffBefore(rest));
        }
      }
  }

  lemma LiveItem(d: Doc)
    requires d.Region? && d.live
    ensures ItemText(d) == d.header + Text(d.body) && Text(d) == d.header + Text(d.body) + Text(d.rest)
  {
    hide EndLine;
  }

  lemma Reassociate(a: seq<string>, b: seq<string>, c: seq<string>, x: seq<string>, e: seq<string>)
    ensures a + (b + c + x) + e == (a + b) + c + (x + e)
    ensures a + (b + c + x) == (a + b) + c + x
  {
  }

  /** The text is what comes before the first commented region, its own, and what comes after. */
  lemma {:induction false} TextAroundOff(d: Doc)
    requires CountOff(d) > 0
    ensures Text(d) == OffBefore(d) + ItemText(OffNode(d)) + OffAfter(d)
  {
    hide Text, ItemText;
    match d
    case Plain(t, rest) =>
      TextAroundOff(rest);
      ItemThenRest(d);
      PlainItem(d);
      Reassociate([t], OffBefore(rest), ItemText(OffNode(d)), OffAfter(rest), []);
    case Region(live, _, header, body, rest, _, _, _) =>
      ItemThenRest(d);
      if !live {
        assert [] + ItemText(d) == ItemText(d);
      } else if CountOff(body) > 0 {
        TextAroundOff(body);
        LiveItem(d);
        Reassociate(header, OffBefore(body), ItemText(OffNode(d)), OffAfter(body), Text(rest));
      } else {
        TextAroundOff(rest);
        Reassociate(ItemText(d), OffBefore(rest), ItemText(OffNode(d)), OffAfter(rest), []);
      }
  }

  lemma PlainItem(d: Doc)
    requires d.Plain?
    ensures ItemText(d) == [d.text]
  {
  }

  /** The first commented region as it is once put back. */
  function PutBack(r: Doc): seq<string>
    requires r.Region?
  {
    r.header + IndentAll(Text(r.body))
  }

  lemma {:induction false} TextOfOnFirst(d: Doc, m: nat)
    requires Laid(d, m) && CountOff(d) > 0
    ensures Text(OnFirst(d)) == OffBefore(d) + PutBack(OffNode(d)) + OffAfter(d)
    decreases d
  {
    hide Text, ItemText, HeaderOk, IsOff, IsEnd, AtMargin, PutBack, IndentDoc;
    var d' := OnFirst(d);
    match d
    case Plain(t, rest) =>
      TextOfOnFirst(rest, m);
      ItemThenRest(d');
      PlainItem(d');
      Reassociate([t], OffBefore(rest), PutBack(OffNode(d)), OffAfter(rest), []);
    case Region(live, col, header, body, rest, _, _, _) =>
      if !live {
        TextIndents(body, col);
        LiveItem(d');
        PutBackIs(d);
        assert [] + PutBack(d) == PutBack(d);
      } else if CountOff(body) > 0 {
        TextOfOnFirst(body, m);
        LiveItem(d');
        Reassociate(header, OffBefore(body), PutBack(OffNode(d)), OffAfter(body), Text(rest));
      } else {
        TextOfOnFirst(rest, m);
        ItemThenRest(d');
        SameItem(d, OnFirst(rest));
        Reassociate(ItemText(d), OffBefore(rest), PutBack(OffNode(d)), OffAfter(rest), []);
      }
  }

  lemma PutBackIs(r: Doc)
    requires r.Region?
    ensures PutBack(r) == r.header + IndentAll(Text(r.body))
  {
  }

  lemma {:induction false} OnFirstKeeps(d: Doc, m: nat)
    requires Laid(d, m) && CountOff(d) > 0
    ensures Laid(OnFirst(d), m) && AllOn(OnFirst(d)) == AllOn(d) && CountOff(OnFirst(d)) == CountOff(d) - 1
    ensures Separable(OffNode(d)) ==> Restorable(OnFirst(d)) == Restorable(d)
    ensures !Separable(OffNode(d)) ==> !Restorable(d)
    decreases d
  {
    hide HeaderOk, IsOff, IsEnd, AtMargin, IndentDoc;
    match d
    case Plain(t, rest) => OnFirstKeeps(rest, m);
    case Region(live, col, header, body, rest, _, _, _) =>
      if !live {
        TextIndents(body, col);
        LaidAtLess(IndentDoc(body), col + INDENT, m);
        AllOnIndents(body);
        IndentCounts(body);
        IndentKeepsCondition(body);
      } else if CountOff(body) > 0 {
        OnFirstKeeps(body, m);
      } else {
        OnFirstKeeps(rest, m);
      }
  }

  lemma {:induction false} OffNodeLaid(d: Doc, m: nat)
    requires Laid(d, m) && CountOff(d) > 0
    ensures var r := OffNode(d); HeaderOk(r.col, r.header) && Laid(r.body, r.col)
    decreases d
  {
    hide HeaderOk, IsOff, IsEnd, AtMargin;
    match d
    case Plain(t, rest) => OffNodeLaid(rest, m);
    case Region(live, col, header, body, rest, _, _, _) =>
      if live {
        if CountOff(body) > 0 {
          OffNodeLaid(body, m);
        } else {
          OffNodeLaid(rest, m);
        }
      }
  }

  // ---------------------------------------------------------------- where the scan for the end mark gets

  /** Lines that are no end mark leave the depth to the commented lines among them. */
  lemma {:induction false} ScanNoMarks(a: seq<string>, rest: seq<string>, depth: int)
    requires forall i :: 0 <= i < |a| ==> !IsOff(a[i]) && !IsEnd(a[i])
    ensures FindEnd(a + rest, depth) == |a| + FindEnd(rest, depth)
  {
    hide IsOff, IsEnd;
    if a == [] {
      assert a + rest == rest;
    } else {
      ScanNoMarks(a[1..], rest, depth);
      ScanOne(a, rest, depth);
    }
  }

  lemma ScanOne(a: seq<string>, rest: seq<string>, depth: int)
    requires a != [] && !(IsEnd(a[0]) && depth == 0)
    ensures FindEnd(a + rest, depth) == 1 + FindEnd(a[1..] + rest, DepthAfter(a[0], depth))
  {
    hide IsOff, IsEnd;
    assert (a + rest)[0] == a[0] && (a + rest)[1..] == a[1..] + rest;
  }

  lemma {:induction false} ScanHeader(a: seq<string>, rest: seq<string>, depth: int)
    requires AllOff(a)
    ensures FindEnd(a + rest, depth) == |a| + FindEnd(rest, depth + |a|)
  {
    hide IsOff, IsEnd;
    if a == [] {
      assert a + rest == rest;
    } else {
      ScanHeader(a[1..], rest, depth + 1);
      OffIsNotEnd(a[0]);
      ScanOne(a, rest, depth);
    }
  }

  lemma ScanEnd(col: nat, rest: seq<string>, depth: int)
    ensures depth == 0 ==> FindEnd([EndLine(col)] + rest, depth) == 0
    ensures depth != 0 ==> FindEnd([EndLine(col)] + rest, depth) == 1 + FindEnd(rest, depth - 1)
  {
    hide IsOff, IsEnd, EndLine;
    EndLineStrips(col);
    var a := [EndLine(col)];
    if depth != 0 {
      EndIsNotOff(a[0]);
      ScanOne(a, rest, depth);
      assert a[1..] + rest == rest;
    } else {
      assert (a + rest)[0] == EndLine(col);
    }
  }

  lemma EndIsNotOff(l: string)
    requires IsEnd(l)
    ensures !IsOff(l)
  {
    hide IsEnd, IsOff;
    if IsOff(l) {
      OffIsNotEnd(l);
    }
  }

  lemma OffLinesAreOff(col: nat, header: seq<string>)
    ensures AllOff(OffLines(col, header))
  {
    hide OffLine, IsOff;
    forall i | 0 <= i < |header| ensures IsOff(OffLine(col, header[i])) {
      OffLineStrips(col, header[i]);
    }
  }

  /** From a depth of at least 0, the scan passes over a whole tree and gains its surplus. */
  lemma {:induction false} ScanText(d: Doc, m: nat, rest: seq<string>, depth: int)
    requires Laid(d, m) && depth >= 0
    ensures FindEnd(Text(d) + rest, depth) == |Text(d)| + FindEnd(rest, depth + Surplus(d))
    decreases d
  {
    hide IsOff, IsEnd, AtMargin, Text, FindEnd, EndLine, HeaderOk;
    match d
    case Eof =>
      NoLines(rest);
    case Plain(t, r) =>
      ItemThenRest(d);
      PlainItem(d);
      ScanText(r, m, rest, depth);
      ScanNoMarks([t], Text(r) + rest, depth);
      assert Text(d) + rest == [t] + (Text(r) + rest);
    case Region(live, _, _, _, _, _, _, _) =>
      if live { ScanLive(d, m, rest, depth); } else { ScanOff(d, m, rest, depth); }
  }

  lemma NoLines(rest: seq<string>)
    ensures Text(Eof) == [] && [] + rest == rest
  {
  }

  lemma ScanLive(d: Doc, m: nat, rest: seq<string>, depth: int)
    requires d.Region? && d.live && Laid(d, m) && depth >= 0
    ensures FindEnd(Text(d) + rest, depth) == |Text(d)| + FindEnd(rest, depth + Surplus(d))
    decreases d, 0
  {
    hide IsOff, IsEnd, AtMargin, Text, FindEnd, EndLine;
    LiveItem(d);
    var after := Text(d.rest) + rest;
    HeaderHasNoMarks(d.col, d.header);
    ScanNoMarks(d.header, Text(d.body) + after, depth);
    SurplusNatural(d.body, m);
    ScanText(d.body, m, after, depth);
    ScanText(d.rest, m, rest, depth + Surplus(d.body));
    assert Text(d) + rest == d.header + (Text(d.body) + after);
  }

  lemma HeaderHasNoMarks(col: nat, header: seq<string>)
    requires HeaderOk(col, header)
    ensures forall i :: 0 <= i < |header| ==> !IsOff(header[i]) && !IsEnd(header[i])
  {
    hide IsOff, IsEnd, IsBlank, HeaderLength;
    forall i | 0 <= i < |header| ensures !IsOff(header[i]) && !IsEnd(header[i]) {
      assert HeaderLine(col, header[i]);
    }
  }

  lemma ScanOff(d: Doc, m: nat, rest: seq<string>, depth: int)
    requires d.Region? && !d.live && Laid(d, m) && depth >= 0
    ensures FindEnd(Text(d) + rest, depth) == |Text(d)| + FindEnd(rest, depth + Surplus(d))
    decreases d, 0
  {
    hide AtMargin, Text, FindEnd, EndLine, HeaderOk, Laid, OffLines, Surplus;
    OffShape(d, m);
    var after := Text(d.rest) + rest;
    var inner := depth + |d.header| + Surplus(d.body);
    SurplusNatural(d.body, d.col);
    ScanText(d.body, d.col, [EndLine(d.col)] + after, depth + |d.header|);
    ScanText(d.rest, m, rest, inner - 1);
    ScanOffParts(d, after, depth, inner);
    OffText(d, rest);
  }

  lemma OffShape(d: Doc, m: nat)
    requires d.Region? && !d.live && Laid(d, m)
    ensures Laid(d.body, d.col) && Laid(d.rest, m) && d.header != []
    ensures Surplus(d) == |d.header| - 1 + Surplus(d.body) + Surplus(d.rest)
  {
    hide AtMargin, HeaderLine, HeaderLength;
  }

  lemma OffText(d: Doc, rest: seq<string>)
    requires d.Region? && !d.live
    ensures Text(d) + rest == OffLines(d.col, d.header) + (Text(d.body) + ([EndLine(d.col)] + (Text(d.rest) + rest)))
    ensures |Text(d)| == |d.header| + |Text(d.body)| + 1 + |Text(d.rest)|
  {
    hide Text, EndLine, OffLine;
    RegionText(d);
  }

  lemma ScanOffParts(d: Doc, after: seq<string>, depth: int, inner: int)
    requires d.Region? && inner > 0
    requires var below := [EndLine(d.col)] + after;
             FindEnd(Text(d.body) + below, depth + |d.header|) == |Text(d.body)| + FindEnd(below, inner)
    ensures FindEnd(OffLines(d.col, d.header) + (Text(d.body) + ([EndLine(d.col)] + after)), depth) ==
            |d.header| + |Text(d.body)| + 1 + FindEnd(after, inner - 1)
  {
    hide IsOff, IsEnd, Text, FindEnd, EndLine, OffLine;
    OffLinesAreOff(d.col, d.header);
    ScanHeader(OffLines(d.col, d.header), Text(d.body) + ([EndLine(d.col)] + after), depth);
    ScanEnd(d.col, after, inner);
  }

  /** After the first commented region, no mark ends a scan from depth 0 or more. */
  lemma {:induction false} ScanAfter(d: Doc, m: nat, depth: int)
    requires Laid(d, m) && CountOff(d) > 0 && depth >= 0
    ensures FindEnd(OffAfter(d), depth) == |OffAfter(d)|
  {
    ScanAfterThen(d, m, Eof, depth);
    assert OffAfter(d) + [] == OffAfter(d);
  }

  lemma {:induction false} ScanAfterThen(d: Doc, m: nat, e: Doc, depth: int)
    requires Laid(d, m) && Laid(e, m) && CountOff(d) > 0 && depth >= 0
    ensures FindEnd(OffAfter(d) + Text(e), depth) == |OffAfter(d)| + |Text(e)|
    decreases d
  {
    hide IsOff, IsEnd, AtMargin, FindEnd, EndLine, HeaderOk, Text;
    match d
    case Plain(_, rest) => ScanAfterThen(rest, m, e, depth);
    case Region(live, col, header, body, rest, _, _, _) =>
      if !live {
        ScanText(rest, m, Text(e), depth);
        SurplusNatural(rest, m);
        ScanWhole(e, m, depth + Surplus(rest));
      } else if CountOff(body) > 0 {
        AppendLaid(rest, e, m);
        TextAppends(rest, e);
        ScanAfterThen(body, m, Append(rest, e), depth);
        assert OffAfter(d) + Text(e) == OffAfter(body) + (Text(rest) + Text(e));
      } else {
        ScanAfterThen(rest, m, e, depth);
      }
  }

  lemma ScanWhole(e: Doc, m: nat, depth: int)
    requires Laid(e, m) && depth >= 0
    ensures FindEnd(Text(e), depth) == |Text(e)|
  {
    hide IsOff, IsEnd, AtMargin, EndLine, HeaderOk, Text;
    ScanText(e, m, [], depth);
    assert Text(e) + [] == Text(e);
  }

  // ---------------------------------------------------------------- one step on the text of a tree

  lemma {:induction false} FirstOffPast(a: seq<string>, rest: seq<string>)
    requires NoOff(a)
    ensures FirstOff(a + rest) == |a| + FirstOff(rest)
  {
    hide IsOff;
    if a == [] {
      assert a + rest == rest;
    } else {
      FirstOffPast(a[1..], rest);
      assert (a + rest)[0] == a[0] && (a + rest)[1..] == a[1..] + rest;
    }
  }

  lemma {:induction false} HeadRunPast(a: seq<string>, rest: seq<string>)
    requires AllOff(a) && (rest == [] || !IsOff(rest[0]))
    ensures HeadRun(a + rest) == |a|
  {
    hide IsOff;
    if a == [] {
      assert a + rest == rest;
    } else {
      HeadRunPast(a[1..], rest);
      assert (a + rest)[0] == a[0] && (a + rest)[1..] == a[1..] + rest;
    }
  }

  /** A step takes the lines apart where the header run is. */
  lemma StepOn(before: seq<string>, head: seq<string>, rest: seq<string>)
    requires NoOff(before) && AllOff(head) && head != [] && (rest == [] || !IsOff(rest[0]))
    ensures var ls := before + head + rest;
            && FirstOff(ls) < |ls|
            && OnStep(ls) ==
               before + OnLines(Margin(head[0]), head) + IndentAll(rest[..FindEnd(rest, 0)]) + Beyond(rest)
  {
    hide IsOff, IsEnd, FirstOff, HeadRun, FindEnd, OnLine, IndentLine, Margin, Past;
    var ls := before + head + rest;
    assert ls == before + (head + rest);
    FirstOffPast(before, head + rest);
    FirstIsOff(head + rest);
    assert ls[|before|..] == head + rest;
    HeadRunPast(head, rest);
    assert Head(ls) == head && Rest(ls) == rest && ls[..|before|] == before && ls[|before|] == head[0];
  }

  lemma FirstIsOff(ls: seq<string>)
    requires ls != [] && IsOff(ls[0])
    ensures FirstOff(ls) == 0
  {
  }

  lemma HeadBack(col: nat, header: seq<string>)
    requires HeaderOk(col, header)
    ensures OnLines(Margin(OffLines(col, header)[0]), OffLines(col, header)) == header
  {
    hide IsOff, IsEnd, IsBlank, HeaderLength, OnLine, OffLine, Margin;
    forall i | 0 <= i < |header| ensures OnLine(Pad(col), OffLine(col, header[i])) == header[i] {
      assert HeaderLine(col, header[i]);
      OnOffLine(col, header[i]);
    }
    OnOffLine(col, header[0]);
  }

  /** What follows the header of the first commented region. */
  function Following(d: Doc): seq<string>
    requires CountOff(d) > 0
  {
    Text(OffNode(d).body) + ([EndLine(OffNode(d).col)] + OffAfter(d))
  }

  lemma TextByFirst(d: Doc)
    requires CountOff(d) > 0
    ensures var r := OffNode(d); Text(d) == OffBefore(d) + OffLines(r.col, r.header) + Following(d)
  {
    hide Text, EndLine, OffLine, OffBefore, OffAfter, OffNode;
    TextAroundOff(d);
    var r := OffNode(d);
    assert ItemText(r) == OffLines(r.col, r.header) + Text(r.body) + [EndLine(r.col)];
  }

  lemma BodyStarts(d: Doc, col: nat, after: seq<string>)
    requires Laid(d, col) && !StartsOff(d)
    ensures var ls := Text(d) + ([EndLine(col)] + after); ls != [] && !IsOff(ls[0])
  {
    hide IsOff, IsEnd, AtMargin, EndLine, HeaderLength, IsBlank;
    EndLineStrips(col);
    EndIsNotOff(EndLine(col));
    match d
    case Eof =>
    case Plain(_, _) =>
    case Region(_, c, header, _, _, _, _, _) => HeaderHasNoMarks(c, header);
  }

  /** If the first commented region can be told from what it holds, a step puts exactly it back. */
  lemma GoodStep(d: Doc, m: nat)
    requires Laid(d, m) && CountOff(d) > 0 && Separable(OffNode(d))
    ensures FirstOff(Text(d)) < |Text(d)| && OnStep(Text(d)) == Text(OnFirst(d))
  {
    hide Laid, Text, EndLine, OffLine, OffBefore, OffAfter, OffNode, OnFirst, FirstOff, OnStep, FindEnd;
    hide IsOff, OnLine, IndentLine, HeaderOk;
    var r := OffNode(d);
    OffNodeLaid(d, m);
    BeforeHasNoOff(d, m);
    OffLinesAreOff(r.col, r.header);
    HeaderSome(r.col, r.header);
    BodyStarts(r.body, r.col, OffAfter(d));
    TextByFirst(d);
    StepOn(OffBefore(d), OffLines(r.col, r.header), Following(d));
    HeadBack(r.col, r.header);
    GoodEnd(d, m);
    TextOfOnFirst(d, m);
  }

  lemma HeaderSome(col: nat, header: seq<string>)
    requires HeaderOk(col, header)
    ensures header != []
  {
  }

  lemma GoodEnd(d: Doc, m: nat)
    requires Laid(d, m) && CountOff(d) > 0 && Surplus(OffNode(d).body) == 0
    ensures Following(d)[..FindEnd(Following(d), 0)] == Text(OffNode(d).body) && Beyond(Following(d)) == OffAfter(d)
  {
    hide Laid, Text, EndLine, OffAfter, OffNode, FindEnd, HeaderOk, Surplus;
    var r := OffNode(d);
    OffNodeLaid(d, m);
    var mark := [EndLine(r.col)];
    ScanText(r.body, r.col, mark + OffAfter(d), 0);
    ScanEnd(r.col, OffAfter(d), 0);
    assert Following(d)[|Text(r.body)| + 1..] == OffAfter(d);
  }

  /** With header lines to spare in the body, the scan misses the end mark and runs to the end of the file. */
  lemma BadEnd(d: Doc, m: nat)
    requires Laid(d, m) && CountOff(d) > 0 && Surplus(OffNode(d).body) > 0
    ensures FindEnd(Following(d), 0) == |Following(d)|
  {
    hide Laid, Text, EndLine, OffAfter, OffNode, FindEnd, HeaderOk, Surplus;
    var r := OffNode(d);
    OffNodeLaid(d, m);
    var mark := [EndLine(r.col)];
    ScanText(r.body, r.col, mark + OffAfter(d), 0);
    ScanEnd(r.col, OffAfter(d), Surplus(r.body));
    ScanAfter(d, m, Surplus(r.body) - 1);
  }
}
