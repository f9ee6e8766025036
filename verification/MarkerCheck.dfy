/** Out and back in for a whole source file: when the check passes, told from the source. */
module MarkerCheck {
  import opened MarkerLines
  import opened MarkerTree
  import opened MarkersOff
  import opened MarkerWalk
  import opened MarkerReach
  import opened MarkersOn
  import opened MarkerRoundTrip
  import opened MarkerRestore

  // ---------------------------------------------------------------- the condition on the source

  /** Header lines, beyond the first of each, of the regions that may be turned off. */
  function ExtraLines(d: Doc): int {
    match d
    case Eof => 0
    case Plain(_, rest) => ExtraLines(rest)
    case Region(_, _, header, body, rest, _, _, _) =>
      (if MayTurnOff(d) then |header| - 1 else 0) + ExtraLines(body) + ExtraLines(rest)
  }

  predicate StartsMay(d: Doc) { d.Region? && MayTurnOff(d) }

  /**
   No region that may be turned off has another such region as its first statement, or one with a
   header of several lines anywhere inside.
   */
  predicate SourceOk(d: Doc) {
    match d
    case Eof => true
    case Plain(_, rest) => SourceOk(rest)
    case Region(_, _, _, body, rest, _, _, _) =>
      && (MayTurnOff(d) ==> !StartsMay(body) && ExtraLines(body) == 0)
      && SourceOk(body) && SourceOk(rest)
  }

  /** The same regions with headers of the same length, at whatever columns. */
  predicate SameShape(e: Doc, d: Doc) {
    match e
    case Eof => d.Eof?
    case Plain(_, rest) => d.Plain? && SameShape(rest, d.rest)
    case Region(_, _, header, body, rest, _, _, _) =>
      d.Region? && |header| == |d.header| && SameShape(body, d.body) && SameShape(rest, d.rest)
  }

  lemma {:induction false} ShapeIndents(e: Doc, d: Doc)
    requires SameShape(e, d)
    ensures SameShape(e, IndentDoc(d))
  {
    hide IndentLine;
    match e
    case Eof =>
    case Plain(_, rest) => ShapeIndents(rest, d.rest);
    case Region(_, _, _, body, rest, _, _, _) =>
      ShapeIndents(body, d.body);
      ShapeIndents(rest, d.rest);
  }

  lemma {:induction false} ShapeOfAllOn(e: Doc)
    ensures SameShape(e, AllOn(e))
  {
    hide IndentDoc;
    match e
    case Eof =>
    case Plain(_, rest) => ShapeOfAllOn(rest);
    case Region(_, _, _, body, rest, _, _, _) =>
      ShapeOfAllOn(body);
      ShapeOfAllOn(rest);
      ShapeIndents(body, AllOn(body));
  }

  lemma ExactlyHere(d: Doc, e: Doc)
    requires ExactlyRefused(d, e) && d.Region? && e.Region?
    ensures AllLive(d) ==> (e.live <==> !MayTurnOff(d))
  {
    hide Refusal;
    assert LiveAt(e, Here) == e.live && LiveAt(d, Here) == d.live;
  }

  lemma ExactlyInside(d: Doc, e: Doc)
    requires ExactlyRefused(d, e) && d.Region? && e.Region?
    ensures ExactlyRefused(d.body, e.body)
  {
    hide Refusal, MayTurnOff;
    forall q ensures LiveAt(e.body, q) <==> LiveAt(d.body, q) && !MayTurnOff(NodeAt(d.body, q)) {
      assert LiveAt(e, InBody(q)) == LiveAt(e.body, q);
      assert LiveAt(d, InBody(q)) == LiveAt(d.body, q);
    }
  }

  lemma ExactlyAfter(d: Doc, e: Doc)
    requires ExactlyRefused(d, e) && !d.Eof? && !e.Eof? && d.Plain? == e.Plain?
    ensures ExactlyRefused(d.rest, e.rest)
  {
    hide Refusal, MayTurnOff;
    forall q ensures LiveAt(e.rest, q) <==> LiveAt(d.rest, q) && !MayTurnOff(NodeAt(d.rest, q)) {
      assert LiveAt(e, InRest(q)) == LiveAt(e.rest, q);
      assert LiveAt(d, InRest(q)) == LiveAt(d.rest, q);
    }
  }

  /** When exactly what may be was commented out, the condition on the result reads off the source. */
  lemma {:induction false} ConditionOnSource(d: Doc, e: Doc)
    requires AllLive(d) && SameShape(e, d) && ExactlyRefused(d, e)
    ensures Surplus(e) == ExtraLines(d) && StartsOff(e) == StartsMay(d) && Restorable(e) == SourceOk(d)
  {
    hide Refusal, ExactlyRefused;
    match e
    case Eof =>
    case Plain(_, rest) =>
      ExactlyAfter(d, e);
      ConditionOnSource(d.rest, rest);
    case Region(_, _, _, body, rest, _, _, _) =>
      ExactlyHere(d, e);
      ExactlyInside(d, e);
      ExactlyAfter(d, e);
      ConditionOnSource(d.body, body);
      ConditionOnSource(d.rest, rest);
  }

  /**
   Whatever was left live, as long as only what may be was commented out: the condition on the
   source suffices for the one on the result.
   */
  lemma {:induction false} SourceSuffices(d: Doc, e: Doc, m: nat)
    requires AllLive(d) && SameShape(e, d) && Laid(e, m) && OnlyMay(d, e)
    ensures 0 <= Surplus(e) <= ExtraLines(d)
    ensures StartsOff(e) ==> StartsMay(d)
    ensures SourceOk(d) ==> Restorable(e)
    decreases e
  {
    hide Refusal, OnlyMay, IsOff, IsEnd, AtMargin, HeaderLine, HeaderLength;
    match e
    case Eof =>
    case Plain(_, rest) =>
      MayAfter(d, e);
      SourceSuffices(d.rest, rest, m);
    case Region(live, col, _, body, rest, _, _, _) =>
      MayHere(d, e);
      MayInside(d, e);
      MayAfter(d, e);
      SourceSuffices(d.body, body, if live then m else col);
      SourceSuffices(d.rest, rest, m);
  }

  /** Only regions that may be turned off were. */
  ghost predicate OnlyMay(d: Doc, e: Doc) {
    forall q :: LiveAt(d, q) && !LiveAt(e, q) ==> MayTurnOff(NodeAt(d, q))
  }

  lemma MayHere(d: Doc, e: Doc)
    requires OnlyMay(d, e) && d.Region? && e.Region?
    ensures AllLive(d) && !e.live ==> MayTurnOff(d)
  {
    hide Refusal;
    assert LiveAt(e, Here) == e.live && LiveAt(d, Here) == d.live;
  }

  lemma MayInside(d: Doc, e: Doc)
    requires OnlyMay(d, e) && d.Region? && e.Region?
    ensures OnlyMay(d.body, e.body)
  {
    hide Refusal, MayTurnOff;
    forall q | LiveAt(d.body, q) && !LiveAt(e.body, q) ensures MayTurnOff(NodeAt(d.body, q)) {
      assert LiveAt(d, InBody(q)) && !LiveAt(e, InBody(q));
    }
  }

  lemma MayAfter(d: Doc, e: Doc)
    requires OnlyMay(d, e) && !d.Eof? && !e.Eof? && d.Plain? == e.Plain?
    ensures OnlyMay(d.rest, e.rest)
  {
    hide Refusal, MayTurnOff;
    forall q | LiveAt(d.rest, q) && !LiveAt(e.rest, q) ensures MayTurnOff(NodeAt(d.rest, q)) {
      assert LiveAt(d, InRest(q)) && !LiveAt(e, InRest(q));
    }
  }

  lemma SinceOnlyMay(d: Doc, e: Doc)
    requires Since(d, e)
    ensures OnlyMay(d, e)
  {
    hide LiveAt, NodeAt, Refusal;
  }

  /** `off` then `on` restores every file that meets the condition, whatever the walk refuses or misses. */
  lemma RestoredIfSource(doc0: Doc)
    requires Laid(doc0, 0) && AllLive(doc0) && SourceOk(doc0)
    ensures TurnOn(Text(Off(doc0, []).0)) == Text(doc0)
  {
    hide Laid, Text, TurnOn, AllOn, Off, Restorable, AllLive, SameShape, OnlyMay, SourceOk, Since;
    var doc := Off(doc0, []).0;
    NoNotes(doc0);
    WalkEnds(doc0, []);
    SinceOnlyMay(doc0, doc);
    AllOnOfLive(doc0);
    ShapeOfAllOn(doc);
    SourceSuffices(doc0, doc, 0);
    RestoredIff(doc0, doc);
  }

  /** `off` then `on` restores the file if and only if the source meets the condition, when nothing was missed. */
  lemma RestoredIffSource(doc0: Doc)
    requires Laid(doc0, 0) && AllLive(doc0) && NothingMissed(Off(doc0, []).0)
    ensures TurnOn(Text(Off(doc0, []).0)) == Text(doc0) <==> SourceOk(doc0)
  {
    hide Laid, Text, TurnOn, AllOn, Off, Restorable, AllLive, SameShape, ExactlyRefused, NothingMissed, SourceOk;
    var doc := Off(doc0, []).0;
    NoNotes(doc0);
    WalkEnds(doc0, []);
    NothingMissedIff(doc0);
    AllOnOfLive(doc0);
    ShapeOfAllOn(doc);
    ConditionOnSource(doc0, doc);
    RestoredIff(doc0, doc);
  }

  /** The same for every source in which no refused region is within the reach of one that may be turned off. */
  lemma RestoredIffClear(doc0: Doc)
    requires Laid(doc0, 0) && AllLive(doc0) && ClearOfRefused(doc0)
    ensures TurnOn(Text(Off(doc0, []).0)) == Text(doc0) <==> SourceOk(doc0)
  {
    hide Laid, Text, TurnOn, Off, AllLive, NothingMissed, ClearOfRefused, SourceOk, ExactlyRefused;
    NothingMissedIf(doc0);
    RestoredIffSource(doc0);
  }

  // ---------------------------------------------------------------- a file that had commented regions before

  /** Putting back leaves no commented line, whatever the file. */
  lemma {:induction false} TurnOnLeavesNoOff(ls: seq<string>)
    ensures NoOff(TurnOn(ls))
    decreases OffWeight(ls)
  {
    hide IsOff, OnStep, OffWeight;
    if FirstOff(ls) < |ls| {
      StepLightens(ls);
      TurnOnLeavesNoOff(OnStep(ls));
    }
  }

  lemma OffIsSeen(d: Doc, m: nat)
    requires Laid(d, m) && CountOff(d) > 0
    ensures !NoOff(Text(d))
  {
    hide IsOff, Laid, Text, OffLine, HeaderOk, OffBefore, Following, OffNode;
    var r := OffNode(d);
    OffNodeLaid(d, m);
    HeaderSome(r.col, r.header);
    OffLinesAreOff(r.col, r.header);
    TextByFirst(d);
    var i := |OffBefore(d)|;
    assert Text(d)[i] == OffLines(r.col, r.header)[0];
  }

  lemma LiveIff(d: Doc)
    ensures AllLive(d) <==> CountOff(d) == 0
  {
    hide AllLive, CountOff, Restorable;
    if CountOff(d) == 0 {
      NothingOff(d);
    }
    if AllLive(d) {
      LiveCounts(d);
    }
  }

  /** A file that has commented regions already is never the outcome of putting back. */
  lemma NotWithMarks(doc0: Doc, ls: seq<string>)
    requires Laid(doc0, 0) && TurnOn(ls) == Text(doc0)
    ensures AllLive(doc0)
  {
    hide Laid, Text, TurnOn, NoOff;
    LiveIff(doc0);
    TurnOnLeavesNoOff(ls);
    if CountOff(doc0) > 0 {
      OffIsSeen(doc0, 0);
    }
  }

  /**
   `check`: out, then back in, and whether the lines are the same again. It fails for a file with
   commented regions. For another it passes if no region of the source is in the way of another,
   whatever is refused or missed, and only then unless a region was missed; none is, unless a
   refused region is within the reach of one that may be turned off.
   */
  method Check(doc0: Doc) returns (clean: bool, off: seq<string>, doc: Doc, notes: seq<Note>)
    requires Laid(doc0, 0)
    ensures (doc, notes) == Off(doc0, []) && off == Text(doc)
    ensures clean <==> TurnOn(off) == Text(doc0)
    ensures clean <==> AllLive(doc0) && Restorable(doc)
    ensures AllLive(doc0) && SourceOk(doc0) ==> clean
    ensures NothingMissed(doc) ==> (clean <==> AllLive(doc0) && SourceOk(doc0))
    ensures ClearOfRefused(doc0) ==> NothingMissed(doc) && (clean <==> AllLive(doc0) && SourceOk(doc0))
    ensures AllMay(doc0) ==> CountLive(doc) == 0 && notes == [] && (clean <==> AllLive(doc0) && SourceOk(doc0))
  {
    hide Laid, Text, TurnOn, AllOn, Off, Restorable, AllLive, NothingMissed, AllMay, SourceOk, CountLive;
    hide ClearOfRefused;
    var changed;
    off, changed, notes, doc := TurnOff(doc0);
    var back, _ := TurnOnLines(off);
    if AllLive(doc0) {
      RestoredIff(doc0, doc);
      if SourceOk(doc0) {
        RestoredIfSource(doc0);
      }
    }
    if TurnOn(off) == Text(doc0) {
      NotWithMarks(doc0, off);
    }
    if AllMay(doc0) {
      AllTurnedOff(doc0);
    }
    if ClearOfRefused(doc0) {
      NothingMissedIf(doc0);
    }
    if AllLive(doc0) && NothingMissed(doc) {
      RestoredIffSource(doc0);
    }
    clean := back == Text(doc0);
  }
}
