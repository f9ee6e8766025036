/**
 What the walk over a file's regions leaves live: what may not be turned off, and what landed on
 the old line and column of such a region.
 */
module MarkerWalk {
  import opened Options
  import opened Whitespace
  import opened MarkerLines
  import opened MarkerTree
  import opened MarkersOff

  // ---------------------------------------------------------------- margins under rewriting

  lemma AtMarginDedents(l: string, n: nat)
    requires AtMargin(l, INDENT)
    ensures AtMargin(DedentLine(l), n) <==> AtMargin(l, n + INDENT)
  {
    hide IsSpace, LStrip;
    DedentStrips(l);
    if AtMargin(l, n + INDENT) {
      DedentMargin(l, n);
    } else if AtMargin(DedentLine(l), n) {
      IndentMargin(DedentLine(l), n);
      IndentDedentLine(l);
    }
  }

  lemma AllAtMarginDedents(ls: seq<string>, n: nat)
    requires AllAtMargin(ls, INDENT)
    ensures AllAtMargin(DedentAll(ls), n) <==> AllAtMargin(ls, n + INDENT)
  {
    hide AtMargin, DedentLine;
    forall i | 0 <= i < |ls| ensures AtMargin(DedentAll(ls)[i], n) <==> AtMargin(ls[i], n + INDENT) {
      AtMarginDedents(ls[i], n);
    }
  }

  lemma MarginsJoin(a: seq<string>, b: seq<string>, n: nat)
    ensures AllAtMargin(a + b, n) <==> AllAtMargin(a, n) && AllAtMargin(b, n)
  {
    hide AtMargin;
    if AllAtMargin(a + b, n) {
      TailAtMargin(a, b, n);
    }
  }

  lemma AtLess(l: string, m: nat, n: nat)
    requires AtMargin(l, m) && n <= m
    ensures AtMargin(l, n)
  {
    if Pad(m) <= l {
      PadPrefix(m, n, l);
    }
  }

  lemma AllAtLess(ls: seq<string>, m: nat, n: nat)
    requires AllAtMargin(ls, m) && n <= m
    ensures AllAtMargin(ls, n)
  {
    hide AtMargin;
    forall i | 0 <= i < |ls| ensures AtMargin(ls[i], n) {
      AtLess(ls[i], m, n);
    }
  }

  lemma HeaderAtMargin(col: nat, header: seq<string>)
    requires HeaderOk(col, header)
    ensures AllAtMargin(header, col)
  {
    hide HeaderLength, IsBlank, IsOff, IsEnd;
    forall i | 0 <= i < |header| ensures AtMargin(header[i], col) {
      assert HeaderLine(col, header[i]);
    }
  }

  lemma MarksAtMargin(col: nat, header: seq<string>)
    ensures AllAtMargin(OffLines(col, header), col) && AtMargin(EndLine(col), col)
  {
    hide IsBlank, KeptPart;
    forall i | 0 <= i < |header| ensures AtMargin(OffLine(col, header[i]), col) {
      PadStarts(col, OFF + KeptPart(col, header[i]));
    }
    PadStarts(col, END + "\n");
  }

  lemma PadStarts(n: nat, x: string)
    ensures Pad(n) <= Pad(n) + x
  {
  }

  /** The text of a laid out tree keeps the tree's margin. */
  lemma {:induction false} LaidAtMargin(d: Doc, m: nat)
    requires Laid(d, m)
    ensures AllAtMargin(Text(d), m)
    decreases d
  {
    hide IsOff, IsEnd, AtMargin, HeaderOk, EndLine, AllAtMargin;
    match d
    case Eof => EmptyAtMargin(m);
    case Plain(t, rest) =>
      LaidAtMargin(rest, m);
      OneAtMargin(t, m);
      MarginsJoin([t], Text(rest), m);
    case Region(live, col, header, body, rest, _, _, _) =>
      LaidAtMargin(rest, m);
      LaidAtMargin(body, if live then m else col);
      AllAtLess(Text(body), if live then m else col, m);
      MarksOrHeader(d, m);
      RegionText(d);
      FourAtMargin(HeadText(d), Text(body), TailText(d), Text(rest), m);
  }

  lemma EmptyAtMargin(m: nat)
    ensures AllAtMargin([], m)
  {
  }

  lemma OneAtMargin(t: string, m: nat)
    requires AtMargin(t, m)
    ensures AllAtMargin([t], m)
  {
  }

  lemma MarksOrHeader(d: Doc, m: nat)
    requires d.Region? && m <= d.col && HeaderOk(d.col, d.header)
    ensures AllAtMargin(HeadText(d), m) && AllAtMargin(TailText(d), m)
  {
    hide AtMargin, HeaderOk, EndLine;
    HeaderAtMargin(d.col, d.header);
    MarksAtMargin(d.col, d.header);
    AllAtLess(HeadText(d), d.col, m);
    if !d.live {
      AtLess(EndLine(d.col), d.col, m);
    }
  }

  lemma FourAtMargin(a: seq<string>, b: seq<string>, c: seq<string>, e: seq<string>, n: nat)
    ensures AllAtMargin(a + (b + (c + e)), n) <==>
            AllAtMargin(a, n) && AllAtMargin(b, n) && AllAtMargin(c, n) && AllAtMargin(e, n)
  {
    hide AllAtMargin;
    MarginsJoin(a, b + (c + e), n);
    MarginsJoin(b, c + e, n);
    MarginsJoin(c, e, n);
  }

  lemma ItemParts(r: Doc)
    requires r.Region?
    ensures ItemText(r) == HeadText(r) + (Text(r.body) + (TailText(r) + []))
  {
    hide EndLine, Text;
  }

  /** How deep a region that may be turned off sits is seen at its own lines, live or commented. */
  lemma ItemMargin(r: Doc, n: nat)
    requires r.Region? && HeaderOk(r.col, r.header) && AllAtMargin(Text(r.body), r.col)
    ensures AllAtMargin(ItemText(r), n) <==> n <= r.col
  {
    hide AtMargin, HeaderOk, EndLine, Text, AllAtMargin;
    ItemParts(r);
    FourAtMargin(HeadText(r), Text(r.body), TailText(r), [], n);
    EmptyAtMargin(n);
    if n <= r.col {
      MarksOrHeader(r, n);
      AllAtLess(Text(r.body), r.col, n);
    }
    if AllAtMargin(HeadText(r), n) {
      FirstLineMargin(r, n);
    }
  }

  lemma {:induction false} NodeLaid(d: Doc, q: Path, m: nat)
    requires LiveAt(d, q) && Laid(d, m)
    ensures Laid(NodeAt(d, q), m)
    decreases q
  {
    hide HeaderOk, IsOff, IsEnd, AtMargin;
    match q
    case Here =>
    case InBody(w) =>
      if !d.live {
        LaidAtLess(d.body, d.col, m);
      }
      NodeLaid(d.body, w, m);
    case InRest(w) => NodeLaid(d.rest, w, m);
  }

  /** Commenting a region out moves no line of the file across a margin. */
  lemma MarginsStay(d: Doc, p: Path, m: nat, n: nat)
    requires LiveAt(d, p) && Laid(d, m) && MayTurnOff(NodeAt(d, p))
    ensures AllAtMargin(Text(TurnOffAt(d, p)), n) <==> AllAtMargin(Text(d), n)
  {
    hide AtMargin, HeaderOk, EndLine, Text, AllAtMargin, Laid, ItemText, DedentDoc, Before, After;
    var r := NodeAt(d, p);
    var r' := TurnOffAt(r, Here);
    TextAround(d, p);
    NodeLaid(d, p, m);
    NodeMargins(r, m);
    ItemMargin(r, n);
    ItemMargin(r', n);
    MarginsJoin(Before(d, p) + ItemText(r), After(d, p), n);
    MarginsJoin(Before(d, p), ItemText(r), n);
    MarginsJoin(Before(d, p) + ItemText(r'), After(d, p), n);
    MarginsJoin(Before(d, p), ItemText(r'), n);
  }

  lemma NodeMargins(r: Doc, m: nat)
    requires r.Region? && r.live && Laid(r, m) && MayTurnOff(r)
    ensures HeaderOk(r.col, r.header) && AllAtMargin(Text(r.body), r.col)
    ensures AllAtMargin(Text(DedentDoc(r.body)), r.col)
  {
    hide AtMargin, HeaderOk, EndLine, Text, AllAtMargin;
    MayMeans(r);
    AllAtLess(Text(r.body), r.col + INDENT, r.col);
    LaidTighter(r.body, m, r.col + INDENT);
    TextDedents(r.body, r.col);
    LaidAtMargin(DedentDoc(r.body), r.col);
  }

  // ---------------------------------------------------------------- a rewrite decides nothing about other regions

  lemma {:induction false} LiveDedents(d: Doc, q: Path)
    ensures LiveAt(DedentDoc(d), q) <==> LiveAt(d, q)
    ensures LiveAt(d, q) ==> NodeAt(DedentDoc(d), q) == DedentDoc(NodeAt(d, q))
    decreases q
  {
    hide DedentLine;
    match d
    case Eof =>
    case Plain(_, rest) =>
      if q.InRest? {
        LiveDedents(rest, q.way);
      }
    case Region(_, _, _, body, rest, _, _, _) =>
      match q
      case Here =>
      case InBody(w) => LiveDedents(body, w);
      case InRest(w) => LiveDedents(rest, w);
  }

  /** Whether a region may be turned off does not change when what encloses it is. */
  lemma RefusalDedents(r: Doc, m: nat)
    requires r.Region? && r.live && Laid(r, m + INDENT)
    ensures Refusal(DedentDoc(r)) == Refusal(r)
  {
    hide AtMargin, HeaderOk, Text, AllAtMargin, DedentAll;
    TextDedents(r.body, m);
    LaidAtMargin(r.body, m + INDENT);
    AllAtLess(Text(r.body), m + INDENT, INDENT);
    AllAtMarginDedents(Text(r.body), r.col);
  }

  lemma {:induction false} LiveAfter(d: Doc, p: Path, q: Path)
    requires LiveAt(d, p)
    ensures LiveAt(TurnOffAt(d, p), q) <==> LiveAt(d, q) && q != p
    decreases p
  {
    hide DedentDoc;
    match p
    case Here =>
      if q.InBody? {
        LiveDedents(d.body, q.way);
      }
    case InBody(w) =>
      if q.InBody? {
        LiveAfter(d.body, w, q.way);
      }
    case InRest(w) =>
      if q.InRest? {
        LiveAfter(d.rest, w, q.way);
      }
  }

  lemma {:induction false} RefusalAfter(d: Doc, p: Path, q: Path, m: nat)
    requires LiveAt(d, p) && LiveAt(d, q) && p != q && Laid(d, m) && MayTurnOff(NodeAt(d, p))
    ensures LiveAt(TurnOffAt(d, p), q)
    ensures Refusal(NodeAt(TurnOffAt(d, p), q)) == Refusal(NodeAt(d, q))
    decreases p
  {
    hide DedentDoc, HeaderOk, IsOff, IsEnd, AtMargin, Text, AllAtMargin;
    LiveAfter(d, p, q);
    match p
    case Here =>
      if q.InBody? {
        LiveDedents(d.body, q.way);
        MayMeans(d);
        LaidTighter(d.body, m, d.col + INDENT);
        NodeLaid(d.body, q.way, d.col + INDENT);
        RefusalDedents(NodeAt(d.body, q.way), d.col);
      }
    case InBody(w) =>
      if q.InBody? {
        RefusalAfter(d.body, w, q.way, if d.live then m else d.col);
      } else if q.Here? {
        MarginsStay(d.body, w, m, d.col + INDENT);
      }
    case InRest(w) =>
      if q.InRest? {
        RefusalAfter(d.rest, w, q.way, m);
      }
  }

  // ---------------------------------------------------------------- what the walk ends with

  /** From `d` to `e` only regions that may be turned off were, and nothing else changed its mind. */
  ghost predicate Since(d: Doc, e: Doc) {
    && (forall q :: LiveAt(e, q) ==> LiveAt(d, q) && Refusal(NodeAt(e, q)) == Refusal(NodeAt(d, q)))
    && (forall q :: LiveAt(d, q) && !LiveAt(e, q) ==> MayTurnOff(NodeAt(d, q)))
  }

  /** Every note is about a region that is still live, and gives its reason. */
  ghost predicate NotesOk(d: Doc, notes: seq<Note>) {
    forall i :: 0 <= i < |notes| ==>
      LiveAt(d, notes[i].region) && Refusal(NodeAt(d, notes[i].region)) == Some(notes[i].reason)
  }

  /** The line and column a live region has now. */
  function KeyAt(d: Doc, q: Path): Key
    requires LiveAt(d, q)
  {
    (|Before(d, q)|, NodeAt(d, q).col)
  }

  lemma SinceTurnOff(d: Doc, p: Path)
    requires LiveAt(d, p) && Laid(d, 0) && MayTurnOff(NodeAt(d, p))
    ensures Since(d, TurnOffAt(d, p))
  {
    hide Laid, MayTurnOff, Refusal;
    forall q ensures LiveAt(TurnOffAt(d, p), q) <==> LiveAt(d, q) && q != p {
      LiveAfter(d, p, q);
    }
    forall q | LiveAt(TurnOffAt(d, p), q) ensures Refusal(NodeAt(TurnOffAt(d, p), q)) == Refusal(NodeAt(d, q)) {
      RefusalAfter(d, p, q, 0);
    }
  }

  lemma SinceTrans(a: Doc, b: Doc, c: Doc)
    requires Since(a, b) && Since(b, c)
    ensures Since(a, c)
  {
    hide Refusal, LiveAt, NodeAt;
  }

  lemma NotesSince(d: Doc, p: Path, notes: seq<Note>)
    requires LiveAt(d, p) && MayTurnOff(NodeAt(d, p)) && NotesOk(d, notes) && Since(d, TurnOffAt(d, p))
    ensures NotesOk(TurnOffAt(d, p), notes)
  {
    hide Refusal, NodeAt;
    forall i | 0 <= i < |notes| ensures LiveAt(TurnOffAt(d, p), notes[i].region) {
      LiveAfter(d, p, notes[i].region);
    }
  }

  /** The walk's end: only what may be was turned off, notes are right, and every live region is under a note's key. */
  lemma {:induction false} WalkEnds(d: Doc, notes: seq<Note>)
    requires Laid(d, 0) && NotesOk(d, notes)
    ensures var (e, ns) := Off(d, notes);
            && Laid(e, 0) && AllOn(e) == AllOn(d) && Since(d, e) && NotesOk(e, ns)
            && forall i :: 0 <= i < |Targets(e, 0, 0)| ==> Skipped(ns, KeyOf(Targets(e, 0, 0)[i]))
    decreases CountLive(d), Pending(Targets(d, 0, 0), notes)
  {
    hide Laid, AllOn, Targets, First, Skipped, KeyOf, CountLive, Pending, Describes, Since, NotesOk, Refusal, TurnOffAt;
    match First(Targets(d, 0, 0), notes)
    case None =>
      SinceSelf(d);
    case Some(t) =>
      TargetProgress(d, notes, t);
      match Refusal(NodeAt(d, t.path))
      case Some(reason) =>
        NoteAdded(d, notes, Note(KeyOf(t), reason, t.path));
        WalkEnds(d, notes + [Note(KeyOf(t), reason, t.path)]);
      case None =>
        SinceTurnOff(d, t.path);
        NotesSince(d, t.path, notes);
        WalkEnds(TurnOffAt(d, t.path), notes);
        SinceTrans(d, TurnOffAt(d, t.path), Off(d, notes).0);
  }

  lemma SinceSelf(d: Doc)
    ensures Since(d, d)
  {
    hide Refusal, LiveAt, NodeAt;
  }

  lemma NoteAdded(d: Doc, notes: seq<Note>, note: Note)
    requires NotesOk(d, notes) && LiveAt(d, note.region) && Refusal(NodeAt(d, note.region)) == Some(note.reason)
    ensures NotesOk(d, notes + [note])
  {
    hide Refusal, LiveAt, NodeAt;
  }

  /** The note is of a refused region of `d`, under this key; if `q` may be turned off, it is not of `q`. */
  predicate Holds(n: Note, d: Doc, q: Path, key: Key)
    requires LiveAt(d, q)
  {
    && n.key == key
    && LiveAt(d, n.region) && Refusal(NodeAt(d, n.region)) == Some(n.reason)
    && (MayTurnOff(NodeAt(d, q)) ==> n.region != q)
  }

  /** A live region of the result was itself refused, or has the line and column another was refused under. */
  lemma WhatStays(doc0: Doc, q: Path)
    requires Laid(doc0, 0) && LiveAt(Off(doc0, []).0, q)
    ensures var (doc, notes) := Off(doc0, []);
            && LiveAt(doc0, q) && Refusal(NodeAt(doc, q)) == Refusal(NodeAt(doc0, q))
            && exists i :: 0 <= i < |notes| && Holds(notes[i], doc0, q, KeyAt(doc, q))
  {
    hide Laid, AllOn, Targets, Refusal, Off, LiveAt, NodeAt, Since, NotesOk, KeyOf, Holds;
    NoNotes(doc0);
    WalkEnds(doc0, []);
    var (doc, notes) := Off(doc0, []);
    SinceAt(doc0, doc, q);
    var j := LiveIsTarget(doc, 0, 0, q);
    TargetsDescribe(doc, 0, 0, j);
    KeyOfTarget(doc, Targets(doc, 0, 0)[j]);
    assert Skipped(notes, KeyOf(Targets(doc, 0, 0)[j]));
    var i :| 0 <= i < |notes| && notes[i].key == KeyAt(doc, q);
    NoteHolds(doc0, doc, notes, i, q);
  }

  lemma SinceAt(d: Doc, e: Doc, q: Path)
    requires Since(d, e) && LiveAt(e, q)
    ensures LiveAt(d, q) && Refusal(NodeAt(e, q)) == Refusal(NodeAt(d, q))
  {
    hide LiveAt, NodeAt, Refusal;
  }

  lemma NoteHolds(d: Doc, e: Doc, notes: seq<Note>, i: nat, q: Path)
    requires Since(d, e) && NotesOk(e, notes) && i < |notes| && LiveAt(d, q)
    ensures Holds(notes[i], d, q, notes[i].key)
  {
    hide LiveAt, NodeAt, Refusal;
    SinceAt(d, e, notes[i].region);
  }

  lemma NoNotes(d: Doc)
    ensures NotesOk(d, [])
  {
  }

  lemma KeyOfTarget(d: Doc, t: Target)
    requires Describes(t, d, 0)
    ensures LiveAt(d, t.path) && KeyOf(t) == KeyAt(d, t.path)
  {
    hide Text;
  }

  /** Nothing that may be turned off is left live. */
  ghost predicate NothingMissed(doc: Doc) {
    forall q :: LiveAt(doc, q) ==> !MayTurnOff(NodeAt(doc, q))
  }

  /** Nothing is missed if and only if exactly the regions of the source that may not be turned off stay. */
  lemma NothingMissedIff(doc0: Doc)
    requires Laid(doc0, 0)
    ensures NothingMissed(Off(doc0, []).0) <==> ExactlyRefused(doc0, Off(doc0, []).0)
  {
    hide Laid, AllOn, Targets, Off, Since, NotesOk;
    NoNotes(doc0);
    WalkEnds(doc0, []);
    SinceExactly(doc0, Off(doc0, []).0);
  }

  ghost predicate ExactlyRefused(d: Doc, e: Doc) {
    forall q :: LiveAt(e, q) <==> LiveAt(d, q) && !MayTurnOff(NodeAt(d, q))
  }

  lemma SinceExactly(d: Doc, e: Doc)
    requires Since(d, e)
    ensures NothingMissed(e) <==> ExactlyRefused(d, e)
  {
    hide LiveAt, NodeAt, Refusal;
  }

  /** Every live region may be turned off. */
  ghost predicate AllMay(d: Doc) {
    forall q :: LiveAt(d, q) ==> MayTurnOff(NodeAt(d, q))
  }

  function SomeLive(d: Doc): (q: Path)
    requires CountLive(d) > 0
    ensures LiveAt(d, q)
  {
    match d
    case Plain(_, rest) => InRest(SomeLive(rest))
    case Region(live, _, _, body, rest, _, _, _) =>
      if live then Here
      else if CountLive(body) > 0 then InBody(SomeLive(body))
      else InRest(SomeLive(rest))
  }

  lemma SomethingLive(d: Doc)
    ensures CountLive(d) > 0 ==> exists q :: LiveAt(d, q)
  {
    hide LiveAt, CountLive;
    if CountLive(d) > 0 {
      assert LiveAt(d, SomeLive(d));
    }
  }

  lemma NoRefusals(d: Doc, e: Doc, notes: seq<Note>)
    requires Since(d, e) && NotesOk(e, notes) && AllMay(d)
    ensures notes == []
  {
    hide LiveAt, NodeAt, Refusal;
    if notes != [] {
      SinceAt(d, e, notes[0].region);
    }
  }

  /** If every region may be turned off, every one is, and nothing is reported. */
  lemma AllTurnedOff(doc0: Doc)
    requires Laid(doc0, 0) && AllMay(doc0)
    ensures var (doc, notes) := Off(doc0, []); CountLive(doc) == 0 && notes == []
    ensures NothingMissed(Off(doc0, []).0)
  {
    hide Laid, AllOn, Targets, Off, LiveAt, NodeAt, CountLive, Refusal, Since, NotesOk, Skipped, AllMay;
    NoNotes(doc0);
    WalkEnds(doc0, []);
    var (doc, notes) := Off(doc0, []);
    NoRefusals(doc0, doc, notes);
    forall q | LiveAt(doc, q) ensures false {
      WhatStays(doc0, q);
    }
    SomethingLive(doc);
  }
}
