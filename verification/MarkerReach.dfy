/**
 Where a region that is missed can be: only before a refused one, no further up than the regions
 that may be turned off before it can move it, and at a column both can come to.
 */
module MarkerReach {
  import opened Options
  import opened MarkerLines
  import opened MarkerTree
  import opened MarkersOff
  import opened MarkerWalk

  // ---------------------------------------------------------------- the order of the text

  /** Region `p` starts before region `q`. */
  predicate Precedes(p: Path, q: Path) {
    match p
    case Here => !q.Here?
    case InBody(a) => q.InRest? || (q.InBody? && Precedes(a, q.way))
    case InRest(a) => q.InRest? && Precedes(a, q.way)
  }

  /** Region `p` ends before region `q` starts. */
  predicate EndsBefore(p: Path, q: Path) {
    match p
    case Here => q.InRest?
    case InBody(a) => q.InRest? || (q.InBody? && EndsBefore(a, q.way))
    case InRest(a) => q.InRest? && EndsBefore(a, q.way)
  }

  /** Region `q` is inside region `p`. */
  predicate Encloses(p: Path, q: Path) {
    match p
    case Here => q.InBody?
    case InBody(a) => q.InBody? && Encloses(a, q.way)
    case InRest(a) => q.InRest? && Encloses(a, q.way)
  }

  lemma {:induction false} OneIsFirst(p: Path, q: Path)
    ensures p == q || Precedes(p, q) || Precedes(q, p)
  {
    match p
    case Here =>
    case InBody(a) =>
      if q.InBody? {
        OneIsFirst(a, q.way);
      }
    case InRest(a) =>
      if q.InRest? {
        OneIsFirst(a, q.way);
      }
  }

  lemma ItemLines(r: Doc)
    requires r.Region?
    ensures |ItemText(r)| == |r.header| + |Text(r.body)| + if r.live then 0 else 1
    ensures |HeadText(r)| == |r.header|
  {
    hide Text, EndLine;
  }

  lemma {:induction false} HeaderNotEmpty(d: Doc, p: Path, m: nat)
    requires LiveAt(d, p) && Laid(d, m)
    ensures |NodeAt(d, p).header| > 0
  {
    hide Laid, HeaderLength, HeaderLine;
    HeaderFound(d, p, m);
  }

  /** A region starts within the text. */
  lemma BeforeInText(d: Doc, p: Path, m: nat)
    requires LiveAt(d, p) && Laid(d, m)
    ensures |Before(d, p)| < |Text(d)|
  {
    hide Laid, Text, ItemText, Before, After;
    TextAround(d, p);
    HeaderNotEmpty(d, p, m);
    ItemLines(NodeAt(d, p));
  }

  /** Regions start in the order of their paths. */
  lemma {:induction false} InOrder(d: Doc, p: Path, q: Path, m: nat)
    requires LiveAt(d, p) && LiveAt(d, q) && Laid(d, m) && Precedes(p, q)
    ensures |Before(d, p)| < |Before(d, q)|
    decreases p
  {
    hide Text, ItemText, HeadText, HeaderOk, AtMargin, IsOff, IsEnd;
    if d.Region? {
      ItemLines(d);
    }
    match p
    case Here =>
      HeaderNotEmpty(d, p, m);
    case InBody(a) =>
      if q.InBody? {
        InOrder(d.body, a, q.way, if d.live then m else d.col);
      } else {
        BeforeInText(d.body, a, if d.live then m else d.col);
      }
    case InRest(a) =>
      InOrder(d.rest, a, q.way, m);
  }

  // ---------------------------------------------------------------- how far a region can move

  predicate LiveMay(d: Doc) { d.Region? && d.live && MayTurnOff(d) }

  function One(b: bool): nat { if b then 1 else 0 }

  /** The live regions that may be turned off. */
  function CountMay(d: Doc): nat {
    match d
    case Eof => 0
    case Plain(_, rest) => CountMay(rest)
    case Region(_, _, _, body, rest, _, _, _) => One(LiveMay(d)) + CountMay(body) + CountMay(rest)
  }

  /** Those that end before region `q` starts. */
  function MayEnded(d: Doc, q: Path): nat
    requires LiveAt(d, q)
    decreases q
  {
    match q
    case Here => 0
    case InBody(w) => MayEnded(d.body, w)
    case InRest(w) => (if d.Region? then One(LiveMay(d)) + CountMay(d.body) else 0) + MayEnded(d.rest, w)
  }

  /** Those that enclose region `q`. */
  function MayAround(d: Doc, q: Path): nat
    requires LiveAt(d, q)
    decreases q
  {
    match q
    case Here => 0
    case InBody(w) => One(LiveMay(d)) + MayAround(d.body, w)
    case InRest(w) => MayAround(d.rest, w)
  }

  function LineOf(d: Doc, q: Path): nat
    requires LiveAt(d, q)
  {
    |Before(d, q)|
  }

  function ColOf(d: Doc, q: Path): nat
    requires LiveAt(d, q)
  {
    NodeAt(d, q).col
  }

  // ---------------------------------------------------------------- dedenting moves nothing

  lemma {:induction false} DedentLength(d: Doc)
    ensures |Text(DedentDoc(d))| == |Text(d)|
  {
    hide EndLine, DedentLine;
    match d
    case Eof =>
    case Plain(_, rest) => DedentLength(rest);
    case Region(_, _, _, body, rest, _, _, _) =>
      DedentLength(body);
      DedentLength(rest);
  }

  lemma DedentItem(d: Doc)
    requires !d.Eof?
    ensures |ItemText(DedentDoc(d))| == |ItemText(d)|
    ensures d.Region? ==> |HeadText(DedentDoc(d))| == |HeadText(d)|
  {
    hide Text, EndLine, DedentLine;
    if d.Region? {
      DedentLength(d.body);
    }
  }

  lemma {:induction false} DedentLines(d: Doc, q: Path)
    requires LiveAt(d, q) && LiveAt(DedentDoc(d), q)
    ensures LineOf(DedentDoc(d), q) == LineOf(d, q)
    decreases q
  {
    hide Text, ItemText, HeadText, DedentLine;
    DedentItem(d);
    match q
    case Here =>
    case InBody(w) => DedentLines(d.body, w);
    case InRest(w) => DedentLines(d.rest, w);
  }

  lemma MayDedents(r: Doc, m: nat)
    requires r.Region? && Laid(r, m + INDENT)
    ensures LiveMay(DedentDoc(r)) == LiveMay(r)
  {
    hide Laid, Refusal;
    if r.live {
      RefusalDedents(r, m);
    }
  }

  lemma {:induction false} DedentMay(d: Doc, m: nat)
    requires Laid(d, m + INDENT)
    ensures CountMay(DedentDoc(d)) == CountMay(d)
    decreases d
  {
    hide LiveMay, HeaderOk, IsOff, IsEnd, AtMargin, DedentLine;
    match d
    case Eof =>
    case Plain(_, rest) => DedentMay(rest, m);
    case Region(live, col, _, body, rest, _, _, _) =>
      MayDedents(d, m);
      DedentMay(body, if live then m else col - INDENT);
      DedentMay(rest, m);
  }

  lemma {:induction false} DedentReach(d: Doc, q: Path, m: nat)
    requires Laid(d, m + INDENT) && LiveAt(d, q) && LiveAt(DedentDoc(d), q)
    ensures MayEnded(DedentDoc(d), q) == MayEnded(d, q) && MayAround(DedentDoc(d), q) == MayAround(d, q)
    decreases q
  {
    hide LiveMay, HeaderOk, IsOff, IsEnd, AtMargin, DedentLine;
    if d.Region? {
      MayDedents(d, m);
      DedentMay(d.body, if d.live then m else d.col - INDENT);
    }
    match q
    case Here =>
    case InBody(w) => DedentReach(d.body, w, if d.live then m else d.col - INDENT);
    case InRest(w) => DedentReach(d.rest, w, m);
  }

  // ---------------------------------------------------------------- what one rewrite moves

  lemma GrowsByOne(d: Doc, p: Path)
    requires LiveAt(d, p)
    ensures |Text(TurnOffAt(d, p))| == |Text(d)| + 1
  {
    hide Text, ItemText, Before, After, DedentDoc;
    TextAround(d, p);
    ItemLines(NodeAt(d, p));
    ItemLines(TurnOffAt(NodeAt(d, p), Here));
    DedentLength(NodeAt(d, p).body);
  }

  lemma {:induction false} FewerMay(d: Doc, p: Path, m: nat)
    requires LiveAt(d, p) && Laid(d, m) && MayTurnOff(NodeAt(d, p))
    ensures CountMay(TurnOffAt(d, p)) == CountMay(d) - 1
    decreases p
  {
    hide HeaderOk, IsOff, IsEnd, AtMargin, DedentDoc, Refusal, LiveMay;
    if d.Region? {
      MaySame(d, p, m);
    }
    match p
    case Here =>
      BodyDeep(d, m);
      DedentMay(d.body, d.col);
    case InBody(a) => FewerMay(d.body, a, if d.live then m else d.col);
    case InRest(a) => FewerMay(d.rest, a, m);
  }

  /** A rewrite inside or after a region does not change whether it may be turned off. */
  lemma MaySame(d: Doc, p: Path, m: nat)
    requires LiveAt(d, p) && Laid(d, m) && MayTurnOff(NodeAt(d, p)) && d.Region?
    ensures LiveMay(TurnOffAt(d, p)) == (LiveMay(d) && !p.Here?)
    ensures p.Here? ==> LiveMay(d)
  {
    hide Laid, Refusal;
    if !p.Here? && d.live {
      RefusalAfter(d, p, Here, m);
    }
  }

  lemma BodyDeep(d: Doc, m: nat)
    requires d.Region? && d.live && Laid(d, m) && MayTurnOff(d)
    ensures Laid(d.body, d.col + INDENT)
  {
    hide HeaderOk, IsOff, IsEnd, AtMargin, AllAtMargin, Text;
    MayMeans(d);
    LaidTighter(d.body, m, d.col + INDENT);
  }

  /** Rewriting a region moves what it encloses one level out, and down by nothing. */
  lemma MovesInside(d: Doc, w: Path, m: nat)
    requires d.Region? && d.live && LiveAt(d.body, w) && Laid(d, m) && MayTurnOff(d)
    ensures LiveAt(TurnOffAt(d, Here), InBody(w))
    ensures LineOf(TurnOffAt(d, Here), InBody(w)) == LineOf(d, InBody(w))
    ensures MayEnded(TurnOffAt(d, Here), InBody(w)) == MayEnded(d, InBody(w))
    ensures ColOf(TurnOffAt(d, Here), InBody(w)) == ColOf(d, InBody(w)) - INDENT
    ensures MayAround(TurnOffAt(d, Here), InBody(w)) == MayAround(d, InBody(w)) - 1
  {
    hide HeaderOk, IsOff, IsEnd, AtMargin, DedentDoc, Refusal, Text, ItemText, HeadText, Laid;
    BodyDeep(d, m);
    ItemLines(d);
    ItemLines(TurnOffAt(d, Here));
    LiveDedents(d.body, w);
    DedentLines(d.body, w);
    DedentReach(d.body, w, d.col);
    NodeLaid(d.body, w, d.col + INDENT);
    DedentColumn(NodeAt(d.body, w), d.col);
  }

  /** Rewriting a region, or one in its body, moves what follows one line down. */
  lemma MovesPast(d: Doc, p: Path, w: Path, m: nat)
    requires d.Region? && LiveAt(d, p) && !p.InRest? && LiveAt(d.rest, w) && Laid(d, m) && MayTurnOff(NodeAt(d, p))
    ensures LineOf(TurnOffAt(d, p), InRest(w)) == LineOf(d, InRest(w)) + 1
    ensures MayEnded(TurnOffAt(d, p), InRest(w)) == MayEnded(d, InRest(w)) - 1
  {
    hide HeaderOk, IsOff, IsEnd, AtMargin, DedentDoc, Refusal, LiveMay, Text, ItemText;
    MaySame(d, p, m);
    ItemLines(d);
    ItemLines(TurnOffAt(d, p));
    match p
    case Here =>
      BodyDeep(d, m);
      DedentLength(d.body);
      DedentMay(d.body, d.col);
    case InBody(a) =>
      GrowsByOne(d.body, a);
      FewerMay(d.body, a, if d.live then m else d.col);
  }

  /** What rewriting `p` does to another region: one line down if it ends before, one level out if it encloses. */
  lemma {:induction false} Moves(d: Doc, p: Path, q: Path, m: nat)
    requires LiveAt(d, p) && LiveAt(d, q) && p != q && Laid(d, m) && MayTurnOff(NodeAt(d, p))
    ensures LiveAt(TurnOffAt(d, p), q)
    ensures LineOf(TurnOffAt(d, p), q) == LineOf(d, q) + One(EndsBefore(p, q))
    ensures MayEnded(TurnOffAt(d, p), q) == MayEnded(d, q) - One(EndsBefore(p, q))
    ensures ColOf(TurnOffAt(d, p), q) == ColOf(d, q) - INDENT * One(Encloses(p, q))
    ensures MayAround(TurnOffAt(d, p), q) == MayAround(d, q) - One(Encloses(p, q))
    decreases p
  {
    hide HeaderOk, IsOff, IsEnd, AtMargin, DedentDoc, Refusal, LiveMay, Text, ItemText;
    LiveAfter(d, p, q);
    match p
    case Here =>
      if q.InBody? {
        MovesInside(d, q.way, m);
      } else {
        MovesPast(d, p, q.way, m);
      }
    case InBody(a) =>
      if q.InBody? {
        MaySame(d, p, m);
        ItemLines(d);
        ItemLines(TurnOffAt(d, p));
        Moves(d.body, a, q.way, if d.live then m else d.col);
      } else if q.InRest? {
        MovesPast(d, p, q.way, m);
      }
    case InRest(a) =>
      if d.Region? {
        MaySame(d, p, m);
      }
      if q.InRest? {
        Moves(d.rest, a, q.way, m);
        SameItem(d, TurnOffAt(d.rest, a));
      }
  }

  lemma DedentColumn(r: Doc, m: nat)
    requires r.Region? && Laid(r, m + INDENT)
    ensures DedentDoc(r).col == r.col - INDENT
  {
  }

  // ---------------------------------------------------------------- along the walk

  /** The last line region `q` can come to: one further for each region before it that may be turned off. */
  function LastLine(d: Doc, q: Path): nat
    requires LiveAt(d, q)
  {
    LineOf(d, q) + MayEnded(d, q)
  }

  /** The leftmost column region `q` can come to: one level out for each region around it that may be. */
  function FirstCol(d: Doc, q: Path): int
    requires LiveAt(d, q)
  {
    ColOf(d, q) - INDENT * MayAround(d, q)
  }

  /** Regions only move down and out, and where they can come to stays. */
  ghost predicate Moved(d0: Doc, d: Doc) {
    forall q :: LiveAt(d, q) ==> LiveAt(d0, q) && MovedAt(d0, d, q)
  }

  predicate MovedAt(d0: Doc, d: Doc, q: Path)
    requires LiveAt(d0, q) && LiveAt(d, q)
  {
    && LineOf(d0, q) <= LineOf(d, q) && ColOf(d, q) <= ColOf(d0, q)
    && LastLine(d, q) == LastLine(d0, q) && FirstCol(d, q) == FirstCol(d0, q)
  }

  /** A note's line and column are between its region's old ones and its present ones. */
  predicate NoteBetween(d0: Doc, d: Doc, n: Note) {
    && LiveAt(d0, n.region) && LiveAt(d, n.region)
    && LineOf(d0, n.region) <= n.key.0 <= LineOf(d, n.region)
    && ColOf(d, n.region) <= n.key.1 <= ColOf(d0, n.region)
  }

  ghost predicate NotesBetween(d0: Doc, d: Doc, notes: seq<Note>) {
    forall i :: 0 <= i < |notes| ==> NoteBetween(d0, d, notes[i])
  }

  lemma MovedOn(d0: Doc, d: Doc, p: Path)
    requires Moved(d0, d) && LiveAt(d, p) && Laid(d, 0) && MayTurnOff(NodeAt(d, p))
    ensures Moved(d0, TurnOffAt(d, p))
  {
    hide LineOf, ColOf, MayEnded, MayAround, Laid, MayTurnOff, LiveAt, TurnOffAt, NodeAt;
    var d' := TurnOffAt(d, p);
    forall q | LiveAt(d', q) ensures LiveAt(d0, q) && MovedAt(d0, d', q) {
      LiveAfter(d, p, q);
      Moves(d, p, q, 0);
    }
  }

  lemma NotesMovedOn(d0: Doc, d: Doc, p: Path, notes: seq<Note>)
    requires NotesBetween(d0, d, notes) && NotesOk(d, notes)
    requires LiveAt(d, p) && Laid(d, 0) && MayTurnOff(NodeAt(d, p))
    ensures NotesBetween(d0, TurnOffAt(d, p), notes)
  {
    hide LineOf, ColOf, MayEnded, MayAround, Laid, Refusal, LiveAt, TurnOffAt, NodeAt;
    forall i | 0 <= i < |notes| ensures NoteBetween(d0, TurnOffAt(d, p), notes[i]) {
      assert NoteBetween(d0, d, notes[i]);
      assert Refusal(NodeAt(d, notes[i].region)) == Some(notes[i].reason);
      Moves(d, p, notes[i].region, 0);
    }
  }

  lemma NoteTaken(d0: Doc, d: Doc, notes: seq<Note>, t: Target, reason: Reason)
    requires NotesBetween(d0, d, notes) && Moved(d0, d) && Describes(t, d, 0)
    ensures NotesBetween(d0, d, notes + [Note(KeyOf(t), reason, t.path)])
  {
    hide MayEnded, MayAround, Text;
    assert LiveAt(d, t.path) && MovedAt(d0, d, t.path);
  }

  lemma MovedNowhere(d: Doc)
    ensures Moved(d, d) && NotesBetween(d, d, [])
  {
    hide LiveAt, LineOf, ColOf, MayEnded, MayAround;
  }

  /** The walk's end: every region and every note within reach of where the region was. */
  lemma {:induction false} WalkReaches(d0: Doc, d: Doc, notes: seq<Note>)
    requires Laid(d, 0) && NotesOk(d, notes) && Moved(d0, d) && NotesBetween(d0, d, notes)
    ensures var (e, ns) := Off(d, notes); Moved(d0, e) && NotesBetween(d0, e, ns)
    decreases CountLive(d), Pending(Targets(d, 0, 0), notes)
  {
    hide Laid, AllOn, Targets, First, Skipped, KeyOf, CountLive, Pending, Describes, Since, NotesOk, Refusal, TurnOffAt;
    hide Moved, NotesBetween;
    match First(Targets(d, 0, 0), notes)
    case None =>
    case Some(t) =>
      TargetProgress(d, notes, t);
      match Refusal(NodeAt(d, t.path))
      case Some(reason) =>
        NoteTaken(d0, d, notes, t, reason);
        NoteAdded(d, notes, Note(KeyOf(t), reason, t.path));
        WalkReaches(d0, d, notes + [Note(KeyOf(t), reason, t.path)]);
      case None =>
        SinceTurnOff(d, t.path);
        NotesSince(d, t.path, notes);
        NotesMovedOn(d0, d, t.path, notes);
        MovedOn(d0, d, t.path);
        WalkReaches(d0, TurnOffAt(d, t.path), notes);
  }

  // ---------------------------------------------------------------- who can be missed

  predicate MayAt(d: Doc, q: Path) { LiveAt(d, q) && MayTurnOff(NodeAt(d, q)) }

  predicate RefusedAt(d: Doc, r: Path) { LiveAt(d, r) && !MayTurnOff(NodeAt(d, r)) }

  /**
   Region `q` can come to a line and column that region `r` can have been refused under: `r` is
   after it, by no more lines than there are regions before `q` that may be turned off, and at a
   column that both can come to.
   */
  predicate InReach(d: Doc, q: Path, r: Path)
    requires LiveAt(d, q) && LiveAt(d, r)
  {
    && Precedes(q, r)
    && LineOf(d, r) <= LastLine(d, q)
    && FirstCol(d, q) <= ColOf(d, r) && FirstCol(d, r) <= ColOf(d, q)
  }

  /** A region left live that may be turned off has a refused region within its reach, in the source. */
  lemma MissedIsNear(doc0: Doc, q: Path)
    requires Laid(doc0, 0) && LiveAt(Off(doc0, []).0, q) && MayTurnOff(NodeAt(Off(doc0, []).0, q))
    ensures MayAt(doc0, q) && exists r :: RefusedAt(doc0, r) && InReach(doc0, q, r)
  {
    hide Laid, AllOn, Targets, Refusal, Off, LiveAt, NodeAt, Since, NotesOk, KeyOf, LineOf, ColOf, Before;
    hide MayEnded, MayAround, Precedes;
    var (doc, notes) := Off(doc0, []);
    NoNotes(doc0);
    WalkEnds(doc0, []);
    MovedNowhere(doc0);
    WalkReaches(doc0, doc0, []);
    WhatStays(doc0, q);
    var i :| 0 <= i < |notes| && Holds(notes[i], doc0, q, KeyAt(doc, q));
    NoteIsNear(doc0, doc, q, notes[i]);
  }

  lemma NoteIsNear(d0: Doc, d: Doc, q: Path, n: Note)
    requires Laid(d, 0) && LiveAt(d0, q) && LiveAt(d, q) && Moved(d0, d) && NoteBetween(d0, d, n)
    requires Holds(n, d0, q, KeyAt(d, q)) && MayTurnOff(NodeAt(d0, q))
    ensures RefusedAt(d0, n.region) && InReach(d0, q, n.region)
  {
    hide Laid, Refusal, LiveAt, NodeAt, Before, MayEnded, MayAround, Precedes;
    var r := n.region;
    assert MovedAt(d0, d, q) && MovedAt(d0, d, r);
    OneIsFirst(q, r);
    if Precedes(r, q) {
      InOrder(d, r, q, 0);
    }
  }

  /** No region that may be turned off has a refused one within its reach. */
  ghost predicate ClearOfRefused(d: Doc) {
    forall q, r :: MayAt(d, q) && RefusedAt(d, r) ==> !InReach(d, q, r)
  }

  /** Then nothing is missed: exactly the regions that may not be turned off stay. */
  lemma NothingMissedIf(doc0: Doc)
    requires Laid(doc0, 0) && ClearOfRefused(doc0)
    ensures NothingMissed(Off(doc0, []).0) && ExactlyRefused(doc0, Off(doc0, []).0)
  {
    hide Laid, Off, LiveAt, NodeAt, MayTurnOff, InReach, ExactlyRefused, RefusedAt;
    var doc := Off(doc0, []).0;
    forall q | LiveAt(doc, q) ensures !MayTurnOff(NodeAt(doc, q)) {
      if MayTurnOff(NodeAt(doc, q)) {
        MissedIsNear(doc0, q);
      }
    }
    NothingMissedIff(doc0);
  }
}
