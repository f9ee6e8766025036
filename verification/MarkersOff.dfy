/** Commenting regions out, one at a time, until none is left that may be. */
module MarkersOff {
  import opened Options
  import opened Whitespace
  import opened MarkerLines
  import opened MarkerTree

  /** The way to a region: down a body, or on to what follows. */
  datatype Path = Here | InBody(way: Path) | InRest(way: Path)

  predicate LiveAt(d: Doc, p: Path)
    decreases p
  {
    match d
    case Eof => false
    case Plain(_, rest) => p.InRest? && LiveAt(rest, p.way)
    case Region(live, _, _, body, rest, _, _, _) =>
      match p
      case Here => live
      case InBody(q) => LiveAt(body, q)
      case InRest(q) => LiveAt(rest, q)
  }

  function NodeAt(d: Doc, p: Path): (r: Doc)
    requires LiveAt(d, p)
    ensures r.Region? && r.live
    decreases p
  {
    match p
    case Here => d
    case InBody(q) => NodeAt(d.body, q)
    case InRest(q) => NodeAt(d.rest, q)
  }

  /** The text of a line or region by itself. */
  function ItemText(d: Doc): seq<string>
    requires !d.Eof?
  {
    match d
    case Plain(t, _) => [t]
    case Region(live, col, header, body, _, _, _, _) =>
      if live then header + Text(body) else OffLines(col, header) + Text(body) + [EndLine(col)]
  }

  function HeadText(d: Doc): seq<string>
    requires d.Region?
  {
    if d.live then d.header else OffLines(d.col, d.header)
  }

  function TailText(d: Doc): seq<string>
    requires d.Region?
  {
    if d.live then [] else [EndLine(d.col)]
  }

  /** The lines before the region at `p`, and after it. */
  function Before(d: Doc, p: Path): seq<string>
    requires LiveAt(d, p)
    decreases p
  {
    match p
    case Here => []
    case InBody(q) => HeadText(d) + Before(d.body, q)
    case InRest(q) => ItemText(d) + Before(d.rest, q)
  }

  function After(d: Doc, p: Path): seq<string>
    requires LiveAt(d, p)
    decreases p
  {
    match p
    case Here => Text(d.rest)
    case InBody(q) => After(d.body, q) + (TailText(d) + Text(d.rest))
    case InRest(q) => After(d.rest, q)
  }

  function TurnOffAt(d: Doc, p: Path): Doc
    requires LiveAt(d, p)
    decreases p
  {
    match p
    case Here => d.(live := false, body := DedentDoc(d.body))
    case InBody(q) => d.(body := TurnOffAt(d.body, q))
    case InRest(q) => d.(rest := TurnOffAt(d.rest, q))
  }

  lemma RegionText(d: Doc)
    requires d.Region?
    ensures Text(d) == HeadText(d) + (Text(d.body) + (TailText(d) + Text(d.rest)))
  {
    hide EndLine;
  }

  lemma ItemThenRest(d: Doc)
    requires !d.Eof?
    ensures Text(d) == ItemText(d) + Text(d.rest)
  {
    hide EndLine;
  }

  lemma Regroup(a: seq<string>, b: seq<string>, c: seq<string>, x: seq<string>, e: seq<string>)
    ensures a + ((b + c + x) + e) == (a + b) + c + (x + e)
    ensures a + (b + c + x) == (a + b) + c + x
  {
  }

  /** The text around the region stays; the region's own text is all that changes. */
  lemma {:induction false} TextAround(d: Doc, p: Path)
    requires LiveAt(d, p)
    ensures Text(d) == Before(d, p) + ItemText(NodeAt(d, p)) + After(d, p)
    ensures Text(TurnOffAt(d, p)) == Before(d, p) + ItemText(TurnOffAt(NodeAt(d, p), Here)) + After(d, p)
    decreases p, 0
  {
    hide Text, ItemText, HeadText, TailText, DedentDoc;
    match p
    case Here =>
      ItemThenRest(d);
      ItemThenRest(TurnOffAt(d, p));
      assert [] + ItemText(d) == ItemText(d);
      assert [] + ItemText(TurnOffAt(d, Here)) == ItemText(TurnOffAt(d, Here));
    case InBody(q) =>
      AroundBody(d, q);
    case InRest(q) =>
      TextAround(d.rest, q);
      ItemThenRest(d);
      var d' := TurnOffAt(d, p);
      ItemThenRest(d');
      SameItem(d, TurnOffAt(d.rest, q));
      var n := NodeAt(d.rest, q);
      Regroup(ItemText(d), Before(d.rest, q), ItemText(n), After(d.rest, q), []);
      Regroup(ItemText(d), Before(d.rest, q), ItemText(TurnOffAt(n, Here)), After(d.rest, q), []);
  }

  lemma SameItem(d: Doc, rest: Doc)
    requires !d.Eof?
    ensures ItemText(d.(rest := rest)) == ItemText(d)
  {
  }

  lemma AroundBody(d: Doc, q: Path)
    requires d.Region? && LiveAt(d.body, q)
    ensures var p := InBody(q);
            && Text(d) == Before(d, p) + ItemText(NodeAt(d, p)) + After(d, p)
            && Text(TurnOffAt(d, p)) == Before(d, p) + ItemText(TurnOffAt(NodeAt(d, p), Here)) + After(d, p)
    decreases q, 1
  {
    hide Text, ItemText, DedentDoc;
    TextAround(d.body, q);
    RegionText(d);
    var d' := TurnOffAt(d, InBody(q));
    RegionText(d');
    assert HeadText(d') == HeadText(d) && TailText(d') == TailText(d);
    var n := NodeAt(d.body, q);
    Regroup(HeadText(d), Before(d.body, q), ItemText(n), After(d.body, q), TailText(d) + Text(d.rest));
    Regroup(HeadText(d), Before(d.body, q), ItemText(TurnOffAt(n, Here)), After(d.body, q), TailText(d) + Text(d.rest));
  }

  // ---------------------------------------------------------------- what stays true of the tree

  /** At margin `m`, the tree's text shows whether it is laid out deeper. */
  lemma {:induction false} LaidTighter(d: Doc, m: nat, n: nat)
    requires Laid(d, m) && AllAtMargin(Text(d), n)
    ensures Laid(d, n)
    decreases d
  {
    hide IsOff, IsEnd, AtMargin, EndLine;
    match d
    case Eof =>
    case Plain(t, rest) =>
      assert Text(d)[0] == t;
      TailAtMargin([t], Text(rest), n);
      LaidTighter(rest, m, n);
    case Region(live, col, header, body, rest, _, _, _) =>
      RegionText(d);
      PartsAtMargin(HeadText(d), Text(body), TailText(d), Text(rest), n);
      LaidTighter(rest, m, n);
      FirstLineMargin(d, n);
      if live {
        LaidTighter(body, m, n);
      }
  }

  lemma TailAtMargin(a: seq<string>, b: seq<string>, n: nat)
    requires AllAtMargin(a + b, n)
    ensures AllAtMargin(a, n) && AllAtMargin(b, n)
  {
    hide AtMargin;
    forall i | 0 <= i < |a| ensures AtMargin(a[i], n) {
      assert a[i] == (a + b)[i];
    }
    forall i | 0 <= i < |b| ensures AtMargin(b[i], n) {
      assert b[i] == (a + b)[|a| + i];
    }
  }

  lemma PartsAtMargin(a: seq<string>, b: seq<string>, c: seq<string>, e: seq<string>, n: nat)
    requires AllAtMargin(a + (b + (c + e)), n)
    ensures AllAtMargin(a, n) && AllAtMargin(b, n) && AllAtMargin(e, n)
  {
    hide AllAtMargin;
    TailAtMargin(a, b + (c + e), n);
    TailAtMargin(b, c + e, n);
    TailAtMargin(c, e, n);
  }

  lemma FirstLineMargin(d: Doc, n: nat)
    requires d.Region? && HeaderOk(d.col, d.header) && AllAtMargin(HeadText(d), n)
    ensures n <= d.col
  {
    hide LStrip, IsSpace, IsOff, IsEnd, HeaderLength;
    var l := HeadText(d)[0];
    BlankIsSpace();
    MarksAreWords();
    OffLineStrips(d.col, d.header[0]);
    assert AtMargin(l, n) && !IsBlank(l);
    PadReach(l, n, d.col);
  }

  lemma PadReach(l: string, n: nat, col: nat)
    requires Pad(n) <= l && |l| > col && !IsSpace(l[col])
    ensures n <= col
  {
    assert forall i :: 0 <= i < n ==> l[i] == Pad(n)[i];
  }

  lemma {:induction false} TurnOffKeeps(d: Doc, p: Path, m: nat)
    requires LiveAt(d, p) && Laid(d, m)
    requires var r := NodeAt(d, p); r.alone && !r.strings && AllAtMargin(Text(r.body), r.col + INDENT)
    ensures Laid(TurnOffAt(d, p), m)
    ensures AllOn(TurnOffAt(d, p)) == AllOn(d)
    ensures CountLive(TurnOffAt(d, p)) == CountLive(d) - 1 && CountOff(TurnOffAt(d, p)) == CountOff(d) + 1
    decreases p
  {
    hide HeaderOk, IsOff, IsEnd, AtMargin, AllAtMargin, DedentDoc, IndentDoc;
    match p
    case Here =>
      LaidTighter(d.body, m, d.col + INDENT);
      TextDedents(d.body, d.col);
      AllOnDedents(d.body, d.col);
      AllOnLaid(d.body, d.col + INDENT);
      IndentDedentDoc(AllOn(d.body), d.col);
      DedentCounts(d.body);
    case InBody(q) => TurnOffKeeps(d.body, q, if d.live then m else d.col);
    case InRest(q) => TurnOffKeeps(d.rest, q, m);
  }

  // ---------------------------------------------------------------- the regions of a parsed source

  /** A live region as the parser reports it: first line, column, the line after its last, and its depth in the tree. */
  datatype Target = Target(path: Path, line: nat, col: nat, last: nat, depth: nat, alone: bool, strings: bool)

  function Under(ts: seq<Target>, body: bool): (r: seq<Target>)
    ensures |r| == |ts|
    ensures forall i :: 0 <= i < |ts| ==>
              r[i] == ts[i].(path := if body then InBody(ts[i].path) else InRest(ts[i].path))
  {
    seq(|ts|, i requires 0 <= i < |ts| => ts[i].(path := if body then InBody(ts[i].path) else InRest(ts[i].path)))
  }

  /** The depth of what encloses the body's statements: the region, or what it was spliced into. */
  function Inner(d: Doc, base: nat): nat
    requires d.Region?
  {
    if d.live then base + d.level + 1 else base + d.level
  }

  function Own(d: Doc, at: nat, base: nat): seq<Target>
    requires d.Region?
  {
    if d.live
    then [Target(Here, at, d.col, at + |d.header| + |Text(d.body)|, base + d.level + 1, d.alone, d.strings)] else []
  }

  /** The live regions of a tree whose text starts at line `at`, inside statements of depth `base`. */
  function Targets(d: Doc, at: nat, base: nat): (ts: seq<Target>) {
    match d
    case Eof => []
    case Plain(_, rest) => Under(Targets(rest, at + 1, base), false)
    case Region(live, col, header, body, rest, alone, strings, level) =>
      Own(d, at, base)
      + Under(Targets(body, at + |header|, Inner(d, base)), true)
      + Under(Targets(rest, NextLine(d, at), base), false)
  }

  /** What the parser says of a target is what the tree has at its path. */
  predicate Describes(t: Target, d: Doc, at: nat) {
    && LiveAt(d, t.path)
    && var r := NodeAt(d, t.path);
    && t.line == at + |Before(d, t.path)| && t.col == r.col && t.alone == r.alone && t.strings == r.strings
    && t.last == t.line + |r.header| + |Text(r.body)|
  }

  /** Where the text after an item starts. */
  function NextLine(d: Doc, at: nat): nat
    requires !d.Eof?
  {
    at + |ItemText(d)|
  }

  lemma TargetsParts(d: Doc, at: nat, base: nat)
    requires d.Region?
    ensures Targets(d, at, base) ==
            Own(d, at, base)
            + Under(Targets(d.body, at + |d.header|, Inner(d, base)), true)
            + Under(Targets(d.rest, NextLine(d, at), base), false)
  {
    hide Own, Under, NextLine, Text, ItemText;
  }

  lemma InThree<T>(a: seq<T>, b: seq<T>, c: seq<T>, i: nat)
    requires i < |a + b + c|
    ensures (a + b + c)[i] == if i < |a| then a[i] else if i - |a| < |b| then b[i - |a|] else c[i - |a| - |b|]
  {
  }

  lemma TargetsOfRegion(d: Doc, at: nat, base: nat, i: nat)
    requires d.Region? && i < |Targets(d, at, base)|
    ensures var a := |Own(d, at, base)|;
            var ts, us := Targets(d.body, at + |d.header|, Inner(d, base)), Targets(d.rest, NextLine(d, at), base);
            && |Targets(d, at, base)| == a + |ts| + |us|
            && (i < a ==> Targets(d, at, base)[i] == Own(d, at, base)[i])
            && (a <= i < a + |ts| ==> Targets(d, at, base)[i] == ts[i - a].(path := InBody(ts[i - a].path)))
            && (a + |ts| <= i ==> Targets(d, at, base)[i] == us[i - a - |ts|].(path := InRest(us[i - a - |ts|].path)))
  {
    hide Targets, Inner, Own, NextLine, Text, ItemText;
    TargetsParts(d, at, base);
    InThree(Own(d, at, base), Under(Targets(d.body, at + |d.header|, Inner(d, base)), true),
            Under(Targets(d.rest, NextLine(d, at), base), false), i);
  }

  lemma {:induction false} TargetsDescribe(d: Doc, at: nat, base: nat, i: nat)
    requires i < |Targets(d, at, base)|
    ensures Describes(Targets(d, at, base)[i], d, at)
    decreases d, 1
  {
    hide Text, ItemText, Describes, NextLine;
    match d
    case Eof =>
    case Plain(t, rest) =>
      TargetsDescribe(rest, at + 1, base, i);
      DescribesLine(Targets(rest, at + 1, base)[i], d, at);
    case Region(live, _, header, body, rest, _, _, _) =>
      RegionDescribes(d, at, base, i);
  }

  lemma RegionDescribes(d: Doc, at: nat, base: nat, i: nat)
    requires d.Region? && i < |Targets(d, at, base)|
    ensures Describes(Targets(d, at, base)[i], d, at)
    decreases d, 0
  {
    hide Text, ItemText, Describes, NextLine, Targets, Inner, Own;
    TargetsOfRegion(d, at, base, i);
    var a := |Own(d, at, base)|;
    var ts, us := Targets(d.body, at + |d.header|, Inner(d, base)), Targets(d.rest, NextLine(d, at), base);
    if i < a {
      DescribesHere(d, at, base, i);
    } else if i - a < |ts| {
      TargetsDescribe(d.body, at + |d.header|, Inner(d, base), i - a);
      DescribesBody(ts[i - a], d, at);
    } else {
      TargetsDescribe(d.rest, NextLine(d, at), base, i - a - |ts|);
      DescribesRest(us[i - a - |ts|], d, at);
    }
  }

  /** Statements around the region at `p`, it included: of each region on the way the `level` others, and it if live. */
  function Depth(d: Doc, p: Path): nat
    requires LiveAt(d, p)
    decreases p
  {
    match p
    case Here => d.level + 1
    case InBody(q) => d.level + (if d.live then 1 else 0) + Depth(d.body, q)
    case InRest(q) => Depth(d.rest, q)
  }

  /** A target's depth is the number of statements around it in the file as it stands. */
  lemma {:induction false} TargetsDepth(d: Doc, at: nat, base: nat, i: nat)
    requires i < |Targets(d, at, base)|
    ensures var t := Targets(d, at, base)[i]; LiveAt(d, t.path) && t.depth == base + Depth(d, t.path)
    decreases d
  {
    hide Text, ItemText, NextLine;
    match d
    case Eof =>
    case Plain(t, rest) =>
      TargetsDepth(rest, at + 1, base, i);
    case Region(live, _, header, body, rest, _, _, level) =>
      TargetsOfRegion(d, at, base, i);
      var a := |Own(d, at, base)|;
      var m := |Targets(body, at + |header|, Inner(d, base))|;
      if i < a {
      } else if i - a < m {
        TargetsDepth(body, at + |header|, Inner(d, base), i - a);
      } else {
        TargetsDepth(rest, NextLine(d, at), base, i - a - m);
      }
  }

  lemma DescribesLine(t: Target, d: Doc, at: nat)
    requires d.Plain? && Describes(t, d.rest, at + 1)
    ensures Describes(t.(path := InRest(t.path)), d, at)
  {
    hide Text;
  }

  lemma DescribesHere(d: Doc, at: nat, base: nat, i: nat)
    requires d.Region? && i < |Own(d, at, base)|
    ensures Describes(Own(d, at, base)[i], d, at)
  {
    hide Text;
  }

  lemma DescribesBody(t: Target, d: Doc, at: nat)
    requires d.Region? && Describes(t, d.body, at + |d.header|)
    ensures Describes(t.(path := InBody(t.path)), d, at)
  {
    hide Text;
  }

  lemma DescribesRest(t: Target, d: Doc, at: nat)
    requires !d.Eof? && Describes(t, d.rest, NextLine(d, at))
    ensures Describes(t.(path := InRest(t.path)), d, at)
  {
    hide Text, ItemText;
  }

  /** Every live region is among the targets. */
  lemma {:induction false} LiveIsTarget(d: Doc, at: nat, base: nat, p: Path) returns (i: nat)
    requires LiveAt(d, p)
    ensures i < |Targets(d, at, base)| && Targets(d, at, base)[i].path == p
    decreases p
  {
    hide Text, ItemText, NextLine;
    match p
    case Here =>
      i := 0;
    case InBody(q) =>
      i := LiveIsTarget(d.body, at + |d.header|, Inner(d, base), q);
      i := BodyTarget(d, at, base, i);
    case InRest(q) =>
      if d.Plain? {
        i := LiveIsTarget(d.rest, at + 1, base, q);
      } else {
        i := LiveIsTarget(d.rest, NextLine(d, at), base, q);
        i := RestTarget(d, at, base, i);
      }
  }

  lemma BodyTarget(d: Doc, at: nat, base: nat, i: nat) returns (j: nat)
    requires d.Region? && i < |Targets(d.body, at + |d.header|, Inner(d, base))|
    ensures j < |Targets(d, at, base)|
    ensures Targets(d, at, base)[j].path == InBody(Targets(d.body, at + |d.header|, Inner(d, base))[i].path)
  {
    hide Targets, Inner, Own, NextLine, Text, ItemText;
    TargetsParts(d, at, base);
    j := |Own(d, at, base)| + i;
    TargetsOfRegion(d, at, base, j);
  }

  lemma RestTarget(d: Doc, at: nat, base: nat, i: nat) returns (j: nat)
    requires d.Region? && i < |Targets(d.rest, NextLine(d, at), base)|
    ensures j < |Targets(d, at, base)|
    ensures Targets(d, at, base)[j].path == InRest(Targets(d.rest, NextLine(d, at), base)[i].path)
  {
    hide Targets, Inner, Own, NextLine, Text, ItemText;
    TargetsParts(d, at, base);
    j := |Own(d, at, base)| + |Targets(d.body, at + |d.header|, Inner(d, base))| + i;
    TargetsOfRegion(d, at, base, j);
  }

  // ---------------------------------------------------------------- the rewriting loop

  type Key = (nat, nat)

  datatype Reason = SharesItsWith | HoldsMultiLineString | NotIndented

  /** A refusal: the line and column it is remembered under, why, and which region it was. */
  datatype Note = Note(key: Key, reason: Reason, region: Path)

  function KeyOf(t: Target): Key { (t.line, t.col) }

  predicate Skipped(notes: seq<Note>, key: Key) {
    exists i :: 0 <= i < |notes| && notes[i].key == key
  }

  /** How many targets have not been skipped yet. */
  function Pending(ts: seq<Target>, notes: seq<Note>): nat {
    if ts == [] then 0 else
      var m := |ts| - 1;
      Pending(ts[..m], notes) + if Skipped(notes, KeyOf(ts[m])) then 0 else 1
  }

  lemma {:induction false} SkippingProgresses(ts: seq<Target>, notes: seq<Note>, note: Note)
    ensures Pending(ts, notes + [note]) <= Pending(ts, notes)
    ensures !Skipped(notes, note.key) && (exists i :: 0 <= i < |ts| && KeyOf(ts[i]) == note.key) ==>
              Pending(ts, notes + [note]) < Pending(ts, notes)
  {
    hide KeyOf;
    if ts != [] {
      var m := |ts| - 1;
      SkippingProgresses(ts[..m], notes, note);
      SkippedGrows(notes, note, KeyOf(ts[m]));
      if exists i :: 0 <= i < |ts| && KeyOf(ts[i]) == note.key {
        var i :| 0 <= i < |ts| && KeyOf(ts[i]) == note.key;
        assert i < m ==> ts[..m][i] == ts[i];
      }
    }
  }

  lemma SkippedGrows(notes: seq<Note>, note: Note, key: Key)
    ensures Skipped(notes + [note], key) <==> Skipped(notes, key) || key == note.key
  {
    if Skipped(notes, key) {
      var i :| 0 <= i < |notes| && notes[i].key == key;
      assert (notes + [note])[i].key == key;
    }
    assert (notes + [note])[|notes|] == note;
  }

  /** The first live region of the breadth-first walk whose line and column are not among the notes. */
  function First(ts: seq<Target>, notes: seq<Note>): (t: Option<Target>)
    ensures t == None ==> forall i :: 0 <= i < |ts| ==> Skipped(notes, KeyOf(ts[i]))
    ensures t.Some? ==> t.value in ts && !Skipped(notes, KeyOf(t.value))
  {
    if ts == [] then None else
      var m := |ts| - 1;
      var best := First(ts[..m], notes);
      if Skipped(notes, KeyOf(ts[m])) then best
      else if best == None || ts[m].depth < best.value.depth then Some(ts[m])
      else best
  }

  method Walk(ts: seq<Target>, notes: seq<Note>) returns (t: Option<Target>)
    ensures t == First(ts, notes)
  {
    hide Skipped, KeyOf;
    t := None;
    var i := 0;
    while i < |ts|
      invariant i <= |ts| && t == First(ts[..i], notes)
    {
      assert ts[..i + 1][..i] == ts[..i];
      if !Skipped(notes, KeyOf(ts[i])) && (t == None || ts[i].depth < t.value.depth) {
        t := Some(ts[i]);
      }
      i := i + 1;
    }
    assert ts[..i] == ts;
  }

  /** Why a region must stay, if it must. */
  function Refusal(r: Doc): Option<Reason>
    requires r.Region?
  {
    if !r.alone then Some(SharesItsWith)
    else if r.strings then Some(HoldsMultiLineString)
    else if !AllAtMargin(Text(r.body), r.col + INDENT) then Some(NotIndented)
    else None
  }

  predicate MayTurnOff(r: Doc)
    requires r.Region?
  {
    Refusal(r) == None
  }

  lemma MayMeans(r: Doc)
    requires r.Region?
    ensures MayTurnOff(r) <==> r.alone && !r.strings && AllAtMargin(Text(r.body), r.col + INDENT)
  {
    hide AllAtMargin;
  }

  /** The tree and the notes at the end of the walk that stands at `d` with `notes`. */
  function Off(d: Doc, notes: seq<Note>): (r: (Doc, seq<Note>))
    requires Laid(d, 0)
    decreases CountLive(d), Pending(Targets(d, 0, 0), notes)
  {
    match First(Targets(d, 0, 0), notes)
    case None => (d, notes)
    case Some(t) =>
      TargetProgress(d, notes, t);
      match Refusal(NodeAt(d, t.path))
      case Some(reason) => Off(d, notes + [Note(KeyOf(t), reason, t.path)])
      case None => Off(TurnOffAt(d, t.path), notes)
  }

  /** Either way the walk gets on. */
  lemma TargetProgress(d: Doc, notes: seq<Note>, t: Target)
    requires Laid(d, 0) && t in Targets(d, 0, 0) && !Skipped(notes, KeyOf(t))
    ensures LiveAt(d, t.path) && Describes(t, d, 0)
    ensures forall note: Note :: note.key == KeyOf(t) ==>
              Pending(Targets(d, 0, 0), notes + [note]) < Pending(Targets(d, 0, 0), notes)
    ensures MayTurnOff(NodeAt(d, t.path)) ==>
              var d' := TurnOffAt(d, t.path);
              Laid(d', 0) && AllOn(d') == AllOn(d) && CountLive(d') < CountLive(d) && CountOff(d') == CountOff(d) + 1
  {
    hide Laid, Text, Targets, CountLive, CountOff, AllOn, Skipped, KeyOf, Pending, Describes, MayTurnOff, TurnOffAt;
    var ts := Targets(d, 0, 0);
    var i :| 0 <= i < |ts| && ts[i] == t;
    TargetsDescribe(d, 0, 0, i);
    DescribesLive(t, d, 0);
    forall note: Note | note.key == KeyOf(t) ensures Pending(ts, notes + [note]) < Pending(ts, notes) {
      assert KeyOf(ts[i]) == note.key;
      SkippingProgresses(ts, notes, note);
    }
    if MayTurnOff(NodeAt(d, t.path)) {
      MayMeans(NodeAt(d, t.path));
      TurnOffKeeps(d, t.path, 0);
    }
  }

  lemma DescribesLive(t: Target, d: Doc, at: nat)
    requires Describes(t, d, at)
    ensures LiveAt(d, t.path)
  {
    hide Text;
  }

  /** The body one level out, unless a line is not indented by four. */
  method DedentBody(lines: seq<string>, col: nat) returns (body: Option<seq<string>>)
    ensures body.Some? <==> AllAtMargin(lines, col + INDENT)
    ensures body.Some? ==> body.value == DedentAll(lines)
  {
    hide IsBlank, IsSpace;
    var out: seq<string> := [];
    var i := 0;
    while i < |lines|
      invariant i <= |lines| && |out| == i
      invariant forall j :: 0 <= j < i ==> AtMargin(lines[j], col + INDENT) && out[j] == DedentLine(lines[j])
    {
      var line := lines[i];
      if !IsBlank(line) {
        if !(Pad(col + INDENT) <= line) {
          assert !AtMargin(lines[i], col + INDENT);
          return None;
        }
        DropIsDedent(col, line);
        out := out + [Pad(col) + line[col + INDENT..]];
      } else {
        out := out + [line];
      }
      i := i + 1;
    }
    body := Some(out);
  }

  lemma DropIsDedent(col: nat, l: string)
    requires Pad(col + INDENT) <= l && !IsBlank(l)
    ensures Pad(col) + l[col + INDENT..] == DedentLine(l)
  {
    hide IsBlank;
    assert l[..col + INDENT] == Pad(col + INDENT);
    assert l == Pad(col + INDENT) + l[col + INDENT..];
    assert Pad(col + INDENT)[INDENT..] == Pad(col);
  }

  method CommentHeader(lines: seq<string>, col: nat) returns (head: seq<string>)
    ensures head == OffLines(col, lines)
  {
    hide OffLine;
    head := [];
    var i := 0;
    while i < |lines|
      invariant i <= |lines| && |head| == i && forall j :: 0 <= j < i ==> head[j] == OffLine(col, lines[j])
    {
      head := head + [OffLine(col, lines[i])];
      i := i + 1;
    }
  }

  lemma Slices(lines: seq<string>, a: seq<string>, h: seq<string>, b: seq<string>, c: seq<string>)
    requires lines == a + (h + b) + c
    ensures lines[..|a|] == a && lines[|a|..] == h + (b + c)
    ensures lines[|a|..|a| + |h|] == h && lines[|a| + |h|..|a| + |h| + |b|] == b && lines[|a| + |h| + |b|..] == c
  {
  }

  lemma HeaderFound(d: Doc, p: Path, m: nat)
    requires LiveAt(d, p) && Laid(d, m)
    ensures HeaderOk(NodeAt(d, p).col, NodeAt(d, p).header)
    decreases p
  {
    match p
    case Here =>
    case InBody(q) => HeaderFound(d.body, q, if d.live then m else d.col);
    case InRest(q) => HeaderFound(d.rest, q, m);
  }

  /**
   Region after region is commented out, in the order of the walk: the lines are the text of the
   tree the walk ends with, and putting everything back gives the tree one started with.
   */
  method TurnOff(doc0: Doc) returns (lines: seq<string>, changed: nat, notes: seq<Note>, doc: Doc)
    requires Laid(doc0, 0)
    ensures (doc, notes) == Off(doc0, [])
    ensures Laid(doc, 0) && lines == Text(doc) && AllOn(doc) == AllOn(doc0)
    ensures changed == CountOff(doc) - CountOff(doc0)
  {
    hide Laid, Text, Targets, CountLive, CountOff, AllOn, Skipped, KeyOf, Pending, First, Describes;
    doc, lines, changed, notes := doc0, Text(doc0), 0, [];
    while true
      invariant Laid(doc, 0) && lines == Text(doc) && AllOn(doc) == AllOn(doc0)
      invariant changed == CountOff(doc) - CountOff(doc0)
      invariant Off(doc, notes) == Off(doc0, [])
      decreases CountLive(doc), Pending(Targets(doc, 0, 0), notes)
    {
      var found := Walk(Targets(doc, 0, 0), notes);
      if found == None {
        return;
      }
      var t := found.value;
      TargetProgress(doc, notes, t);
      var outcome := Rewrite(lines, doc, t);
      match outcome
      case Refused(reason) =>
        notes := notes + [Note(KeyOf(t), reason, t.path)];
      case Rewritten(src) =>
        lines, doc, changed := src, TurnOffAt(doc, t.path), changed + 1;
    }
  }

  datatype Outcome = Refused(reason: Reason) | Rewritten(src: seq<string>)

  /** What the file has at a target: its header up to the colon, its body, and the lines around. */
  lemma SourceOf(lines: seq<string>, doc: Doc, t: Target)
    requires Laid(doc, 0) && lines == Text(doc) && t in Targets(doc, 0, 0)
    ensures LiveAt(doc, t.path)
    ensures var r := NodeAt(doc, t.path);
            && t.col == r.col && t.alone == r.alone && t.strings == r.strings
            && t.line + |r.header| <= t.last <= |lines|
            && HeaderLength(lines[t.line..], 0) == |r.header|
            && lines[t.line..t.line + |r.header|] == r.header
            && lines[t.line + |r.header|..t.last] == Text(r.body)
            && Text(TurnOffAt(doc, t.path)) == lines[..t.line] + ItemText(TurnOffAt(r, Here)) + lines[t.last..]
  {
    hide Laid, Text, Targets, HeaderLength, EndLine, Before, After, HeaderOk;
    var i :| 0 <= i < |Targets(doc, 0, 0)| && Targets(doc, 0, 0)[i] == t;
    TargetsDescribe(doc, 0, 0, i);
    var r := NodeAt(doc, t.path);
    TextAround(doc, t.path);
    HeaderFound(doc, t.path, 0);
    Slices(lines, Before(doc, t.path), r.header, Text(r.body), After(doc, t.path));
    HeaderScanned(r.col, r.header, Text(r.body) + After(doc, t.path));
  }

  lemma HeaderScanned(col: nat, header: seq<string>, rest: seq<string>)
    requires HeaderOk(col, header)
    ensures HeaderLength(header + rest, 0) == |header|
  {
    hide HeaderLength, HeaderLine;
    HeaderLengthAhead(header, rest, 0);
  }

  /** One region's lines commented out in the file, if it may be. */
  method Rewrite(lines: seq<string>, doc: Doc, t: Target) returns (outcome: Outcome)
    requires Laid(doc, 0) && lines == Text(doc) && t in Targets(doc, 0, 0)
    ensures LiveAt(doc, t.path)
    ensures match Refusal(NodeAt(doc, t.path))
            case Some(reason) => outcome == Refused(reason)
            case None => outcome.Rewritten?
    ensures outcome.Rewritten? ==> outcome.src == Text(TurnOffAt(doc, t.path))
  {
    hide Laid, Text, Targets, HeaderLength, EndLine, AllAtMargin, TurnOffAt, NodeAt;
    SourceOf(lines, doc, t);
    ghost var r := NodeAt(doc, t.path);
    if !t.alone {
      return Refused(SharesItsWith);
    }
    var bodyStart := t.line + HeaderLength(lines[t.line..], 0);
    if t.strings {
      return Refused(HoldsMultiLineString);
    }
    var head := CommentHeader(lines[t.line..bodyStart], t.col);
    var body := DedentBody(lines[bodyStart..t.last], t.col);
    if body == None {
      return Refused(NotIndented);
    }
    BodyDedents(doc, t.path, 0);
    NodeTurnedOff(r);
    outcome := Rewritten(lines[..t.line] + (head + body.value + [EndLine(t.col)]) + lines[t.last..]);
  }

  lemma NodeTurnedOff(r: Doc)
    requires r.Region? && r.live
    ensures ItemText(TurnOffAt(r, Here)) == OffLines(r.col, r.header) + Text(DedentDoc(r.body)) + [EndLine(r.col)]
  {
    hide Text, EndLine;
  }

  lemma BodyDedents(d: Doc, p: Path, m: nat)
    requires LiveAt(d, p) && Laid(d, m) && AllAtMargin(Text(NodeAt(d, p).body), NodeAt(d, p).col + INDENT)
    ensures Text(DedentDoc(NodeAt(d, p).body)) == DedentAll(Text(NodeAt(d, p).body))
    decreases p
  {
    match p
    case Here =>
      LaidTighter(d.body, m, d.col + INDENT);
      TextDedents(d.body, d.col);
    case InBody(q) => BodyDedents(d.body, q, if d.live then m else d.col);
    case InRest(q) => BodyDedents(d.rest, q, m);
  }
}
