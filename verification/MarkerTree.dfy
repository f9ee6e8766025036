/**
 A source file as a tree of regions, with the text it has in the file; commenting a region out
 and putting it back, on the tree.
 */
module MarkerTree {
  import opened Whitespace
  import opened MarkerLines

  /**
   Lines in order. A region has its header lines, from column `col`, and its body. Live, it is a
   `with` statement: `alone` says it has no other context manager, `strings` that its body holds a
   multi-line string, and `level` how many statements lie between it and the enclosing region or
   the module. Commented out, its body is kept as the file has it, one level out.
   */
  datatype Doc =
    | Eof
    | Plain(text: string, rest: Doc)
    | Region(live: bool, col: nat, header: seq<string>, body: Doc, rest: Doc,
             alone: bool, strings: bool, level: nat)

  function Text(d: Doc): seq<string> {
    match d
    case Eof => []
    case Plain(t, rest) => [t] + Text(rest)
    case Region(live, col, header, body, rest, _, _, _) =>
      if live then header + Text(body) + Text(rest)
      else OffLines(col, header) + Text(body) + [EndLine(col)] + Text(rest)
  }

  predicate HeaderLine(col: nat, l: string) {
    Pad(col) <= l && !IsBlank(l) && !IsOff(l) && !IsEnd(l)
  }

  /** A header starts exactly at its column, keeps its indent on every line, and ends at its colon. */
  predicate HeaderOk(col: nat, header: seq<string>) {
    && header != []
    && |header[0]| > col && !IsSpace(header[0][col])
    && (forall i :: 0 <= i < |header| ==> HeaderLine(col, header[i]))
    && HeaderLength(header, 0) == |header|
  }

  /** Laid out at margin `m`, with no marks but those of commented regions. */
  predicate Laid(d: Doc, m: nat) {
    match d
    case Eof => true
    case Plain(t, rest) => AtMargin(t, m) && !IsOff(t) && !IsEnd(t) && Laid(rest, m)
    case Region(live, col, header, body, rest, alone, strings, level) =>
      && m <= col && HeaderOk(col, header) && Laid(rest, m)
      && if live then Laid(body, m) else alone && !strings && Laid(body, col)
  }

  predicate AllLive(d: Doc) {
    match d
    case Eof => true
    case Plain(_, rest) => AllLive(rest)
    case Region(live, _, _, body, rest, _, _, _) => live && AllLive(body) && AllLive(rest)
  }

  function CountOff(d: Doc): nat {
    match d
    case Eof => 0
    case Plain(_, rest) => CountOff(rest)
    case Region(live, _, _, body, rest, _, _, _) => (if live then 0 else 1) + CountOff(body) + CountOff(rest)
  }

  function CountLive(d: Doc): nat {
    match d
    case Eof => 0
    case Plain(_, rest) => CountLive(rest)
    case Region(live, _, _, body, rest, _, _, _) => (if live then 1 else 0) + CountLive(body) + CountLive(rest)
  }

  // ---------------------------------------------------------------- one level in or out

  function DedentDoc(d: Doc): Doc {
    match d
    case Eof => Eof
    case Plain(t, rest) => Plain(DedentLine(t), DedentDoc(rest))
    case Region(live, col, header, body, rest, alone, strings, level) =>
      Region(live, if col < INDENT then 0 else col - INDENT, DedentAll(header), DedentDoc(body), DedentDoc(rest),
             alone, strings, level)
  }

  function IndentDoc(d: Doc): Doc {
    match d
    case Eof => Eof
    case Plain(t, rest) => Plain(IndentLine(t), IndentDoc(rest))
    case Region(live, col, header, body, rest, alone, strings, level) =>
      Region(live, col + INDENT, IndentAll(header), IndentDoc(body), IndentDoc(rest), alone, strings, level)
  }

  lemma SameStripSameMarks(a: string, b: string)
    requires LStrip(a) == LStrip(b)
    ensures IsOff(a) == IsOff(b) && IsEnd(a) == IsEnd(b) && IsBlank(a) == IsBlank(b)
  {
  }

  lemma HeaderLineDedents(col: nat, l: string)
    requires HeaderLine(col, l) && col >= INDENT
    ensures HeaderLine(col - INDENT, DedentLine(l))
    ensures DedentLine(OffLine(col, l)) == OffLine(col - INDENT, DedentLine(l))
    ensures DedentLine(l) == l[INDENT..]
  {
    hide IsSpace, LStrip, RStrip, IsOff, IsEnd, IsBlank, OffLine;
    PadPrefix(col, INDENT, l);
    DedentStrips(l);
    SameStripSameMarks(l, DedentLine(l));
    DedentMargin(l, col - INDENT);
    OffLineDedents(col, l);
  }

  lemma PadDrops(col: nat, x: string)
    requires col >= INDENT
    ensures (Pad(col) + x)[INDENT..] == Pad(col - INDENT) + x
  {
  }

  lemma PadGrows(col: nat, x: string)
    ensures Pad(INDENT) + (Pad(col) + x) == Pad(col + INDENT) + x
  {
  }

  lemma OffOfPadded(col: nat, t: string)
    ensures OffLine(col, Pad(col) + t) == Pad(col) + (OFF + t)
  {
    hide LStrip;
    KeptOfPadded(col, t);
  }

  lemma OffLineDedents(col: nat, l: string)
    requires Pad(col) <= l && !IsBlank(l) && col >= INDENT && DedentLine(l) == l[INDENT..]
    ensures DedentLine(OffLine(col, l)) == OffLine(col - INDENT, DedentLine(l))
  {
    hide IsSpace, LStrip, RStrip, IsBlank, OffLine, IsOff;
    var t := l[col..];
    assert l == Pad(col) + t;
    OffLineStrips(col, l);
    OffOfPadded(col, t);
    PadDrops(col, t);
    PadDrops(col, OFF + t);
    OffOfPadded(col - INDENT, t);
  }

  lemma KeptOfPadded(col: nat, t: string)
    ensures KeptPart(col, Pad(col) + t) == t
  {
    hide LStrip;
    assert (Pad(col) + t)[..col] == Pad(col);
  }

  lemma EndLineDedents(col: nat)
    requires col >= INDENT
    ensures DedentLine(EndLine(col)) == EndLine(col - INDENT)
  {
    hide IsSpace, LStrip, RStrip, IsEnd, IsBlank;
    EndLineStrips(col);
    assert Pad(col)[INDENT..] == Pad(col - INDENT);
    assert EndLine(col)[INDENT..] == Pad(col - INDENT) + (END + "\n");
  }

  lemma HeaderDedents(col: nat, header: seq<string>)
    requires HeaderOk(col, header) && col >= INDENT
    ensures HeaderOk(col - INDENT, DedentAll(header))
    ensures OffLines(col - INDENT, DedentAll(header)) == DedentAll(OffLines(col, header))
  {
    hide IsSpace, HeaderLine, DedentLine, OffLine, HeaderLength;
    forall i | 0 <= i < |header|
      ensures HeaderLine(col - INDENT, DedentLine(header[i]))
      ensures DedentLine(OffLine(col, header[i])) == OffLine(col - INDENT, DedentLine(header[i]))
    {
      HeaderLineDedents(col, header[i]);
    }
    HeaderLineDedents(col, header[0]);
    forall i | 0 <= i < |header| ensures !IsBlank(header[i]) && AtMargin(header[i], INDENT) {
      HeaderLineMargin(col, header[i], INDENT);
    }
    HeaderLengthDedent(header, 0);
  }

  lemma HeaderLineMargin(col: nat, l: string, m: nat)
    requires HeaderLine(col, l) && m <= col
    ensures !IsBlank(l) && AtMargin(l, m)
  {
    PadPrefix(col, m, l);
  }

  lemma DedentJoins(a: seq<string>, b: seq<string>)
    ensures DedentAll(a + b) == DedentAll(a) + DedentAll(b)
  {
  }

  lemma IndentJoins(a: seq<string>, b: seq<string>)
    ensures IndentAll(a + b) == IndentAll(a) + IndentAll(b)
  {
  }

  lemma PlainDedents(t: string, m: nat)
    requires AtMargin(t, m + INDENT) && !IsOff(t) && !IsEnd(t)
    ensures AtMargin(DedentLine(t), m) && !IsOff(DedentLine(t)) && !IsEnd(DedentLine(t))
  {
    hide IsSpace, LStrip, RStrip, IsOff, IsEnd, IsBlank;
    if Pad(m + INDENT) <= t {
      PadPrefix(m + INDENT, INDENT, t);
    }
    DedentStrips(t);
    SameStripSameMarks(t, DedentLine(t));
    DedentMargin(t, m);
  }

  /** Dedenting the tree dedents every line of its text, and keeps the layout. */
  lemma {:induction false} TextDedents(d: Doc, m: nat)
    requires Laid(d, m + INDENT)
    ensures Text(DedentDoc(d)) == DedentAll(Text(d)) && Laid(DedentDoc(d), m)
    decreases d
  {
    hide HeaderOk, DedentLine, AtMargin, IsOff, IsEnd, EndLine;
    match d
    case Eof =>
    case Plain(t, rest) =>
      PlainDedents(t, m);
      TextDedents(rest, m);
      DedentJoins([t], Text(rest));
      assert DedentAll([t]) == [DedentLine(t)];
    case Region(live, col, header, body, rest, _, _, _) =>
      HeaderDedents(col, header);
      TextDedents(rest, m);
      TextDedents(body, if live then m else col - INDENT);
      if live {
        DedentJoins(header, Text(body));
        DedentJoins(header + Text(body), Text(rest));
      } else {
        EndLineDedents(col);
        assert DedentAll([EndLine(col)]) == [EndLine(col - INDENT)];
        DedentJoins(OffLines(col, header), Text(body));
        DedentJoins(OffLines(col, header) + Text(body), [EndLine(col)]);
        DedentJoins(OffLines(col, header) + Text(body) + [EndLine(col)], Text(rest));
      }
  }

  lemma HeaderIndents(col: nat, header: seq<string>)
    requires HeaderOk(col, header)
    ensures HeaderOk(col + INDENT, IndentAll(header))
    ensures OffLines(col + INDENT, IndentAll(header)) == IndentAll(OffLines(col, header))
    ensures DedentAll(IndentAll(header)) == header
  {
    hide IsSpace, HeaderLine, OffLine, HeaderLength, IndentLine, DedentLine, AtMargin;
    forall i | 0 <= i < |header|
      ensures HeaderLine(col + INDENT, IndentLine(header[i]))
      ensures IndentLine(OffLine(col, header[i])) == OffLine(col + INDENT, IndentLine(header[i]))
      ensures DedentLine(IndentLine(header[i])) == header[i]
      ensures !IsBlank(IndentLine(header[i])) && AtMargin(IndentLine(header[i]), INDENT)
    {
      HeaderLineIndents(col, header[i]);
    }
    HeaderLineIndents(col, header[0]);
    HeaderLengthDedent(IndentAll(header), 0);
    assert DedentAll(IndentAll(header)) == header;
  }

  lemma HeaderLineIndents(col: nat, l: string)
    requires HeaderLine(col, l)
    ensures HeaderLine(col + INDENT, IndentLine(l))
    ensures IndentLine(OffLine(col, l)) == OffLine(col + INDENT, IndentLine(l))
    ensures IndentLine(l) == Pad(INDENT) + l && DedentLine(IndentLine(l)) == l
    ensures !IsBlank(IndentLine(l)) && AtMargin(IndentLine(l), INDENT)
  {
    hide IsSpace, LStrip, RStrip, IsOff, IsEnd, IsBlank, OffLine;
    IndentStrips(l);
    SameStripSameMarks(l, IndentLine(l));
    IndentMargin(l, col);
    OffLineIndents(col, l);
  }

  lemma OffLineIndents(col: nat, l: string)
    requires Pad(col) <= l && !IsBlank(l)
    ensures IndentLine(OffLine(col, l)) == OffLine(col + INDENT, IndentLine(l))
  {
    hide IsSpace, LStrip, RStrip, IsBlank, OffLine, IsOff;
    var t := l[col..];
    assert l == Pad(col) + t;
    OffLineStrips(col, l);
    OffOfPadded(col, t);
    PadGrows(col, t);
    PadGrows(col, OFF + t);
    OffOfPadded(col + INDENT, t);
  }

  lemma EndLineIndents(col: nat)
    ensures IndentLine(EndLine(col)) == EndLine(col + INDENT)
  {
    hide IsSpace, LStrip, RStrip, IsEnd, IsBlank;
    EndLineStrips(col);
    assert Pad(INDENT) + Pad(col) == Pad(col + INDENT);
    assert Pad(INDENT) + EndLine(col) == Pad(col + INDENT) + (END + "\n");
  }

  lemma PlainIndents(t: string, m: nat)
    requires AtMargin(t, m) && !IsOff(t) && !IsEnd(t)
    ensures AtMargin(IndentLine(t), m + INDENT) && !IsOff(IndentLine(t)) && !IsEnd(IndentLine(t))
  {
    hide IsSpace, LStrip, RStrip, IsOff, IsEnd;
    IndentStrips(t);
    SameStripSameMarks(t, IndentLine(t));
    IndentMargin(t, m);
  }

  lemma DedentIndentLine(l: string)
    ensures DedentLine(IndentLine(l)) == l
  {
    hide IsSpace, LStrip;
    IndentStrips(l);
  }

  /** Indenting the tree indents every line of its text, and keeps the layout. */
  lemma {:induction false} TextIndents(d: Doc, m: nat)
    requires Laid(d, m)
    ensures Text(IndentDoc(d)) == IndentAll(Text(d)) && Laid(IndentDoc(d), m + INDENT)
    decreases d
  {
    hide HeaderOk, IndentLine, AtMargin, IsOff, IsEnd, EndLine;
    match d
    case Eof =>
    case Plain(t, rest) =>
      PlainIndents(t, m);
      TextIndents(rest, m);
      IndentJoins([t], Text(rest));
      assert IndentAll([t]) == [IndentLine(t)];
    case Region(live, col, header, body, rest, _, _, _) =>
      HeaderIndents(col, header);
      TextIndents(rest, m);
      TextIndents(body, if live then m else col);
      if live {
        IndentJoins(header, Text(body));
        IndentJoins(header + Text(body), Text(rest));
      } else {
        EndLineIndents(col);
        assert IndentAll([EndLine(col)]) == [EndLine(col + INDENT)];
        IndentJoins(OffLines(col, header), Text(body));
        IndentJoins(OffLines(col, header) + Text(body), [EndLine(col)]);
        IndentJoins(OffLines(col, header) + Text(body) + [EndLine(col)], Text(rest));
      }
  }

  lemma {:induction false} DedentIndentDoc(d: Doc)
    ensures DedentDoc(IndentDoc(d)) == d
  {
    hide IndentLine, DedentLine;
    match d
    case Eof =>
    case Plain(t, rest) =>
      DedentIndentLine(t);
      DedentIndentDoc(rest);
    case Region(_, _, header, body, rest, _, _, _) =>
      forall i | 0 <= i < |header| ensures DedentLine(IndentLine(header[i])) == header[i] {
        DedentIndentLine(header[i]);
      }
      assert DedentAll(IndentAll(header)) == header;
      DedentIndentDoc(body);
      DedentIndentDoc(rest);
  }

  lemma MarginFourHeader(col: nat, header: seq<string>)
    requires HeaderOk(col, header) && col >= INDENT
    ensures IndentAll(DedentAll(header)) == header
  {
    hide HeaderLength, HeaderLine, AtMargin;
    forall i | 0 <= i < |header| ensures AtMargin(header[i], INDENT) {
      HeaderLineMargin(col, header[i], INDENT);
    }
    IndentDedentAll(header);
  }

  lemma MarginFourLine(t: string, m: nat)
    requires AtMargin(t, m + INDENT)
    ensures IndentLine(DedentLine(t)) == t
  {
    if Pad(m + INDENT) <= t {
      PadPrefix(m + INDENT, INDENT, t);
    }
    IndentDedentLine(t);
  }

  lemma {:induction false} IndentDedentDoc(d: Doc, m: nat)
    requires Laid(d, m + INDENT)
    ensures IndentDoc(DedentDoc(d)) == d
    decreases d
  {
    hide IndentLine, DedentLine, HeaderOk, AtMargin, IsOff, IsEnd;
    match d
    case Eof =>
    case Plain(t, rest) =>
      MarginFourLine(t, m);
      IndentDedentDoc(rest, m);
    case Region(live, col, header, body, rest, _, _, _) =>
      MarginFourHeader(col, header);
      IndentDedentDoc(body, if live then m else col - INDENT);
      IndentDedentDoc(rest, m);
  }

  lemma {:induction false} DedentCounts(d: Doc)
    ensures CountLive(DedentDoc(d)) == CountLive(d) && CountOff(DedentDoc(d)) == CountOff(d)
  {
    match d
    case Eof =>
    case Plain(_, rest) => DedentCounts(rest);
    case Region(_, _, _, body, rest, _, _, _) =>
      DedentCounts(body);
      DedentCounts(rest);
  }

  lemma {:induction false} IndentCounts(d: Doc)
    ensures CountLive(IndentDoc(d)) == CountLive(d) && CountOff(IndentDoc(d)) == CountOff(d)
  {
    match d
    case Eof =>
    case Plain(_, rest) => IndentCounts(rest);
    case Region(_, _, _, body, rest, _, _, _) =>
      IndentCounts(body);
      IndentCounts(rest);
  }

  // ---------------------------------------------------------------- everything put back

  /** The tree with every commented region back in place. */
  function AllOn(d: Doc): Doc {
    match d
    case Eof => Eof
    case Plain(t, rest) => Plain(t, AllOn(rest))
    case Region(live, col, header, body, rest, alone, strings, level) =>
      Region(true, col, header, if live then AllOn(body) else IndentDoc(AllOn(body)), AllOn(rest),
             alone, strings, level)
  }

  lemma {:induction false} IndentLive(d: Doc)
    ensures AllLive(IndentDoc(d)) == AllLive(d)
  {
    match d
    case Eof =>
    case Plain(_, rest) => IndentLive(rest);
    case Region(_, _, _, body, rest, _, _, _) =>
      IndentLive(body);
      IndentLive(rest);
  }

  lemma {:induction false} AllOnIsLive(d: Doc)
    ensures AllLive(AllOn(d))
  {
    match d
    case Eof =>
    case Plain(_, rest) => AllOnIsLive(rest);
    case Region(_, _, _, body, rest, _, _, _) =>
      AllOnIsLive(body);
      AllOnIsLive(rest);
      IndentLive(AllOn(body));
  }

  lemma {:induction false} AllOnOfLive(d: Doc)
    requires AllLive(d)
    ensures AllOn(d) == d
  {
    match d
    case Eof =>
    case Plain(_, rest) => AllOnOfLive(rest);
    case Region(_, _, _, body, rest, _, _, _) =>
      AllOnOfLive(body);
      AllOnOfLive(rest);
  }

  lemma {:induction false} LaidAtLess(d: Doc, m: nat, n: nat)
    requires Laid(d, m) && n <= m
    ensures Laid(d, n)
    decreases d
  {
    hide HeaderOk, IsOff, IsEnd;
    match d
    case Eof =>
    case Plain(t, rest) =>
      if Pad(m) <= t { PadPrefix(m, n, t); }
      LaidAtLess(rest, m, n);
    case Region(live, col, header, body, rest, _, _, _) =>
      LaidAtLess(rest, m, n);
      if live { LaidAtLess(body, m, n); }
  }

  lemma {:induction false} AllOnLaid(d: Doc, m: nat)
    requires Laid(d, m)
    ensures Laid(AllOn(d), m)
    decreases d
  {
    hide HeaderOk, IsOff, IsEnd, AtMargin;
    match d
    case Eof =>
    case Plain(t, rest) => AllOnLaid(rest, m);
    case Region(live, col, header, body, rest, _, _, _) =>
      AllOnLaid(rest, m);
      if live {
        AllOnLaid(body, m);
      } else {
        AllOnLaid(body, col);
        TextIndents(AllOn(body), col);
        LaidAtLess(IndentDoc(AllOn(body)), col + INDENT, m);
      }
  }

  lemma {:induction false} AllOnDedents(d: Doc, m: nat)
    requires Laid(d, m + INDENT)
    ensures AllOn(DedentDoc(d)) == DedentDoc(AllOn(d))
    decreases d
  {
    hide HeaderOk, IsOff, IsEnd, AtMargin, DedentLine;
    match d
    case Eof =>
    case Plain(t, rest) => AllOnDedents(rest, m);
    case Region(live, col, header, body, rest, _, _, _) =>
      AllOnDedents(rest, m);
      AllOnDedents(body, if live then m else col - INDENT);
      if !live {
        AllOnLaid(body, col);
        IndentDedentDoc(AllOn(body), col - INDENT);
        DedentIndentDoc(AllOn(body));
      }
  }

  lemma {:induction false} AllOnIndents(d: Doc)
    ensures AllOn(IndentDoc(d)) == IndentDoc(AllOn(d))
  {
    hide IndentLine;
    match d
    case Eof =>
    case Plain(_, rest) => AllOnIndents(rest);
    case Region(_, _, _, body, rest, _, _, _) =>
      AllOnIndents(body);
      AllOnIndents(rest);
  }
}
