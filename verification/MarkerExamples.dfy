/** A concrete file that the round trip changes, and the lines that concrete files are made of. */
module MarkerExamples {
  import opened Whitespace
  import opened MarkerLines
  import opened MarkerTree
  import opened MarkersOff
  import opened MarkerWalk
  import opened MarkersOn
  import opened MarkerCheck

  const HEAD: string := "with region():\n"
  const WORD: string := "work()\n"

  function Line(col: nat, w: string): string { Pad(col) + w }

  // ---------------------------------------------------------------- the lines are good ones

  /** Starts with no white space and no comment sign, before its newline ends with `last`. */
  predicate Word(w: string, last: char) {
    |w| >= 3 && !IsSpace(w[0]) && w[0] != '#' && w[|w| - 1] == '\n' && w[|w| - 2] == last && !IsSpace(last)
  }

  lemma WordIsNoMark(col: nat, w: string, last: char)
    requires Word(w, last)
    ensures Pad(col) <= Line(col, w) && !IsBlank(Line(col, w)) && !IsOff(Line(col, w)) && !IsEnd(Line(col, w))
  {
    hide IsSpace;
    LStripPad(col, w);
    StartsWord(w);
    MarksAreWords();
    assert w[0] != OFF_MARK[0] && w[0] != END[0];
    RStripKeeps(END, w);
  }

  lemma PlainLaid(col: nat, m: nat, w: string, last: char)
    requires Word(w, last) && m <= col
    ensures var l := Line(col, w); AtMargin(l, m) && !IsBlank(l) && !IsOff(l) && !IsEnd(l)
  {
    hide IsSpace, IsBlank, IsOff, IsEnd;
    WordIsNoMark(col, w, last);
    PadPrefix(col, m, Line(col, w));
  }

  lemma {:induction false} NoBrackets(w: string)
    requires forall i :: 0 <= i < |w| ==> w[i] !in "()[]{}"
    ensures Brackets(w) == 0
  {
    if w != "" {
      NoBrackets(w[..|w| - 1]);
    }
  }

  lemma HeadIsHeader(col: nat)
    ensures HeaderOk(col, [Line(col, HEAD)])
  {
    hide IsOff, IsEnd, LStrip, RStrip, Brackets;
    WordIsNoMark(col, HEAD, ':');
    HeadCloses();
    StartsWord(HEAD);
    HeaderLineShape(col, HEAD);
    assert Line(col, HEAD)[col] == 'w';
    assert HeaderLine(col, Line(col, HEAD));
    assert [Line(col, HEAD)][1..] == [];
  }

  lemma HeadCloses()
    ensures Brackets(HEAD) == 0 && EndsWithColon(HEAD)
  {
    hide IsSpace;
    MarksAreWords();
    assert HEAD == "with region" + ("()" + ":\n");
    BracketsSplit("with region", "()" + ":\n");
    BracketsSplit("()", ":\n");
    NoBrackets("with region");
    NoBrackets(":\n");
    assert Brackets("()") == 0 by {
      assert "()"[..1] == "(" && "("[..0] == "";
    }
    ColonIsNoSpace();
    RStripNewline("with region():");
    assert HEAD == "with region():" + "\n";
  }

  lemma ColonIsNoSpace()
    ensures !IsSpace(':') && !IsSpace('w') && !IsSpace(')')
  {
  }

  lemma Words()
    ensures Word(WORD, ')') && Word("try:\n", ':') && Word("except E:\n", ':') && Word("if c:\n", ':')
  {
    ColonIsNoSpace();
    Letters();
  }

  lemma Letters()
    ensures !IsSpace('t') && !IsSpace('e') && !IsSpace('i')
  {
  }

  /** A region at column `col`, live or commented out, with one line of work in it. */
  function Small(live: bool, col: nat, alone: bool, level: nat, rest: Doc): Doc {
    Region(live, col, [Line(col, HEAD)], Plain(Line(if live then col + INDENT else col, WORD), Eof), rest,
           alone, false, level)
  }

  lemma SmallLaid(live: bool, col: nat, alone: bool, level: nat, rest: Doc, m: nat)
    requires Laid(rest, m) && m <= col && (live || alone)
    ensures Laid(Small(live, col, alone, level, rest), m)
  {
    hide AtMargin, HeaderOk, IsOff, IsEnd, Word, Line;
    HeadIsHeader(col);
    Words();
    var c := if live then col + INDENT else col;
    PlainLaid(c, if live then m else col, WORD, ')');
    assert Laid(Plain(Line(c, WORD), Eof), if live then m else col);
  }

  lemma LiveInOnly(d: Doc, q: Path)
    requires d.Region? && d.rest.Eof? && LiveAt(d, q)
    ensures q.Here? || (q.InBody? && LiveAt(d.body, q.way))
  {
  }

  lemma LiveInSmall(live: bool, col: nat, alone: bool, level: nat, rest: Doc, q: Path)
    ensures LiveAt(Small(live, col, alone, level, rest), q) <==>
            (live && q.Here?) || (q.InRest? && LiveAt(rest, q.way))
  {
    hide Line;
    if q.InBody? && q.way.InRest? {
      assert !LiveAt(Eof, q.way.way);
    }
  }

  /** A lone region whose body is indented by four may be turned off. */
  lemma DeepMay(r: Doc)
    requires r.Region? && r.alone && !r.strings && Laid(r.body, r.col + INDENT)
    ensures MayTurnOff(r)
  {
    hide Laid, Text, AllAtMargin;
    LaidAtMargin(r.body, r.col + INDENT);
    MayMeans(r);
  }

  lemma SmallMay(col: nat, level: nat, rest: Doc)
    ensures MayTurnOff(Small(true, col, true, level, rest))
  {
    hide AtMargin, IsOff, IsEnd, Word, Line, MayTurnOff;
    Words();
    PlainLaid(col + INDENT, col + INDENT, WORD, ')');
    DeepMay(Small(true, col, true, level, rest));
  }

  // ---------------------------------------------------------------- a file the round trip changes

  /** A region whose first statement is a region. */
  function Nested(): Doc {
    Region(true, 0, [Line(0, HEAD)], Small(true, INDENT, true, 0, Eof), Eof, true, false, 0)
  }

  /** Commenting `Nested` out and putting it back does not give it back. */
  lemma NestedChanges()
    ensures Laid(Nested(), 0) && AllLive(Nested()) && AllMay(Nested())
    ensures TurnOn(Text(Off(Nested(), []).0)) != Text(Nested())
  {
    hide HeaderOk, Line, Off, TurnOn, Text, NothingMissed, Small;
    var d := Nested();
    HeadIsHeader(0);
    SmallLaid(true, INDENT, true, 0, Eof, 0);
    SmallLaid(true, INDENT, true, 0, Eof, INDENT);
    NestedMay();
    AllTurnedOff(d);
    RestoredIffSource(d);
  }

  lemma NestedMay()
    ensures AllLive(Nested()) && AllMay(Nested()) && !SourceOk(Nested())
  {
    hide HeaderOk, Line, MayTurnOff;
    SmallLaid(true, INDENT, true, 0, Eof, INDENT);
    SmallMay(INDENT, 0, Eof);
    DeepMay(Nested());
    forall q | LiveAt(Nested(), q) ensures MayTurnOff(NodeAt(Nested(), q)) {
      LiveInOnly(Nested(), q);
      if q.InBody? {
        LiveInSmall(true, INDENT, true, 0, Eof, q.way);
      }
    }
  }

  // ---------------------------------------------------------------- one region, line by line

  lemma NoPad(w: string)
    ensures Line(0, w) == w
  {
  }

  lemma FourBlanks(w: string)
    ensures Pad(4) == "    " && Line(4, w) == "    " + w
  {
    assert Pad(4)[..] == "    ";
  }

  /** The lines of a file with one region, live and commented out. */
  lemma OneRegion()
    ensures Text(Small(true, 0, true, 0, Eof)) == ["with region():\n", "    work()\n"]
    ensures Text(Small(false, 0, true, 0, Eof)) == ["# perfmark:off with region():\n", "work()\n", "# perfmark:end\n"]
    ensures TurnOffAt(Small(true, 0, true, 0, Eof), Here) == Small(false, 0, true, 0, Eof)
  {
    hide Pad, Line;
    NoPad(HEAD);
    NoPad(WORD);
    FourBlanks(WORD);
    OneRegionDedents();
    OneRegionMarks();
    assert OffLines(0, [HEAD]) == [OffLine(0, HEAD)];
  }

  lemma OneRegionMarks()
    ensures OffLine(0, HEAD) == "# perfmark:off with region():\n" && EndLine(0) == "# perfmark:end\n"
  {
    assert Pad(0) == "";
  }

  lemma OneRegionDedents()
    ensures DedentLine("    work()\n") == "work()\n" && Line(INDENT, WORD) == "    work()\n"
  {
    FourBlanks(WORD);
    Words();
    WordIsNoMark(INDENT, WORD, ')');
  }
}
