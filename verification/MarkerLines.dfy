/** Lines of a source file, and what commenting a region out or back in does to each of them. */
module MarkerLines {
  import opened Whitespace

  const OFF: string := "# perfmark:off "
  const OFF_MARK: string := "# perfmark:off"
  const END: string := "# perfmark:end"
  const INDENT: nat := 4

  predicate IsOff(l: string) { OFF_MARK <= LStrip(l) }

  predicate IsEnd(l: string) { Strip(l) == END }

  /** What is kept of a header line: all but the statement's own indent. */
  function KeptPart(col: nat, l: string): string {
    if Pad(col) <= l then l[col..] else LStrip(l)
  }

  function OffLine(col: nat, l: string): string {
    Pad(col) + (OFF + KeptPart(col, l))
  }

  function EndLine(col: nat): string { Pad(col) + (END + "\n") }

  /** A commented header line put back, at margin `pad`. */
  function OnLine(pad: string, l: string): string {
    pad + if |LStrip(l)| >= |OFF| then LStrip(l)[|OFF|..] else ""
  }

  /** A line of the body, one level out; blank lines stay. */
  function DedentLine(l: string): string {
    if IsBlank(l) || |l| < INDENT then l else l[INDENT..]
  }

  function IndentLine(l: string): string {
    if IsBlank(l) then l else Pad(INDENT) + l
  }

  /** Blank, or indented by at least `m`. */
  predicate AtMargin(l: string, m: nat) {
    IsBlank(l) || Pad(m) <= l
  }

  // ---------------------------------------------------------------- marks

  lemma MarksAreWords()
    ensures |OFF| == |OFF_MARK| + 1 && OFF_MARK != END && |OFF_MARK| == |END|
    ensures OFF_MARK <= OFF
    ensures !IsSpace(OFF[0]) && !IsSpace(END[0]) && !IsSpace(OFF_MARK[|OFF_MARK| - 1]) && !IsSpace(END[|END| - 1])
    ensures IsSpace('\n')
  {
    assert OFF_MARK[12] == 'f' && END[12] == 'n';
  }

  lemma StartsWord(s: string)
    requires s != "" && !IsSpace(s[0])
    ensures LStrip(s) == s
  {
  }

  lemma OffLineStrips(col: nat, l: string)
    ensures LStrip(OffLine(col, l)) == OFF + KeptPart(col, l)
    ensures IsOff(OffLine(col, l)) && !IsBlank(OffLine(col, l))
  {
    hide IsSpace, KeptPart;
    MarksAreWords();
    LStripPad(col, OFF + KeptPart(col, l));
    StartsWord(OFF + KeptPart(col, l));
  }

  lemma EndLineStrips(col: nat)
    ensures IsEnd(EndLine(col)) && !IsBlank(EndLine(col))
  {
    hide IsSpace;
    MarksAreWords();
    LStripPad(col, END + "\n");
    StartsWord(END + "\n");
    RStripNewline(END);
  }

  lemma RStripNewline(w: string)
    requires w != "" && !IsSpace(w[|w| - 1]) && IsSpace('\n')
    ensures RStrip(w + "\n") == w
  {
    hide IsSpace;
    assert (w + "\n")[..|w|] == w;
  }

  /** No line is both marks. */
  lemma OffIsNotEnd(l: string)
    requires IsOff(l)
    ensures !IsEnd(l) && !IsBlank(l)
  {
    hide IsSpace, LStrip, RStrip;
    MarksAreWords();
    RStripKeeps(OFF_MARK, LStrip(l));
  }

  /** The reader looks for the mark in the fully stripped line; it is there at the same lines. */
  lemma StrippedMark(l: string)
    ensures OFF_MARK <= Strip(l) <==> IsOff(l)
  {
    hide IsSpace, LStrip, RStrip;
    MarksAreWords();
    RStripKeeps(OFF_MARK, LStrip(l));
  }

  // ---------------------------------------------------------------- one header line, there and back

  lemma OnOffLine(col: nat, l: string)
    requires Pad(col) <= l
    ensures Margin(OffLine(col, l)) == Pad(col)
    ensures OnLine(Pad(col), OffLine(col, l)) == l
  {
    hide IsSpace;
    OffLineStrips(col, l);
    assert l == Pad(col) + l[col..];
    assert (OFF + l[col..])[|OFF|..] == l[col..];
  }

  // ---------------------------------------------------------------- one body line, there and back

  lemma PadPrefix(m: nat, n: nat, l: string)
    requires n <= m && Pad(m) <= l
    ensures Pad(n) <= l
  {
    assert Pad(n) == Pad(m)[..n];
  }

  lemma DedentStrips(l: string)
    requires AtMargin(l, INDENT)
    ensures LStrip(DedentLine(l)) == LStrip(l)
  {
    hide IsSpace;
    if !IsBlank(l) {
      assert l == Pad(INDENT) + l[INDENT..];
      LStripPad(INDENT, l[INDENT..]);
    }
  }

  lemma IndentStrips(l: string)
    ensures LStrip(IndentLine(l)) == LStrip(l)
  {
    hide IsSpace;
    if !IsBlank(l) {
      LStripPad(INDENT, l);
    }
  }

  lemma IndentDedentLine(l: string)
    requires AtMargin(l, INDENT)
    ensures IndentLine(DedentLine(l)) == l
  {
    hide IsSpace, LStrip;
    DedentStrips(l);
    if !IsBlank(l) {
      assert l == Pad(INDENT) + l[INDENT..];
    }
  }

  lemma DedentMargin(l: string, m: nat)
    requires AtMargin(l, m + INDENT)
    ensures AtMargin(DedentLine(l), m)
  {
    hide IsSpace, LStrip;
    if !IsBlank(l) {
      assert Pad(m) == Pad(m + INDENT)[INDENT..];
      assert l[..m + INDENT] == Pad(m + INDENT);
      assert l[INDENT..][..m] == l[..m + INDENT][INDENT..];
    }
  }

  lemma IndentMargin(l: string, m: nat)
    requires AtMargin(l, m)
    ensures AtMargin(IndentLine(l), m + INDENT)
  {
    hide IsSpace, LStrip;
    IndentStrips(l);
    if !IsBlank(l) {
      assert Pad(m + INDENT) == Pad(INDENT) + Pad(m);
    }
  }

  // ---------------------------------------------------------------- lists of lines

  function DedentAll(ls: seq<string>): (r: seq<string>)
    ensures |r| == |ls|
    ensures forall i :: 0 <= i < |ls| ==> r[i] == DedentLine(ls[i])
  {
    seq(|ls|, i requires 0 <= i < |ls| => DedentLine(ls[i]))
  }

  function IndentAll(ls: seq<string>): (r: seq<string>)
    ensures |r| == |ls|
    ensures forall i :: 0 <= i < |ls| ==> r[i] == IndentLine(ls[i])
  {
    seq(|ls|, i requires 0 <= i < |ls| => IndentLine(ls[i]))
  }

  predicate AllAtMargin(ls: seq<string>, m: nat) {
    forall i :: 0 <= i < |ls| ==> AtMargin(ls[i], m)
  }

  lemma IndentDedentAll(ls: seq<string>)
    requires AllAtMargin(ls, INDENT)
    ensures IndentAll(DedentAll(ls)) == ls
  {
    hide IndentLine, DedentLine, AtMargin;
    forall i | 0 <= i < |ls| ensures IndentAll(DedentAll(ls))[i] == ls[i] {
      IndentDedentLine(ls[i]);
    }
  }

  function OffLines(col: nat, header: seq<string>): (r: seq<string>)
    ensures |r| == |header|
    ensures forall i :: 0 <= i < |header| ==> r[i] == OffLine(col, header[i])
  {
    seq(|header|, i requires 0 <= i < |header| => OffLine(col, header[i]))
  }

  function OnLines(pad: string, ls: seq<string>): (r: seq<string>)
    ensures |r| == |ls|
    ensures forall i :: 0 <= i < |ls| ==> r[i] == OnLine(pad, ls[i])
  {
    seq(|ls|, i requires 0 <= i < |ls| => OnLine(pad, ls[i]))
  }

  // ---------------------------------------------------------------- where a header ends

  function Brackets(l: string): int {
    if l == "" then 0 else
      var n := |l| - 1;
      Brackets(l[..n]) +
      if l[n] == '(' || l[n] == '[' || l[n] == '{' then 1
      else if l[n] == ')' || l[n] == ']' || l[n] == '}' then -1
      else 0
  }

  predicate EndsWithColon(l: string) {
    RStrip(l) != "" && RStrip(l)[|RStrip(l)| - 1] == ':'
  }

  /** How many lines up to the first that ends with a colon with all brackets closed; 0 if none. */
  function HeaderLength(ls: seq<string>, depth: int): (n: nat)
    ensures n <= |ls|
  {
    if ls == [] then 0
    else
      var d := depth + Brackets(ls[0]);
      if d <= 0 && EndsWithColon(ls[0]) then 1
      else
        var n := HeaderLength(ls[1..], d);
        if n == 0 then 0 else n + 1
  }

  lemma {:induction false} HeaderLengthAhead(header: seq<string>, rest: seq<string>, depth: int)
    requires header != [] && HeaderLength(header, depth) == |header|
    ensures HeaderLength(header + rest, depth) == |header|
  {
    hide Brackets, EndsWithColon;
    assert (header + rest)[1..] == header[1..] + rest;
    var d := depth + Brackets(header[0]);
    if !(d <= 0 && EndsWithColon(header[0])) {
      assert header[1..] != [];
      HeaderLengthAhead(header[1..], rest, d);
    }
  }

  lemma {:induction false} BracketsSplit(a: string, b: string)
    ensures Brackets(a + b) == Brackets(a) + Brackets(b)
  {
    if b == "" {
      assert a + b == a;
    } else {
      var n := |b| - 1;
      BracketsSplit(a, b[..n]);
      assert (a + b)[..|a + b| - 1] == a + b[..n];
    }
  }

  lemma {:induction false} PadHasNoBrackets(n: nat)
    ensures Brackets(Pad(n)) == 0
  {
    if n > 0 {
      PadHasNoBrackets(n - 1);
      assert Pad(n)[..n - 1] == Pad(n - 1);
    }
  }

  lemma {:induction false} RStripSuffix(p: string, s: string)
    requires s != "" && !IsSpace(s[0])
    ensures RStrip(p + s) == p + RStrip(s) && RStrip(s) != ""
  {
    hide IsSpace;
    if IsSpace(s[|s| - 1]) {
      RStripSuffix(p, s[..|s| - 1]);
      assert (p + s)[..|p + s| - 1] == p + s[..|s| - 1];
    }
  }

  /** Indentation changes neither brackets nor colon. */
  lemma HeaderLineShape(p: nat, s: string)
    requires !IsBlank(s)
    ensures Brackets(Pad(p) + s) == Brackets(s) && EndsWithColon(Pad(p) + s) == EndsWithColon(s)
  {
    hide IsSpace, LStrip, RStrip, Brackets;
    BracketsSplit(Pad(p), s);
    PadHasNoBrackets(p);
    MarginIsSpace(s);
    var t := LStrip(s);
    RStripSuffix(Pad(p) + Margin(s), t);
    RStripSuffix(Margin(s), t);
    assert Pad(p) + s == Pad(p) + Margin(s) + t;
  }

  /** Dedenting a header does not move its end. */
  lemma {:induction false} HeaderLengthDedent(header: seq<string>, depth: int)
    requires forall i :: 0 <= i < |header| ==> !IsBlank(header[i]) && AtMargin(header[i], INDENT)
    ensures HeaderLength(DedentAll(header), depth) == HeaderLength(header, depth)
  {
    hide Brackets, EndsWithColon, IsBlank;
    if header != [] {
      var l := header[0];
      var t := l[INDENT..];
      assert l == Pad(INDENT) + t;
      DedentStrips(l);
      BlankByStrip(l, t);
      HeaderLineShape(INDENT, t);
      HeaderLengthDedent(header[1..], depth + Brackets(l));
      assert DedentAll(header)[1..] == DedentAll(header[1..]);
    }
  }

  lemma BlankByStrip(l: string, t: string)
    requires l == Pad(INDENT) + t && !IsBlank(l)
    ensures !IsBlank(t) && DedentLine(l) == t
  {
    LStripPad(INDENT, t);
  }
}
