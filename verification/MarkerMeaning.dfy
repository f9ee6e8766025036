/**
 What commenting out means: comments aside, the file is the old one with the region replaced by
 its body.
 */
module MarkerMeaning {
  import opened Whitespace
  import opened MarkerLines
  import opened MarkerTree
  import opened MarkersOff

  function Append(a: Doc, b: Doc): Doc {
    match a
    case Eof => b
    case Plain(t, rest) => Plain(t, Append(rest, b))
    case Region(_, _, _, _, rest, _, _, _) => a.(rest := Append(rest, b))
  }

  /** The tree with the region at `p` replaced by its body, one level out. */
  function Unwrap(d: Doc, p: Path): Doc
    requires LiveAt(d, p)
    decreases p
  {
    match p
    case Here => Append(DedentDoc(d.body), d.rest)
    case InBody(q) => d.(body := Unwrap(d.body, q))
    case InRest(q) => d.(rest := Unwrap(d.rest, q))
  }

  /** The tree with every commented region replaced by its body. */
  function Splice(d: Doc): Doc {
    match d
    case Eof => Eof
    case Plain(t, rest) => Plain(t, Splice(rest))
    case Region(live, _, _, body, rest, _, _, _) =>
      if live then d.(body := Splice(body), rest := Splice(rest)) else Append(Splice(body), Splice(rest))
  }

  /** The lines that are no marks. */
  function Code(ls: seq<string>): seq<string> {
    if ls == [] then [] else
      var n := |ls| - 1;
      Code(ls[..n]) + if IsOff(ls[n]) || IsEnd(ls[n]) then [] else [ls[n]]
  }

  lemma {:induction false} CodeJoins(a: seq<string>, b: seq<string>)
    ensures Code(a + b) == Code(a) + Code(b)
  {
    hide IsOff, IsEnd;
    if b == [] {
      assert a + b == a;
    } else {
      var n := |b| - 1;
      CodeJoins(a, b[..n]);
      assert (a + b)[..|a + b| - 1] == a + b[..n];
    }
  }

  lemma {:induction false} NoCodeInHeader(ls: seq<string>)
    requires forall i :: 0 <= i < |ls| ==> IsOff(ls[i])
    ensures Code(ls) == []
  {
    hide IsOff, IsEnd;
    if ls != [] {
      NoCodeInHeader(ls[..|ls| - 1]);
    }
  }

  lemma NoCodeInMarks(col: nat, header: seq<string>)
    ensures Code(OffLines(col, header)) == [] && Code([EndLine(col)]) == []
  {
    hide IsOff, IsEnd, OffLine, EndLine;
    forall i | 0 <= i < |header| ensures IsOff(OffLine(col, header[i])) {
      OffLineStrips(col, header[i]);
    }
    NoCodeInHeader(OffLines(col, header));
    EndLineStrips(col);
    assert [EndLine(col)][..0] == [];
  }

  lemma {:induction false} TextAppends(a: Doc, b: Doc)
    ensures Text(Append(a, b)) == Text(a) + Text(b)
  {
    hide Text, ItemText;
    if a == Eof {
      NoText();
    } else {
      TextAppends(a.rest, b);
      ItemThenRest(a);
      ItemThenRest(Append(a, b));
      SameItem(a, Append(a.rest, b));
    }
  }

  lemma NoText()
    ensures Text(Eof) == []
  {
  }

  /** Code of a commented region: the code of its body. */
  lemma CodeOfOff(d: Doc)
    requires d.Region? && !d.live
    ensures Code(Text(d)) == Code(Text(d.body)) + Code(Text(d.rest))
  {
    hide Text, Code, EndLine, OffLine;
    RegionText(d);
    NoCodeInMarks(d.col, d.header);
    CodeJoins(HeadText(d), Text(d.body) + (TailText(d) + Text(d.rest)));
    CodeJoins(Text(d.body), TailText(d) + Text(d.rest));
    CodeJoins(TailText(d), Text(d.rest));
  }

  lemma CodeOfLive(d: Doc)
    requires d.Region? && d.live
    ensures Code(Text(d)) == Code(d.header) + Code(Text(d.body)) + Code(Text(d.rest))
  {
    hide Text, Code, EndLine, OffLine;
    RegionText(d);
    CodeJoins(HeadText(d), Text(d.body) + (TailText(d) + Text(d.rest)));
    CodeJoins(Text(d.body), TailText(d) + Text(d.rest));
    assert TailText(d) + Text(d.rest) == Text(d.rest);
  }

  lemma CodeOfItem(d: Doc)
    requires !d.Eof?
    ensures Code(Text(d)) == Code(ItemText(d)) + Code(Text(d.rest))
  {
    hide Text, Code, ItemText;
    ItemThenRest(d);
    CodeJoins(ItemText(d), Text(d.rest));
  }

  /** One rewrite: marks aside, the file of the tree with that region replaced by its body. */
  lemma {:induction false} RewriteMeans(d: Doc, p: Path)
    requires LiveAt(d, p)
    ensures Code(Text(TurnOffAt(d, p))) == Code(Text(Unwrap(d, p)))
    decreases p
  {
    hide Text, Code, DedentDoc, ItemText;
    match p
    case Here =>
      var body := DedentDoc(d.body);
      CodeOfOff(TurnOffAt(d, Here));
      TextAppends(body, d.rest);
      CodeJoins(Text(body), Text(d.rest));
    case InBody(q) =>
      RewriteMeans(d.body, q);
      var a, b := TurnOffAt(d, p), Unwrap(d, p);
      if d.live {
        CodeOfLive(a);
        CodeOfLive(b);
      } else {
        CodeOfOff(a);
        CodeOfOff(b);
      }
    case InRest(q) =>
      RewriteMeans(d.rest, q);
      CodeOfItem(TurnOffAt(d, p));
      CodeOfItem(Unwrap(d, p));
      SameItem(d, TurnOffAt(d.rest, q));
      SameItem(d, Unwrap(d.rest, q));
  }

  lemma {:induction false} CodeOfHeader(col: nat, header: seq<string>)
    requires forall i :: 0 <= i < |header| ==> HeaderLine(col, header[i])
    ensures Code(header) == header
  {
    hide IsOff, IsEnd, IsBlank;
    if header != [] {
      CodeOfHeader(col, header[..|header| - 1]);
    }
  }

  lemma CodeOfPlain(t: string)
    requires !IsOff(t) && !IsEnd(t)
    ensures Code([t]) == [t]
  {
    hide IsOff, IsEnd;
    assert [t][..0] == [];
  }

  /** All rewrites: marks aside, the file is that of the tree with commented regions replaced by their bodies. */
  lemma {:induction false} CodeIsSplice(d: Doc, m: nat)
    requires Laid(d, m)
    ensures Code(Text(d)) == Text(Splice(d))
    decreases d
  {
    hide Code, IsOff, IsEnd, AtMargin, HeaderLength, HeaderLine, EndLine;
    match d
    case Eof =>
      assert Code([]) == [] by { NoCodeInHeader([]); }
    case Plain(t, rest) =>
      CodeIsSplice(rest, m);
      CodeOfPlain(t);
      CodeJoins([t], Text(rest));
    case Region(live, col, header, body, rest, _, _, _) =>
      CodeIsSplice(rest, m);
      CodeIsSplice(body, if live then m else col);
      if live {
        CodeOfLive(d);
        CodeOfHeader(col, header);
      } else {
        CodeOfOff(d);
        TextAppends(Splice(body), Splice(rest));
      }
  }

  lemma {:induction false} AppendLaid(a: Doc, b: Doc, m: nat)
    requires Laid(a, m) && Laid(b, m)
    ensures Laid(Append(a, b), m)
    ensures AllLive(a) && AllLive(b) ==> AllLive(Append(a, b))
  {
    hide HeaderOk, IsOff, IsEnd, AtMargin;
    match a
    case Eof =>
    case Plain(_, rest) => AppendLaid(rest, b, m);
    case Region(_, _, _, _, rest, _, _, _) => AppendLaid(rest, b, m);
  }

  /** What is left is again a well laid out file, all of whose regions are live ones. */
  lemma {:induction false} SpliceLaid(d: Doc, m: nat)
    requires Laid(d, m)
    ensures Laid(Splice(d), m) && AllLive(Splice(d))
    decreases d
  {
    hide HeaderOk, IsOff, IsEnd, AtMargin;
    match d
    case Eof =>
    case Plain(_, rest) => SpliceLaid(rest, m);
    case Region(live, col, _, body, rest, _, _, _) =>
      SpliceLaid(rest, m);
      SpliceLaid(body, if live then m else col);
      if !live {
        LaidAtLess(Splice(body), col, m);
        AppendLaid(Splice(body), Splice(rest), m);
      }
  }
}
