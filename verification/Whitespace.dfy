/** Python's white space, and what `lstrip`, `rstrip` and `strip` leave of a string. */
module Whitespace {

  predicate IsSpace(c: char) {
    || c == ' ' || '\t' <= c <= '\r' || '\U{1C}' <= c <= '\U{1F}' || c == '\U{85}' || c == '\U{A0}'
    || c == '\U{1680}' || '\U{2000}' <= c <= '\U{200A}' || c == '\U{2028}' || c == '\U{2029}'
    || c == '\U{202F}' || c == '\U{205F}' || c == '\U{3000}'
  }

  function LStrip(s: string): (r: string)
    ensures |r| <= |s|
    ensures r == "" || !IsSpace(r[0])
  {
    if s != "" && IsSpace(s[0]) then LStrip(s[1..]) else s
  }

  function RStrip(s: string): (r: string)
    ensures |r| <= |s|
  {
    if s != "" && IsSpace(s[|s| - 1]) then RStrip(s[..|s| - 1]) else s
  }

  function Strip(s: string): string { RStrip(LStrip(s)) }

  predicate IsBlank(s: string) { LStrip(s) == "" }

  /** What `lstrip` takes away. */
  function Margin(s: string): string { s[..|s| - |LStrip(s)|] }

  function Pad(n: nat): (p: string)
    ensures |p| == n
    ensures forall i :: 0 <= i < n ==> p[i] == ' '
  {
    seq(n, _ => ' ')
  }

  lemma {:induction false} LStripPad(n: nat, s: string)
    ensures LStrip(Pad(n) + s) == LStrip(s)
  {
    hide IsSpace;
    if n == 0 {
      assert Pad(0) + s == s;
    } else {
      LStripPad(n - 1, s);
      BlankIsSpace();
      assert (Pad(n) + s)[1..] == Pad(n - 1) + s;
    }
  }

  lemma BlankIsSpace()
    ensures IsSpace(' ')
  {
  }

  lemma {:induction false} LStripSpaces(p: string, s: string)
    requires forall i :: 0 <= i < |p| ==> IsSpace(p[i])
    ensures LStrip(p + s) == LStrip(s)
  {
    hide IsSpace;
    if p == "" {
      assert p + s == s;
    } else {
      LStripSpaces(p[1..], s);
      assert (p + s)[1..] == p[1..] + s;
    }
  }

  lemma {:induction false} MarginIsSpace(s: string)
    ensures forall i :: 0 <= i < |Margin(s)| ==> IsSpace(Margin(s)[i])
    ensures s == Margin(s) + LStrip(s)
  {
    hide IsSpace;
    if s != "" && IsSpace(s[0]) {
      MarginIsSpace(s[1..]);
      assert Margin(s) == [s[0]] + Margin(s[1..]);
    }
  }

  /** A word that ends in no white space survives at the front of a string. */
  lemma {:induction false} RStripKeeps(w: string, s: string)
    requires w != "" && !IsSpace(w[|w| - 1])
    ensures w <= RStrip(s) <==> w <= s
  {
    hide IsSpace;
    if s != "" && IsSpace(s[|s| - 1]) {
      RStripKeeps(w, s[..|s| - 1]);
    }
  }
}
