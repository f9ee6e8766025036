/**
 Reading a record's header: quote-aware tokenizing and JSON string decoding (section 7 of
 RFC 8259), and the proof that it reads back what the client wrote.
 */
module BlockTokens {
  import opened Options
  import opened Decimal
  import opened BlockDump
  import opened Whitespace

  function Shift(n: Option<nat>, more: nat): Option<nat> {
    match n
    case None => None
    case Some(m) => Some(m + more)
  }

  /** How far the closing quote is, counting it; a backslash takes the next character with it. */
  function StringEnd(s: string): (n: Option<nat>)
    ensures n.Some? ==> 0 < n.value <= |s|
  {
    if s == "" then None
    else if s[0] == '\"' then Some(1)
    else if s[0] != '\\' then Shift(StringEnd(s[1..]), 1)
    else if |s| > 1 && s[1] != '\n' then Shift(StringEnd(s[2..]), 2)
    else None
  }

  function WordLength(s: string): (n: nat)
    ensures n <= |s|
    ensures s != "" && !IsSpace(s[0]) ==> n > 0
  {
    if s == "" || IsSpace(s[0]) then 0 else 1 + WordLength(s[1..])
  }

  // ---------------------------------------------------------------- JSON strings

  function HexValue(c: char): Option<nat> {
    if '0' <= c <= '9' then Some((c - '0') as nat)
    else if 'a' <= c <= 'f' then Some((c - 'a') as nat + 10)
    else if 'A' <= c <= 'F' then Some((c - 'A') as nat + 10)
    else None
  }

  /** The character of four hexadecimal digits; surrogates are no character by themselves. */
  function HexChar(a: char, b: char, c: char, d: char): Option<char> {
    match (HexValue(a), HexValue(b), HexValue(c), HexValue(d))
    case (Some(p), Some(q), Some(r), Some(s)) =>
      var code := 4096 * p + 256 * q + 16 * r + s;
      if 0 <= code < 0xD800 || 0xE000 <= code < 0x10000 then Some(code as char) else None
    case _ => None
  }

  function Prepend(c: char, s: Option<string>): Option<string> {
    match s
    case None => None
    case Some(t) => Some([c] + t)
  }

  function SimpleEscape(c: char): Option<char> {
    if c == '\"' || c == '\\' || c == '/' then Some(c)
    else if c == 'b' then Some('\U{08}')
    else if c == 'f' then Some('\U{0C}')
    else if c == 'n' then Some('\n')
    else if c == 'r' then Some('\r')
    else if c == 't' then Some('\t')
    else None
  }

  /** The value of a JSON string, without its quotes. */
  function Unescape(s: string): Option<string> {
    if s == "" then Some("")
    else if s[0] == '\"' || s[0] < ' ' then None
    else if s[0] != '\\' then Prepend(s[0], Unescape(s[1..]))
    else if |s| >= 6 && s[1] == 'u' then
      match HexChar(s[2], s[3], s[4], s[5])
      case Some(c) => Prepend(c, Unescape(s[6..]))
      case None => None
    else if |s| >= 2 then
      match SimpleEscape(s[1])
      case Some(c) => Prepend(c, Unescape(s[2..]))
      case None => None
    else None
  }

  lemma HexOfControl(c: char)
    requires c < ' '
    ensures HexChar('0', '0', HexDigit(c as nat / 16), HexDigit(c as nat % 16)) == Some(c)
  {
    HexRoundTrip(c as nat / 16);
    HexRoundTrip(c as nat % 16);
  }

  lemma HexRoundTrip(d: nat)
    requires d < 16
    ensures HexValue(HexDigit(d)) == Some(d)
  {
  }

  lemma UnescapeChar(c: char, rest: string)
    ensures Unescape(EscapeChar(c) + rest) == Prepend(c, Unescape(rest))
  {
    hide HexChar, HexDigit;
    var e := EscapeChar(c) + rest;
    if c == '\"' || c == '\\' {
      assert e[2..] == rest;
    } else if c < ' ' {
      HexOfControl(c);
      assert e[6..] == rest;
    } else {
      assert e[1..] == rest;
    }
  }

  /** Escaping is undone by decoding, whatever the string. */
  lemma {:induction false} UnescapeEscaped(s: string)
    ensures Unescape(Escaped(s)) == Some(s)
  {
    hide EscapeChar;
    if s != "" {
      UnescapeEscaped(s[1..]);
      UnescapeChar(s[0], Escaped(s[1..]));
      assert s == [s[0]] + s[1..];
    }
  }

  // ---------------------------------------------------------------- where an escaped string ends

  lemma {:induction false} PlainRun(a: string, rest: string)
    requires forall i :: 0 <= i < |a| ==> a[i] != '\"' && a[i] != '\\'
    ensures StringEnd(a + rest) == Shift(StringEnd(rest), |a|)
  {
    if a == "" {
      assert a + rest == rest;
    } else {
      PlainRun(a[1..], rest);
      assert (a + rest)[1..] == a[1..] + rest;
    }
  }

  lemma StringEndPast(c: char, rest: string)
    ensures StringEnd(EscapeChar(c) + rest) == Shift(StringEnd(rest), |EscapeChar(c)|)
  {
    var e := EscapeChar(c) + rest;
    if c == '\"' || c == '\\' {
      assert e[2..] == rest;
    } else if c < ' ' {
      var tail := "00" + [HexDigit(c as nat / 16), HexDigit(c as nat % 16)];
      PlainRun(tail, rest);
      assert e[2..] == tail + rest;
    } else {
      assert e[1..] == rest;
    }
  }

  lemma {:induction false} StringEndEscaped(s: string, rest: string)
    ensures StringEnd(Escaped(s) + ("\"" + rest)) == Some(|Escaped(s)| + 1)
  {
    hide EscapeChar;
    if s == "" {
      assert Escaped(s) + ("\"" + rest) == "\"" + rest;
    } else {
      StringEndEscaped(s[1..], rest);
      StringEndPast(s[0], Escaped(s[1..]) + ("\"" + rest));
      assert Escaped(s) + ("\"" + rest) == EscapeChar(s[0]) + (Escaped(s[1..]) + ("\"" + rest));
    }
  }

  // ---------------------------------------------------------------- tokens

  function ReadString(t: string): Token
    requires |t| >= 2
  {
    match Unescape(t[1..|t| - 1])
    case Some(s) => Str(s)
    case None => Other(t)
  }

  function ReadWord(w: string): Token {
    match ParseInt(w)
    case Some(n) => Int(n)
    case None => Other(w)
  }

  /** Quoted strings first, otherwise runs of anything but white space. */
  function Tokens(s: string): seq<Token>
    decreases |s|
  {
    if s == "" then []
    else if s[0] == '\"' && StringEnd(s[1..]).Some? then
      var n := 1 + StringEnd(s[1..]).value;
      [ReadString(s[..n])] + Tokens(s[n..])
    else if IsSpace(s[0]) then Tokens(s[1..])
    else
      var n := WordLength(s);
      [ReadWord(s[..n])] + Tokens(s[n..])
  }

  predicate StartsBlank(s: string) { s != "" && IsSpace(s[0]) }

  lemma QuotedAhead(text: string, rest: string)
    ensures Tokens(Quoted(text) + rest) == [Str(text)] + Tokens(rest)
  {
    hide Escaped, StringEnd, Unescape;
    var s, n := Quoted(text) + rest, |Escaped(text)| + 2;
    assert s[1..] == Escaped(text) + ("\"" + rest);
    StringEndEscaped(text, rest);
    assert s[..n] == Quoted(text) && s[n..] == rest;
    assert Quoted(text)[1..|Quoted(text)| - 1] == Escaped(text);
    UnescapeEscaped(text);
  }

  lemma {:induction false} WordAhead(w: string, rest: string)
    requires forall i :: 0 <= i < |w| ==> !IsSpace(w[i])
    requires StartsBlank(rest)
    ensures WordLength(w + rest) == |w|
  {
    hide IsSpace;
    if w == "" {
      assert w + rest == rest;
    } else {
      WordAhead(w[1..], rest);
      assert (w + rest)[1..] == w[1..] + rest;
    }
  }

  lemma NumberAhead(n: int, rest: string)
    requires StartsBlank(rest)
    ensures Tokens(Dec(n) + rest) == [Int(n)] + Tokens(rest)
  {
    hide Dec, ParseInt, IsSpace, IsDigit, StringEnd;
    var w := Dec(n);
    DecChars(n);
    forall i | 0 <= i < |w| ensures !IsSpace(w[i]) && w[i] != '\"' {
      NumberChar(w[i]);
    }
    var s := w + rest;
    WordAhead(w, rest);
    ParseDec(n);
    assert s[0] == w[0] && s[..|w|] == w && s[|w|..] == rest;
  }

  lemma NumberChar(c: char)
    requires IsDigit(c) || c == '-'
    ensures !IsSpace(c) && c != '\"'
  {
  }

  /** Strings and numbers are read back as written. */
  lemma TokenAhead(t: Token, rest: string)
    requires !t.Other? && StartsBlank(rest)
    ensures Tokens(TokenText(t) + rest) == [t] + Tokens(rest)
  {
    match t
    case Str(s) => QuotedAhead(s, rest);
    case Int(n) => NumberAhead(n, rest);
  }

  lemma BlankAhead(rest: string)
    ensures Tokens(" " + rest) == Tokens(rest)
  {
    assert (" " + rest)[1..] == rest;
  }

  predicate NoOthers(ts: seq<Token>) { forall i :: 0 <= i < |ts| ==> !ts[i].Other? }

  /** Tokens written with blanks between them are read back as the same tokens. */
  lemma {:induction false} TokensOfJoined(ts: seq<Token>, rest: string)
    requires ts != [] && NoOthers(ts) && StartsBlank(rest)
    ensures Tokens(Joined(ts) + rest) == ts + Tokens(rest)
  {
    hide Tokens, TokenText, IsSpace;
    var m := |ts| - 1;
    TokenAhead(ts[m], rest);
    if m > 0 {
      var tail := TokenText(ts[m]) + rest;
      BlankStarts(tail);
      TokensOfJoined(ts[..m], " " + tail);
      BlankAhead(tail);
      assert Joined(ts) + rest == Joined(ts[..m]) + (" " + tail);
      assert ts == ts[..m] + [ts[m]];
    }
  }

  lemma BlankStarts(s: string)
    ensures StartsBlank(" " + s)
  {
  }

  lemma NewlineEnds()
    ensures StartsBlank("\n") && Tokens("\n") == []
  {
    assert "\n"[1..] == "";
  }

  /** The header of a record, as the reader sees it after the leading `K `. */
  lemma HeaderReadsBack(k: DumpKey)
    ensures |HeaderLine(k)| >= 2 && HeaderLine(k)[..2] == "K "
    ensures Tokens(HeaderLine(k)[2..]) == Header(k)
  {
    hide Tokens, Joined, Flat;
    assert HeaderLine(k)[2..] == Joined(Header(k)) + "\n";
    NewlineEnds();
    FlatNoOthers(k.states);
    TokensOfJoined(Header(k), "\n");
  }

  lemma {:induction false} FlatNoOthers(states: seq<(string, int)>)
    ensures NoOthers(Flat(states))
  {
    if states != [] {
      FlatNoOthers(states[..|states| - 1]);
    }
  }
}
