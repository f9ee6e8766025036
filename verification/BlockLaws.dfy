/**
 The dump format itself: what a header line looks like, which headers are understood and as what,
 what a file with several records of one index loads as, and the escapes of a JSON string (section 7
 of RFC 8259).
 */
module BlockLaws {
  import opened Options
  import opened Decimal
  import opened BlockDump
  import opened BlockTokens
  import opened BlockLoad

  // ---------------------------------------------------------------- the header line

  /** Each state's name and value, with a blank before each. */
  function StatesText(states: seq<(string, int)>): string {
    if states == [] then "" else
      " " + Quoted(states[0].0) + " " + Dec(states[0].1) + StatesText(states[1..])
  }

  /** Tokens with a blank before each. */
  function Blanked(ts: seq<Token>): string {
    if ts == [] then "" else " " + TokenText(ts[0]) + Blanked(ts[1..])
  }

  lemma {:induction false} BlankedSnoc(ts: seq<Token>, t: Token)
    ensures Blanked(ts + [t]) == Blanked(ts) + " " + TokenText(t)
  {
    hide TokenText;
    if ts != [] {
      assert (ts + [t])[1..] == ts[1..] + [t];
      BlankedSnoc(ts[1..], t);
    }
  }

  lemma {:induction false} JoinedIs(ts: seq<Token>)
    requires ts != []
    ensures Joined(ts) == TokenText(ts[0]) + Blanked(ts[1..])
  {
    hide TokenText;
    if |ts| > 1 {
      var n := |ts| - 1;
      JoinedIs(ts[..n]);
      BlankedSnoc(ts[1..n], ts[n]);
      assert ts[..n][1..] == ts[1..n] && ts[1..] == ts[1..n] + [ts[n]];
    }
  }

  lemma {:induction false} BlankedConcat(ts: seq<Token>, us: seq<Token>)
    ensures Blanked(ts + us) == Blanked(ts) + Blanked(us)
  {
    hide TokenText;
    if ts == [] {
      assert ts + us == us;
    } else {
      assert (ts + us)[1..] == ts[1..] + us;
      BlankedConcat(ts[1..], us);
    }
  }

  lemma {:induction false} StatesSnoc(states: seq<(string, int)>, s: (string, int))
    ensures StatesText(states + [s]) == StatesText(states) + " " + Quoted(s.0) + " " + Dec(s.1)
  {
    hide Quoted, Dec;
    if states != [] {
      assert (states + [s])[1..] == states[1..] + [s];
      StatesSnoc(states[1..], s);
    }
  }

  lemma {:induction false} FlatText(states: seq<(string, int)>)
    ensures Blanked(Flat(states)) == StatesText(states)
  {
    hide Quoted, Dec;
    if states != [] {
      var n := |states| - 1;
      var (name, v) := states[n];
      FlatText(states[..n]);
      StatesSnoc(states[..n], states[n]);
      assert states == states[..n] + [states[n]];
      var front := Flat(states[..n]);
      assert Flat(states) == (front + [Str(name)]) + [Int(v)];
      BlankedSnoc(front, Str(name));
      BlankedSnoc(front + [Str(name)], Int(v));
    }
  }

  /** A record's first line: index, region, number of states or -1, the states, root and count. */
  lemma HeaderLineIs(k: DumpKey)
    ensures HeaderLine(k) ==
            "K " + Dec(k.index) + " " + Quoted(k.region) + " "
            + (if k.overflow then "-1" else Dec(|k.states|)) + StatesText(k.states)
            + " " + Quoted(k.root) + " " + Dec(k.count) + "\n"
  {
    hide Quoted, Dec, Blanked, Flat, StatesText, Joined, Header;
    MinusOne();
    FlatText(k.states);
    var ts := Header(k);
    HeaderBlanked(k);
    JoinedIs(ts);
  }

  lemma HeaderBlanked(k: DumpKey)
    ensures Header(k) != [] && Header(k)[0] == Int(k.index)
    ensures Blanked(Header(k)[1..]) ==
            " " + Quoted(k.region) + " " + Dec(StateCount(k)) + Blanked(Flat(k.states))
            + (" " + Quoted(k.root) + " " + Dec(k.count))
  {
    hide Quoted, Dec, Blanked, Flat, StateCount;
    var a, c := [Str(k.region), Int(StateCount(k))], [Str(k.root), Int(k.count)];
    assert Header(k)[1..] == a + Flat(k.states) + c;
    BlankedConcat(a + Flat(k.states), c);
    BlankedConcat(a, Flat(k.states));
    TwoBlanked(Str(k.region), Int(StateCount(k)));
    TwoBlanked(Str(k.root), Int(k.count));
  }

  lemma TwoBlanked(t: Token, u: Token)
    ensures Blanked([t, u]) == " " + TokenText(t) + " " + TokenText(u)
  {
    hide TokenText;
    assert [t, u][1..] == [u] && [u][1..] == [];
    assert Blanked([u]) == " " + TokenText(u) + Blanked([]);
    assert Blanked([t, u]) == " " + TokenText(t) + Blanked([u]);
  }

  lemma MinusOne()
    ensures Dec(-1) == "-1"
  {
    assert DecNat(1) == "1";
  }

  // ---------------------------------------------------------------- the headers understood

  /** A header that names its states, or, by a negative number of them, the calls beyond the budget. */
  lemma NewHeader(idx: int, region: string, nk: int, states: seq<(string, int)>, root: string, count: nat,
                  more: seq<Token>)
    requires nk == |states| || (nk < 0 && states == [])
    ensures ParseKey([Int(idx), Str(region), Int(nk)] + Flat(states) + [Str(root), Int(count)] + more) ==
            Some((idx, KeyRec(region, states, nk < 0, root, count, map[])))
  {
    var parts := [Int(idx), Str(region), Int(nk)] + Flat(states) + [Str(root), Int(count)] + more;
    var n, flat := |states|, Flat(states);
    forall i | 0 <= i < n ensures IsPair(parts, i) && PairAt(parts, i) == states[i] {
      FlatAt(states, i);
      assert parts[3 + 2 * i] == flat[2 * i] && parts[4 + 2 * i] == flat[2 * i + 1];
    }
    assert parts[3 + 2 * n] == Str(root) && parts[3 + 2 * n + 1] == Int(count);
    assert ArePairs(parts, n);
    assert Pairs(parts, n) == states;
    assert parts[0] == Int(idx) && parts[1] == Str(region) && parts[2] == Int(nk);
  }

  /** A header of older files: one state, or an empty name for none. */
  lemma OldHeader(idx: int, region: string, name: string, v: int, root: string, count: nat, more: seq<Token>)
    ensures ParseKey([Int(idx), Str(region), Str(name), Int(v), Str(root), Int(count)] + more) ==
            Some((idx, KeyRec(region, if name == "" then [] else [(name, v)], false, root, count, map[])))
  {
  }

  // ---------------------------------------------------------------- records of one index

  /** The record a line starts, if it starts one. */
  function Starts(line: string): Option<(int, KeyRec)> {
    if |line| >= 2 && line[0] == 'K' && line[1] == ' ' then ParseKey(Tokens(line[2..])) else None
  }

  /** The last record of this index that the lines start. */
  function LastOf(lines: seq<string>, idx: int): Option<KeyRec> {
    if lines == [] then None else
      match Starts(lines[|lines| - 1])
      case Some(p) => if p.0 == idx then Some(p.1) else LastOf(lines[..|lines| - 1], idx)
      case None => LastOf(lines[..|lines| - 1], idx)
  }

  predicate SameHeader(k: KeyRec, h: KeyRec) {
    k == h.(vec := k.vec)
  }

  /** No index twice, and each record has the header of the last one of its index. */
  ghost predicate Latest(keys: seq<(int, KeyRec)>, lines: seq<string>) {
    && (forall i, j :: 0 <= i < j < |keys| ==> keys[i].0 != keys[j].0)
    && (forall i :: 0 <= i < |keys| ==>
          LastOf(lines, keys[i].0).Some? && SameHeader(keys[i].1, LastOf(lines, keys[i].0).value))
    && forall idx :: LastOf(lines, idx).Some? ==> Holds(keys, idx)
  }

  lemma StartsIs(line: string)
    ensures (|line| >= 2 && line[..2] == "K ") <==> |line| >= 2 && line[0] == 'K' && line[1] == ' '
  {
    if |line| >= 2 {
      assert line[..2] == [line[0], line[1]];
    }
  }

  lemma PutKeyLatest(keys: seq<(int, KeyRec)>, before: seq<string>, line: string)
    requires Latest(keys, before) && Starts(line).Some?
    ensures Latest(PutKey(keys, Starts(line).value.0, Starts(line).value.1), before + [line])
  {
    hide Starts, Tokens;
    var lines := before + [line];
    assert lines[..|lines| - 1] == before;
    var (idx, rec) := Starts(line).value;
    var keys' := PutKey(keys, idx, rec);
    forall x ensures LastOf(lines, x) == if x == idx then Some(rec) else LastOf(before, x) {
    }
    forall x | LastOf(lines, x).Some? ensures Holds(keys', x) {
      PutHolds(keys, idx, rec, x);
    }
  }

  lemma PutHolds(keys: seq<(int, KeyRec)>, idx: int, rec: KeyRec, x: int)
    requires x == idx || Holds(keys, x)
    ensures Holds(PutKey(keys, idx, rec), x)
  {
    var keys' := PutKey(keys, idx, rec);
    if Holds(keys, x) {
      var i :| 0 <= i < |keys| && keys[i].0 == x;
      assert keys'[i].0 == x;
    } else {
      assert keys'[|keys|].0 == x;
    }
  }

  lemma NoStart(before: seq<string>, line: string)
    requires Starts(line) == None
    ensures forall x :: LastOf(before + [line], x) == LastOf(before, x)
  {
    hide Starts;
    assert (before + [line])[..|before|] == before;
  }

  lemma SetSlotHolds(keys: seq<(int, KeyRec)>, idx: int, slot: int, count: nat, x: int)
    requires Holds(keys, x)
    ensures Holds(SetSlot(keys, idx, slot, count), x)
  {
    var i :| 0 <= i < |keys| && keys[i].0 == x;
    assert SetSlot(keys, idx, slot, count)[i].0 == x;
  }

  lemma SetSlotLatest(keys: seq<(int, KeyRec)>, before: seq<string>, line: string, idx: int, slot: int, count: nat)
    requires Latest(keys, before) && Starts(line) == None
    ensures Latest(SetSlot(keys, idx, slot, count), before + [line])
  {
    hide Starts, LastOf, Holds;
    NoStart(before, line);
    forall x | LastOf(before + [line], x).Some? ensures Holds(SetSlot(keys, idx, slot, count), x) {
      SetSlotHolds(keys, idx, slot, count, x);
    }
  }

  /** Of several records of one index the last one counts, in any file that loads. */
  lemma {:induction false} LastRecordCounts(lines: seq<string>)
    requires Load(lines).Some?
    ensures Latest(Load(lines).value.keys, lines)
  {
    hide Latest, Starts, Tokens, Words, ParseKey, PutKey, SetSlot;
    if lines == [] {
      NothingLatest();
    } else {
      var n := |lines| - 1;
      var before, line := lines[..n], lines[n];
      LastRecordCounts(before);
      LineLatest(Load(before).value, before, line);
      assert lines == before + [line];
    }
  }

  lemma LineLatest(st: Loaded, before: seq<string>, line: string)
    requires Latest(st.keys, before) && LoadLine(st, line).Some?
    ensures Latest(LoadLine(st, line).value.keys, before + [line])
  {
    hide Latest, Tokens, Words, ParseKey, PutKey, SetSlot;
    StartsIs(line);
    if |line| >= 2 && line[..2] == "K " {
      PutKeyLatest(st.keys, before, line);
    } else {
      var w := Words(line);
      SetSlotLatest(st.keys, before, line, st.cur.value, ParseInt(w[0]).value, ParseInt(w[1]).value);
    }
  }

  lemma NothingLatest()
    ensures Latest([], [])
  {
  }

  // ---------------------------------------------------------------- JSON escapes

  /** A digit of a hexadecimal escape, in either case. */
  function UpperDigit(d: nat): char
    requires d < 16
  {
    if d < 10 then '0' + d as char else 'A' + (d - 10) as char
  }

  predicate Stands(c: char, d: nat)
    requires d < 16
  {
    c == HexDigit(d) || c == UpperDigit(d)
  }

  lemma DigitStands(c: char, d: nat)
    requires d < 16 && Stands(c, d)
    ensures HexValue(c) == Some(d)
  {
  }

  /** Four hexadecimal digits, in either case, stand for the character of that number, unless it is a surrogate. */
  lemma HexCharIs(code: nat, p: char, q: char, r: char, s: char)
    requires code < 0x1_0000
    requires Stands(p, code / 0x1000) && Stands(q, code / 0x100 % 16)
    requires Stands(r, code / 16 % 16) && Stands(s, code % 16)
    ensures HexChar(p, q, r, s) == if 0xD800 <= code <= 0xDFFF then None else Some(code as char)
  {
    hide HexValue, Stands;
    DigitStands(p, code / 0x1000);
    DigitStands(q, code / 0x100 % 16);
    DigitStands(r, code / 16 % 16);
    DigitStands(s, code % 16);
    FourDigits(code);
  }

  lemma FourDigits(code: nat)
    requires code < 0x1_0000
    ensures 0x1000 * (code / 0x1000) + 0x100 * (code / 0x100 % 16) + 16 * (code / 16 % 16) + code % 16 == code
  {
    assert code / 0x100 == code / 16 / 16 && code / 0x1000 == code / 0x100 / 16;
  }

  lemma ShortEscape(c: char, x: char, rest: string)
    requires c != 'u' && SimpleEscape(c) == Some(x)
    ensures Unescape(['\\', c] + rest) == Prepend(x, Unescape(rest))
  {
    hide HexChar, SimpleEscape;
    assert (['\\', c] + rest)[2..] == rest;
  }

  /** The eight short escapes. */
  lemma ShortEscapes(rest: string)
    ensures Unescape("\\\"" + rest) == Prepend('\"', Unescape(rest))
    ensures Unescape("\\\\" + rest) == Prepend('\\', Unescape(rest))
    ensures Unescape("\\/" + rest) == Prepend('/', Unescape(rest))
    ensures Unescape("\\b" + rest) == Prepend('\U{0008}', Unescape(rest))
    ensures Unescape("\\f" + rest) == Prepend('\U{000C}', Unescape(rest))
    ensures Unescape("\\n" + rest) == Prepend('\U{000A}', Unescape(rest))
    ensures Unescape("\\r" + rest) == Prepend('\U{000D}', Unescape(rest))
    ensures Unescape("\\t" + rest) == Prepend('\U{0009}', Unescape(rest))
  {
    hide Unescape, Prepend;
    ShortEscape('\"', '\"', rest);
    ShortEscape('\\', '\\', rest);
    ShortEscape('/', '/', rest);
    ShortEscape('b', '\U{0008}', rest);
    ShortEscape('f', '\U{000C}', rest);
    ShortEscape('n', '\U{000A}', rest);
    ShortEscape('r', '\U{000D}', rest);
    ShortEscape('t', '\U{0009}', rest);
  }

  /** Any other character after a backslash makes no string, but for the `u` of a hexadecimal escape. */
  lemma OtherEscapes(c: char, rest: string)
    requires c !in "\"\\/bfnrtu"
    ensures Unescape(['\\', c] + rest) == None
  {
    assert (['\\', c] + rest)[1] == c;
    assert forall d :: d in "\"\\/bfnrt" ==> d in "\"\\/bfnrtu";
    var l := "\"\\/bfnrtu";
    assert l[0] != c && l[1] != c && l[2] != c && l[3] != c && l[4] != c;
    assert l[5] != c && l[6] != c && l[7] != c && l[8] != c;
  }

  /** A string with a bare quote or control character is none. */
  lemma {:induction false} BareCharacters(before: string, c: char, after: string)
    requires (c == '\"' || c < ' ') && '\\' !in before
    ensures Unescape(before + [c] + after) == None
  {
    hide HexChar, SimpleEscape;
    var s := before + [c] + after;
    if before != "" {
      BareCharacters(before[1..], c, after);
      assert s[0] == before[0] && s[1..] == before[1..] + [c] + after;
    }
  }

  // ---------------------------------------------------------------- numbers

  predicate Digits(s: string) {
    s != "" && forall i :: 0 <= i < |s| ==> '0' <= s[i] <= '9'
  }

  /** A number is digits, at least one, with or without a minus sign before them. */
  lemma ParseIntIff(s: string)
    ensures ParseInt(s).Some? <==> Digits(s) || (s != "" && s[0] == '-' && Digits(s[1..]))
  {
    hide Value;
  }
}
