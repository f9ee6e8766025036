/**
 The block dump: the client writes one record per key, names escaped as JSON strings and numbers
 in decimal; the analysis reads it back with its own tokenizer.
 */
module BlockDump {
  import opened Decimal

  // ---------------------------------------------------------------- what is written

  /** A key as the client holds it; `counts` is indexed by block slot. */
  datatype DumpKey = DumpKey(index: nat, region: string, overflow: bool, states: seq<(string, int)>,
                             root: string, count: nat, counts: seq<nat>)

  function HexDigit(d: nat): char
    requires d < 16
  {
    if d < 10 then '0' + d as char else 'a' + (d - 10) as char
  }

  function EscapeChar(c: char): string {
    if c == '\"' || c == '\\' then ['\\', c]
    else if c < ' ' then "\\u00" + [HexDigit(c as nat / 16), HexDigit(c as nat % 16)]
    else [c]
  }

  function Escaped(s: string): string {
    if s == "" then "" else EscapeChar(s[0]) + Escaped(s[1..])
  }

  function Quoted(s: string): string { "\"" + Escaped(s) + "\"" }

  /** What a record's header consists of. */
  datatype Token = Str(text: string) | Int(n: int) | Other(raw: string)

  function TokenText(t: Token): string {
    match t
    case Str(s) => Quoted(s)
    case Int(n) => Dec(n)
    case Other(s) => s
  }

  function Flat(states: seq<(string, int)>): (ts: seq<Token>)
    ensures |ts| == 2 * |states|
  {
    if states == [] then [] else
      var m := |states| - 1;
      Flat(states[..m]) + [Str(states[m].0), Int(states[m].1)]
  }

  /** The count of states, or -1 for calls beyond the per-region budget. */
  function StateCount(k: DumpKey): int { if k.overflow then -1 else |k.states| }

  function Header(k: DumpKey): seq<Token> {
    [Int(k.index), Str(k.region), Int(StateCount(k))] + Flat(k.states) + [Str(k.root), Int(k.count)]
  }

  /** Tokens with one blank before each but the first. */
  function Joined(ts: seq<Token>): string
    requires ts != []
  {
    if |ts| == 1 then TokenText(ts[0]) else Joined(ts[..|ts| - 1]) + " " + TokenText(ts[|ts| - 1])
  }

  function HeaderLine(k: DumpKey): string { "K " + Joined(Header(k)) + "\n" }

  function SlotLine(slot: nat, count: nat): string { Dec(slot) + " " + Dec(count) + "\n" }

  /** The lines of the slots below `n` that ran. */
  function SlotLines(counts: seq<nat>, n: nat): seq<string>
    requires n <= |counts|
  {
    if n == 0 then []
    else if counts[n - 1] != 0 then SlotLines(counts, n - 1) + [SlotLine(n - 1, counts[n - 1])]
    else SlotLines(counts, n - 1)
  }

  function KeyLines(k: DumpKey): seq<string> { [HeaderLine(k)] + SlotLines(k.counts, |k.counts|) }

  function DumpLines(ks: seq<DumpKey>): seq<string> {
    if ks == [] then [] else DumpLines(ks[..|ks| - 1]) + KeyLines(ks[|ks| - 1])
  }

  function Concat(ls: seq<string>): string {
    if ls == [] then "" else Concat(ls[..|ls| - 1]) + ls[|ls| - 1]
  }

  lemma {:induction false} ConcatAppend(a: seq<string>, b: seq<string>)
    ensures Concat(a + b) == Concat(a) + Concat(b)
  {
    if b == [] {
      assert a + b == a;
    } else {
      var m := |b| - 1;
      ConcatAppend(a, b[..m]);
      assert (a + b)[..|a + b| - 1] == a + b[..m];
    }
  }

  /** The file the client writes the records to. */
  class BlocksFile {
    var text: string

    constructor ()
      ensures text == ""
    {
      text := "";
    }

    method JsonStr(s: string)
      modifies this
      ensures text == old(text) + Quoted(s)
    {
      hide Escaped, EscapeChar;
      text := text + "\"";
      var i := 0;
      assert Escaped(s[..0]) == "" by { NothingEscaped(); }
      while i < |s|
        invariant i <= |s| && text == old(text) + ("\"" + Escaped(s[..i]))
      {
        var c := s[i];
        EscapedSnoc(s[..i], c);
        assert s[..i + 1] == s[..i] + [c];
        EscapeCharIs(c);
        if c == '\"' || c == '\\' {
          text := text + ['\\', c];
        } else if c < ' ' {
          text := text + ("\\u00" + [HexDigit(c as nat / 16), HexDigit(c as nat % 16)]);
        } else {
          text := text + [c];
        }
        i := i + 1;
      }
      assert s[..i] == s;
      text := text + "\"";
    }

    method WriteStates(states: seq<(string, int)>)
      modifies this
      ensures text == old(text) + StatesText(states)
    {
      hide Quoted, Dec, StatesText;
      var i := 0;
      NoStates();
      while i < |states|
        invariant i <= |states| && text == old(text) + StatesText(states[..i])
      {
        ghost var before := text;
        text := text + " ";
        JsonStr(states[i].0);
        text := text + (" " + Dec(states[i].1));
        StatesTextGrows(old(text), before, states, i);
        i := i + 1;
      }
      assert states[..i] == states;
    }

    method WriteSlots(counts: seq<nat>)
      modifies this
      ensures text == old(text) + Concat(SlotLines(counts, |counts|))
    {
      hide SlotLine, SlotLines, Concat;
      var slot := 0;
      SlotsTextGrows(counts, 0);
      while slot < |counts|
        invariant slot <= |counts| && text == old(text) + Concat(SlotLines(counts, slot))
      {
        if counts[slot] != 0 {
          text := text + SlotLine(slot, counts[slot]);
        }
        SlotsTextGrows(counts, slot);
        slot := slot + 1;
      }
    }

    /** One key's record. */
    method WriteKey(k: DumpKey)
      modifies this
      ensures text == old(text) + Concat(KeyLines(k))
    {
      hide Quoted, Dec, Concat, StatesText, SlotLines, HeaderLine;
      text := text + ("K " + Dec(k.index) + " ");
      JsonStr(k.region);
      text := text + (" " + Dec(StateCount(k)));
      WriteStates(k.states);
      text := text + " ";
      JsonStr(k.root);
      text := text + (" " + Dec(k.count) + "\n");
      HeaderText(k);
      assert text == old(text) + HeaderLine(k);
      WriteSlots(k.counts);
      KeyText(k);
    }

    method WriteKeys(ks: seq<DumpKey>)
      modifies this
      ensures text == old(text) + Concat(DumpLines(ks))
    {
      hide KeyLines;
      var i := 0;
      while i < |ks|
        invariant i <= |ks| && text == old(text) + Concat(DumpLines(ks[..i]))
      {
        WriteKey(ks[i]);
        assert ks[..i + 1][..i] == ks[..i];
        ConcatAppend(DumpLines(ks[..i]), KeyLines(ks[i]));
        i := i + 1;
      }
      assert ks[..i] == ks;
    }
  }

  lemma NoStates()
    ensures StatesText([]) == ""
  {
  }

  lemma StatesTextGrows(start: string, before: string, states: seq<(string, int)>, i: nat)
    requires i < |states| && before == start + StatesText(states[..i])
    ensures before + " " + Quoted(states[i].0) + (" " + Dec(states[i].1)) == start + StatesText(states[..i + 1])
  {
    hide Quoted, Dec;
    assert states[..i + 1][..i] == states[..i];
    var a, q, d := StatesText(states[..i]), Quoted(states[i].0), " " + Dec(states[i].1);
    assert StatesText(states[..i + 1]) == a + " " + q + d;
  }

  lemma SlotsTextGrows(counts: seq<nat>, n: nat)
    requires n <= |counts|
    ensures n == 0 ==> Concat(SlotLines(counts, n)) == ""
    ensures n < |counts| ==>
              Concat(SlotLines(counts, n + 1)) ==
              Concat(SlotLines(counts, n)) + if counts[n] != 0 then SlotLine(n, counts[n]) else ""
  {
    hide SlotLine;
    if n < |counts| && counts[n] != 0 {
      ConcatSnoc(SlotLines(counts, n), SlotLine(n, counts[n]));
    }
  }

  lemma NothingEscaped()
    ensures Escaped("") == ""
  {
  }

  lemma EscapeCharIs(c: char)
    ensures EscapeChar(c) == if c == '\"' || c == '\\' then ['\\', c]
                             else if c < ' ' then "\\u00" + [HexDigit(c as nat / 16), HexDigit(c as nat % 16)]
                             else [c]
  {
  }

  lemma {:induction false} EscapedSnoc(s: string, c: char)
    ensures Escaped(s + [c]) == Escaped(s) + EscapeChar(c)
  {
    hide EscapeChar;
    if s == "" {
      assert s + [c] == [c] && [c][1..] == "";
    } else {
      EscapedSnoc(s[1..], c);
      assert (s + [c])[1..] == s[1..] + [c];
    }
  }

  function StatesText(states: seq<(string, int)>): string {
    if states == [] then "" else
      var m := |states| - 1;
      StatesText(states[..m]) + " " + Quoted(states[m].0) + (" " + Dec(states[m].1))
  }

  lemma JoinedSnoc(ts: seq<Token>, t: Token)
    requires ts != []
    ensures Joined(ts + [t]) == Joined(ts) + " " + TokenText(t)
  {
    assert (ts + [t])[..|ts|] == ts;
  }

  lemma {:induction false} JoinedStates(ts: seq<Token>, states: seq<(string, int)>)
    requires ts != []
    ensures Joined(ts + Flat(states)) == Joined(ts) + StatesText(states)
  {
    hide Joined, Quoted, Dec;
    if states == [] {
      assert ts + Flat(states) == ts;
    } else {
      var m := |states| - 1;
      var before, name, value := ts + Flat(states[..m]), Str(states[m].0), Int(states[m].1);
      JoinedStates(ts, states[..m]);
      JoinedSnoc(before, name);
      JoinedSnoc(before + [name], value);
      assert ts + Flat(states) == before + [name] + [value];
    }
  }

  lemma HeaderText(k: DumpKey)
    ensures HeaderLine(k) ==
            "K " + Dec(k.index) + " " + Quoted(k.region) + (" " + Dec(StateCount(k))) + StatesText(k.states)
            + " " + Quoted(k.root) + (" " + Dec(k.count) + "\n")
  {
    hide Quoted, Dec, StatesText, Joined, Flat, StateCount;
    var a := [Int(k.index)];
    var b := a + [Str(k.region)];
    var c := b + [Int(StateCount(k))];
    JoinedOne(Int(k.index));
    JoinedSnoc(a, Str(k.region));
    JoinedSnoc(b, Int(StateCount(k)));
    JoinedStates(c, k.states);
    var d := c + Flat(k.states);
    JoinedSnoc(d, Str(k.root));
    JoinedSnoc(d + [Str(k.root)], Int(k.count));
    assert Header(k) == d + [Str(k.root)] + [Int(k.count)];
  }

  lemma JoinedOne(t: Token)
    ensures Joined([t]) == TokenText(t)
  {
  }

  lemma ConcatSnoc(ls: seq<string>, l: string)
    ensures Concat(ls + [l]) == Concat(ls) + l
  {
    assert (ls + [l])[..|ls|] == ls;
  }

  lemma KeyText(k: DumpKey)
    ensures Concat(KeyLines(k)) == HeaderLine(k) + Concat(SlotLines(k.counts, |k.counts|))
  {
    hide HeaderLine, SlotLines;
    ConcatAppend([HeaderLine(k)], SlotLines(k.counts, |k.counts|));
    assert [HeaderLine(k)][..0] == [];
  }
}
