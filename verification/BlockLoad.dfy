/** Loading a block dump, and the round trip with what the client prints. */
module BlockLoad {
  import opened Options
  import opened Decimal
  import opened BlockDump
  import opened BlockTokens
  import opened Whitespace

  /** A key as the analysis holds it: counts of the slots that ran. */
  datatype KeyRec = KeyRec(region: string, states: seq<(string, int)>, overflow: bool, root: string,
                           count: nat, vec: map<int, nat>)

  /** Records by index, in the order they were first seen, and the index being filled. */
  datatype Loaded = Loaded(keys: seq<(int, KeyRec)>, cur: Option<int>)

  // ---------------------------------------------------------------- one record's header

  /** The `i`-th state's name and value. */
  predicate IsPair(parts: seq<Token>, i: nat)
    requires |parts| >= 5 + 2 * i
  {
    parts[3 + 2 * i].Str? && parts[4 + 2 * i].Int?
  }

  function PairAt(parts: seq<Token>, i: nat): (string, int)
    requires |parts| >= 5 + 2 * i && IsPair(parts, i)
  {
    (parts[3 + 2 * i].text, parts[4 + 2 * i].n)
  }

  predicate ArePairs(parts: seq<Token>, nk: nat)
    requires |parts| >= 3 + 2 * nk
  {
    forall i :: 0 <= i < nk ==> IsPair(parts, i)
  }

  function Pairs(parts: seq<Token>, nk: nat): (states: seq<(string, int)>)
    requires |parts| >= 3 + 2 * nk && ArePairs(parts, nk)
    ensures |states| == nk
    ensures forall i :: 0 <= i < nk ==> states[i] == PairAt(parts, i)
  {
    seq(nk, i requires 0 <= i < nk => PairAt(parts, i))
  }

  /** Root and count follow the states. */
  function Finish(parts: seq<Token>, region: string, states: seq<(string, int)>, over: bool, at: nat): Option<KeyRec> {
    if at + 1 < |parts| && parts[at].Str? && parts[at + 1].Int? && parts[at + 1].n >= 0
    then Some(KeyRec(region, states, over, parts[at].text, parts[at + 1].n, map[]))
    else None
  }

  /** A negative count of states marks calls beyond the budget; older files name one state, or none. */
  function ParseKey(parts: seq<Token>): Option<(int, KeyRec)> {
    if |parts| < 5 || !parts[0].Int? || !parts[1].Str? then None
    else
      var rec :=
        if parts[2].Int? then
          var over := parts[2].n < 0;
          var nk := if over then 0 else parts[2].n;
          if |parts| >= 3 + 2 * nk && ArePairs(parts, nk)
          then Finish(parts, parts[1].text, Pairs(parts, nk), over, 3 + 2 * nk) else None
        else if parts[2].Str? && parts[3].Int? then
          Finish(parts, parts[1].text, if parts[2].text != "" then [(parts[2].text, parts[3].n)] else [], false, 4)
        else None;
      match rec
      case Some(k) => Some((parts[0].n, k))
      case None => None
  }

  // ---------------------------------------------------------------- one line

  /** The words of a line. */
  function Words(s: string): seq<string>
    decreases |s|
  {
    if s == "" then []
    else if IsSpace(s[0]) then Words(s[1..])
    else [s[..WordLength(s)]] + Words(s[WordLength(s)..])
  }

  predicate Holds(keys: seq<(int, KeyRec)>, idx: int) {
    exists i :: 0 <= i < |keys| && keys[i].0 == idx
  }

  function PutKey(keys: seq<(int, KeyRec)>, idx: int, rec: KeyRec): seq<(int, KeyRec)> {
    if Holds(keys, idx)
    then seq(|keys|, i requires 0 <= i < |keys| => if keys[i].0 == idx then (idx, rec) else keys[i])
    else keys + [(idx, rec)]
  }

  /** The current record's count of a slot is set. */
  function SetSlot(keys: seq<(int, KeyRec)>, idx: int, slot: int, count: nat): seq<(int, KeyRec)> {
    seq(|keys|, i requires 0 <= i < |keys| =>
      if keys[i].0 == idx then (idx, keys[i].1.(vec := keys[i].1.vec[slot := count])) else keys[i])
  }

  function LoadLine(st: Loaded, line: string): Option<Loaded> {
    if |line| >= 2 && line[..2] == "K " then
      match ParseKey(Tokens(line[2..]))
      case Some(p) => Some(Loaded(PutKey(st.keys, p.0, p.1), Some(p.0)))
      case None => None
    else
      var w := Words(line);
      if |w| == 2 && st.cur.Some? then
        match (ParseInt(w[0]), ParseInt(w[1]))
        case (Some(slot), Some(count)) =>
          if count >= 0 then Some(st.(keys := SetSlot(st.keys, st.cur.value, slot, count))) else None
        case _ => None
      else None
  }

  function Load(lines: seq<string>): Option<Loaded> {
    if lines == [] then Some(Loaded([], None)) else
      match Load(lines[..|lines| - 1])
      case None => None
      case Some(st) => LoadLine(st, lines[|lines| - 1])
  }

  // ---------------------------------------------------------------- lines of a file

  function LineLength(s: string): (n: nat)
    ensures n <= |s| && (s != "" ==> n > 0)
  {
    if s == "" then 0 else if s[0] == '\n' then 1 else 1 + LineLength(s[1..])
  }

  /** Each line with its newline. */
  function LinesOf(s: string): seq<string>
    decreases |s|
  {
    if s == "" then [] else [s[..LineLength(s)]] + LinesOf(s[LineLength(s)..])
  }

  /** The records of a file, or nothing if a line makes no sense. */
  method LoadBlocks(text: string) returns (r: Option<seq<(int, KeyRec)>>)
    ensures r == (match Load(LinesOf(text)) case None => None case Some(st) => Some(st.keys))
  {
    hide LoadLine, LineLength;
    var st := Loaded([], None);
    var rest := text;
    ghost var seen: seq<string> := [];
    while rest != ""
      invariant LinesOf(text) == seen + LinesOf(rest) && Load(seen) == Some(st)
      decreases |rest|
    {
      var n := LineLength(rest);
      var next := LoadLine(st, rest[..n]);
      ghost var before := seen;
      seen := seen + [rest[..n]];
      assert seen[..|seen| - 1] == before;
      if next == None {
        LoadStuck(seen, LinesOf(rest[n..]));
        assert LinesOf(text) == seen + LinesOf(rest[n..]);
        return None;
      }
      st := next.value;
      rest := rest[n..];
    }
    assert seen + [] == seen;
    return Some(st.keys);
  }

  lemma {:induction false} LoadStuck(a: seq<string>, b: seq<string>)
    requires Load(a) == None
    ensures Load(a + b) == None
  {
    hide LoadLine;
    if b == [] {
      assert a + b == a;
    } else {
      var m := |b| - 1;
      LoadStuck(a, b[..m]);
      assert (a + b)[..|a + b| - 1] == a + b[..m];
    }
  }

  // ---------------------------------------------------------------- the round trip

  function VecOf(counts: seq<nat>, n: nat): (vec: map<int, nat>)
    requires n <= |counts|
  {
    if n == 0 then map[]
    else if counts[n - 1] != 0 then VecOf(counts, n - 1)[n - 1 := counts[n - 1]]
    else VecOf(counts, n - 1)
  }

  lemma {:induction false} VecOfMeaning(counts: seq<nat>, n: nat)
    requires n <= |counts|
    ensures forall s :: s in VecOf(counts, n) <==> 0 <= s < n && counts[s] != 0
    ensures forall s :: s in VecOf(counts, n) ==> VecOf(counts, n)[s] == counts[s]
  {
    if n > 0 {
      VecOfMeaning(counts, n - 1);
    }
  }

  /** The record a key is read back as: counts of 0 are not written. */
  function RecOf(k: DumpKey): KeyRec {
    KeyRec(k.region, k.states, k.overflow, k.root, k.count, VecOf(k.counts, |k.counts|))
  }

  function RecsOf(ks: seq<DumpKey>): (r: seq<(int, KeyRec)>)
    ensures |r| == |ks|
    ensures forall i :: 0 <= i < |ks| ==> r[i] == (ks[i].index as int, RecOf(ks[i]))
  {
    seq(|ks|, i requires 0 <= i < |ks| => (ks[i].index as int, RecOf(ks[i])))
  }

  /** Keys have their own index, and a key beyond the budget has no states. */
  predicate Dumpable(ks: seq<DumpKey>) {
    && (forall i, j :: 0 <= i < j < |ks| ==> ks[i].index != ks[j].index)
    && forall i :: 0 <= i < |ks| && ks[i].overflow ==> ks[i].states == []
  }

  lemma {:induction false} FlatAt(states: seq<(string, int)>, i: nat)
    requires i < |states|
    ensures Flat(states)[2 * i] == Str(states[i].0) && Flat(states)[2 * i + 1] == Int(states[i].1)
  {
    var m := |states| - 1;
    if i < m {
      FlatAt(states[..m], i);
    }
  }

  lemma HeaderAt(k: DumpKey, i: nat)
    requires i < |k.states|
    ensures Header(k)[3 + 2 * i] == Str(k.states[i].0) && Header(k)[4 + 2 * i] == Int(k.states[i].1)
  {
    hide Flat, StateCount;
    FlatAt(k.states, i);
    var a := [Int(k.index), Str(k.region), Int(StateCount(k))];
    assert Header(k)[3 + 2 * i] == (a + Flat(k.states))[3 + 2 * i];
  }

  lemma ParseHeader(k: DumpKey)
    requires k.overflow ==> k.states == []
    ensures ParseKey(Header(k)) == Some((k.index as int, RecOf(k).(vec := map[])))
  {
    hide Flat, VecOf;
    var parts, nk := Header(k), |k.states|;
    assert |parts| == 5 + 2 * nk;
    assert parts[3 + 2 * nk] == Str(k.root) && parts[4 + 2 * nk] == Int(k.count);
    forall i | 0 <= i < nk ensures IsPair(parts, i) && PairAt(parts, i) == k.states[i] {
      HeaderAt(k, i);
    }
    assert ArePairs(parts, nk);
    assert Pairs(parts, nk) == k.states;
  }

  lemma LoadHeader(st: Loaded, k: DumpKey)
    requires (k.overflow ==> k.states == []) && !Holds(st.keys, k.index)
    ensures LoadLine(st, HeaderLine(k)) ==
            Some(Loaded(st.keys + [(k.index as int, RecOf(k).(vec := map[]))], Some(k.index as int)))
  {
    hide HeaderLine, Header, ParseKey, Tokens;
    HeaderReadsBack(k);
    ParseHeader(k);
  }

  lemma NumberWord(n: int, rest: string)
    requires StartsBlank(rest)
    ensures Words(Dec(n) + rest) == [Dec(n)] + Words(rest)
  {
    hide Dec, IsSpace, IsDigit;
    var w := Dec(n);
    DecChars(n);
    forall i | 0 <= i < |w| ensures !IsSpace(w[i]) {
      NumberChar(w[i]);
    }
    WordAhead(w, rest);
    var s := w + rest;
    assert s[0] == w[0] && s[..|w|] == w && s[|w|..] == rest;
  }

  lemma SlotWords(slot: nat, count: nat)
    ensures Words(SlotLine(slot, count)) == [Dec(slot), Dec(count)]
  {
    hide Dec, IsSpace, Words, WordLength;
    var tail := Dec(count) + "\n";
    assert SlotLine(slot, count) == Dec(slot) + (" " + tail);
    BlankStarts(tail);
    NumberWord(slot, " " + tail);
    BlankWords(tail);
    NewlineEnds();
    NumberWord(count, "\n");
    NoWords();
  }

  lemma BlankWords(s: string)
    ensures Words(" " + s) == Words(s)
  {
    assert (" " + s)[1..] == s;
  }

  lemma NoWords()
    ensures Words("\n") == []
  {
    assert "\n"[1..] == "";
  }

  lemma NoHeader(slot: nat, count: nat)
    ensures SlotLine(slot, count)[0] != 'K'
  {
    DecChars(slot);
  }

  lemma LoadSlot(st: Loaded, slot: nat, count: nat)
    requires st.cur.Some?
    ensures LoadLine(st, SlotLine(slot, count)) == Some(st.(keys := SetSlot(st.keys, st.cur.value, slot, count)))
  {
    hide SlotLine, Words, Dec, ParseInt;
    var line := SlotLine(slot, count);
    SlotWords(slot, count);
    ParseDec(slot);
    ParseDec(count);
    NoHeader(slot, count);
  }

  lemma SetLastSlot(keys: seq<(int, KeyRec)>, idx: int, rec: KeyRec, slot: int, count: nat)
    requires !Holds(keys, idx)
    ensures SetSlot(keys + [(idx, rec)], idx, slot, count) == keys + [(idx, rec.(vec := rec.vec[slot := count]))]
  {
  }

  lemma LoadSnoc(ls: seq<string>, l: string)
    ensures Load(ls + [l]) == match Load(ls) case None => None case Some(st) => LoadLine(st, l)
  {
    hide LoadLine;
    assert (ls + [l])[..|ls|] == ls;
  }

  /** The slot lines fill the record that was just started. */
  lemma {:induction false} LoadSlots(ls: seq<string>, keys: seq<(int, KeyRec)>, idx: int, rec: KeyRec,
                                     counts: seq<nat>, n: nat)
    requires n <= |counts| && !Holds(keys, idx) && rec.vec == map[]
    requires Load(ls) == Some(Loaded(keys + [(idx, rec)], Some(idx)))
    ensures Load(ls + SlotLines(counts, n)) == Some(Loaded(keys + [(idx, rec.(vec := VecOf(counts, n)))], Some(idx)))
  {
    hide Load, LoadLine, SlotLine, Holds, SetSlot;
    if n == 0 {
      assert ls + SlotLines(counts, 0) == ls;
    } else {
      LoadSlots(ls, keys, idx, rec, counts, n - 1);
      if counts[n - 1] != 0 {
        var before := ls + SlotLines(counts, n - 1);
        var partial := rec.(vec := VecOf(counts, n - 1));
        LoadSnoc(before, SlotLine(n - 1, counts[n - 1]));
        LoadSlot(Loaded(keys + [(idx, partial)], Some(idx)), n - 1, counts[n - 1]);
        SetLastSlot(keys, idx, partial, n - 1, counts[n - 1]);
        assert ls + SlotLines(counts, n) == before + [SlotLine(n - 1, counts[n - 1])];
      }
    }
  }

  lemma LoadKey(ls: seq<string>, st: Loaded, k: DumpKey)
    requires Load(ls) == Some(st) && (k.overflow ==> k.states == []) && !Holds(st.keys, k.index)
    ensures Load(ls + KeyLines(k)) == Some(Loaded(st.keys + [(k.index as int, RecOf(k))], Some(k.index as int)))
  {
    hide Load, LoadLine, HeaderLine, SlotLines, Holds, VecOf;
    LoadSnoc(ls, HeaderLine(k));
    LoadHeader(st, k);
    LoadSlots(ls + [HeaderLine(k)], st.keys, k.index, RecOf(k).(vec := map[]), k.counts, |k.counts|);
    assert ls + KeyLines(k) == ls + [HeaderLine(k)] + SlotLines(k.counts, |k.counts|);
  }

  /** Line by line, the reader recovers exactly the keys that were printed. */
  lemma {:induction false} LoadDump(ks: seq<DumpKey>)
    requires Dumpable(ks)
    ensures Load(DumpLines(ks)).Some? && Load(DumpLines(ks)).value.keys == RecsOf(ks)
  {
    hide Load, KeyLines, RecOf;
    if ks == [] {
      NothingLoaded();
    } else {
      var m := |ks| - 1;
      var front := ks[..m];
      assert forall i :: 0 <= i < m ==> front[i] == ks[i];
      LoadDump(front);
      assert !Holds(RecsOf(front), ks[m].index);
      LoadKey(DumpLines(front), Load(DumpLines(front)).value, ks[m]);
      assert RecsOf(ks) == RecsOf(front) + [(ks[m].index as int, RecOf(ks[m]))];
    }
  }

  lemma NothingLoaded()
    ensures Load([]) == Some(Loaded([], None))
  {
  }

  // ---------------------------------------------------------------- printed lines are the file's lines

  /** A line ends with its only newline. */
  predicate IsLine(l: string) {
    l != "" && l[|l| - 1] == '\n' && forall i :: 0 <= i < |l| - 1 ==> l[i] != '\n'
  }

  lemma {:induction false} LineAhead(l: string, rest: string)
    requires IsLine(l)
    ensures LineLength(l + rest) == |l|
  {
    if |l| > 1 {
      LineAhead(l[1..], rest);
      assert (l + rest)[1..] == l[1..] + rest;
    }
  }

  lemma {:induction false} LinesOfConcat(ls: seq<string>, rest: string)
    requires forall i :: 0 <= i < |ls| ==> IsLine(ls[i])
    ensures LinesOf(Concat(ls) + rest) == ls + LinesOf(rest)
  {
    hide IsLine, LineLength;
    if ls == [] {
      assert Concat(ls) + rest == rest;
    } else {
      var m := |ls| - 1;
      LinesOfConcat(ls[..m], ls[m] + rest);
      assert Concat(ls) + rest == Concat(ls[..m]) + (ls[m] + rest);
      LineFirst(ls[m], rest);
      assert ls == ls[..m] + [ls[m]];
    }
  }

  lemma LineFirst(l: string, rest: string)
    requires IsLine(l)
    ensures LinesOf(l + rest) == [l] + LinesOf(rest)
  {
    hide LineLength;
    LineAhead(l, rest);
    assert (l + rest)[..|l|] == l && (l + rest)[|l|..] == rest;
  }

  predicate NoNewline(s: string) { '\n' !in s }

  lemma {:induction false} EscapedNoNewline(s: string)
    ensures NoNewline(Escaped(s))
  {
    if s != "" {
      EscapedNoNewline(s[1..]);
    }
  }

  lemma DecNoNewline(n: int)
    ensures NoNewline(Dec(n))
  {
    DecChars(n);
  }

  lemma TokenNoNewline(t: Token)
    requires !t.Other?
    ensures NoNewline(TokenText(t))
  {
    match t
    case Str(s) => EscapedNoNewline(s);
    case Int(n) => DecNoNewline(n);
  }

  lemma {:induction false} JoinedNoNewline(ts: seq<Token>)
    requires ts != [] && NoOthers(ts)
    ensures NoNewline(Joined(ts))
  {
    hide TokenText;
    TokenNoNewline(ts[|ts| - 1]);
    if |ts| > 1 {
      JoinedNoNewline(ts[..|ts| - 1]);
    }
  }

  lemma HeaderIsLine(k: DumpKey)
    ensures IsLine(HeaderLine(k))
  {
    hide Joined, Flat;
    FlatNoOthers(k.states);
    JoinedNoNewline(Header(k));
    LineMade("K " + Joined(Header(k)));
  }

  lemma LineMade(s: string)
    requires NoNewline(s)
    ensures IsLine(s + "\n")
  {
  }

  lemma SlotIsLine(slot: nat, count: nat)
    ensures IsLine(SlotLine(slot, count))
  {
    hide Dec;
    DecNoNewline(slot);
    DecNoNewline(count);
    LineMade(Dec(slot) + " " + Dec(count));
  }

  predicate AllLines(ls: seq<string>) { forall i :: 0 <= i < |ls| ==> IsLine(ls[i]) }

  lemma {:induction false} SlotLinesAreLines(counts: seq<nat>, n: nat)
    requires n <= |counts|
    ensures AllLines(SlotLines(counts, n))
  {
    hide IsLine, SlotLine;
    if n > 0 {
      SlotLinesAreLines(counts, n - 1);
      SlotIsLine(n - 1, counts[n - 1]);
    }
  }

  lemma {:induction false} DumpLinesAreLines(ks: seq<DumpKey>)
    ensures AllLines(DumpLines(ks))
  {
    hide IsLine, HeaderLine, SlotLines;
    if ks != [] {
      var k := ks[|ks| - 1];
      DumpLinesAreLines(ks[..|ks| - 1]);
      HeaderIsLine(k);
      SlotLinesAreLines(k.counts, |k.counts|);
    }
  }

  /**
   Writing the records and reading the file gives back every key: region, states, overflow mark,
   root, count, and the counts of the slots that ran. For all names and values.
   */
  method DumpAndLoad(ks: seq<DumpKey>) returns (r: Option<seq<(int, KeyRec)>>)
    requires Dumpable(ks)
    ensures r == Some(RecsOf(ks))
  {
    hide LoadLine, KeyLines, RecOf, LinesOf, IsLine;
    var f := new BlocksFile();
    f.WriteKeys(ks);
    r := LoadBlocks(f.text);
    DumpReadsBack(ks);
  }

  lemma DumpReadsBack(ks: seq<DumpKey>)
    requires Dumpable(ks)
    ensures LinesOf("" + Concat(DumpLines(ks))) == DumpLines(ks)
    ensures Load(DumpLines(ks)).Some? && Load(DumpLines(ks)).value.keys == RecsOf(ks)
  {
    hide Load, KeyLines, RecOf, LinesOf, IsLine, DumpLines, Concat;
    DumpLinesAreLines(ks);
    LinesOfConcat(DumpLines(ks), "");
    assert Concat(DumpLines(ks)) + "" == Concat(DumpLines(ks)) == "" + Concat(DumpLines(ks));
    NoLines();
    LoadDump(ks);
  }

  lemma NoLines()
    ensures LinesOf("") == []
  {
  }
}
