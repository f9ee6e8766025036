/**
 A file with a region that may be turned off and is left live: a `try` whose handler holds four
 regions, and after it an `if` with one that shares its `with`, at the same column and less deep.
 The walk refuses that one first. Three of the four then move the fourth down, line by line, onto
 the line and column it was refused under.
 */
module MarkerMissed {
  import opened Options
  import opened Whitespace
  import opened MarkerLines
  import opened MarkerTree
  import opened MarkersOff
  import opened MarkerWalk
  import opened MarkerExamples

  // ---------------------------------------------------------------- the walk over a list of statements

  function Lift(t: Option<Target>): Option<Target> {
    match t
    case None => None
    case Some(u) => Some(u.(path := InRest(u.path)))
  }

  function Better(a: Option<Target>, b: Option<Target>): Option<Target> {
    if b == None then a
    else if a == None || b.value.depth < a.value.depth then b
    else a
  }

  lemma {:induction false} FirstUnder(ts: seq<Target>, notes: seq<Note>)
    ensures First(Under(ts, false), notes) == Lift(First(ts, notes))
  {
    hide Skipped;
    if ts != [] {
      var m := |ts| - 1;
      FirstUnder(ts[..m], notes);
      assert Under(ts, false)[..m] == Under(ts[..m], false);
    }
  }

  lemma {:induction false} FirstJoins(a: seq<Target>, b: seq<Target>, notes: seq<Note>)
    ensures First(a + b, notes) == Better(First(a, notes), First(b, notes))
  {
    hide Skipped, KeyOf;
    if b == [] {
      assert a + b == a;
    } else {
      var m := |b| - 1;
      FirstJoins(a, b[..m], notes);
      assert (a + b)[..|a + b| - 1] == a + b[..m];
    }
  }

  function Next(d: Doc, at: nat, notes: seq<Note>): Option<Target> { First(Targets(d, at, 0), notes) }

  lemma NextPlain(t: string, rest: Doc, at: nat, notes: seq<Note>)
    ensures Next(Plain(t, rest), at, notes) == Lift(Next(rest, at + 1, notes))
  {
    hide First;
    FirstUnder(Targets(rest, at + 1, 0), notes);
  }

  function OwnAt(at: nat, alone: bool, level: nat, notes: seq<Note>): Option<Target> {
    if Skipped(notes, (at, INDENT)) then None
    else Some(Target(Here, at, INDENT, at + 2, level + 1, alone, false))
  }

  lemma SmallTargets(live: bool, alone: bool, level: nat, rest: Doc, at: nat)
    ensures var d := Small(live, INDENT, alone, level, rest);
            Targets(d, at, 0) ==
            (if live then [Target(Here, at, INDENT, at + 2, level + 1, alone, false)] else [])
            + Under(Targets(rest, at + if live then 2 else 3, 0), false)
  {
    hide Line, Under, EndLine;
    var d := Small(live, INDENT, alone, level, rest);
    assert Targets(Eof, at + 2, Inner(d, 0)) == [];
    assert Under([], false) == [] && Under([], true) == [];
    assert Text(Eof) == [];
  }

  lemma NextDead(alone: bool, level: nat, rest: Doc, at: nat, notes: seq<Note>)
    ensures Next(Small(false, INDENT, alone, level, rest), at, notes) == Lift(Next(rest, at + 3, notes))
  {
    hide First, Small;
    SmallTargets(false, alone, level, rest, at);
    FirstUnder(Targets(rest, at + 3, 0), notes);
    assert [] + Under(Targets(rest, at + 3, 0), false) == Under(Targets(rest, at + 3, 0), false);
  }

  lemma NextLive(alone: bool, level: nat, rest: Doc, at: nat, notes: seq<Note>)
    ensures Next(Small(true, INDENT, alone, level, rest), at, notes) ==
            Better(OwnAt(at, alone, level, notes), Lift(Next(rest, at + 2, notes)))
  {
    hide Small, Skipped, Targets;
    var own := Target(Here, at, INDENT, at + 2, level + 1, alone, false);
    SmallTargets(true, alone, level, rest, at);
    FirstUnder(Targets(rest, at + 2, 0), notes);
    FirstJoins([own], Under(Targets(rest, at + 2, 0), false), notes);
    assert [own][..0] == [];
  }

  // ---------------------------------------------------------------- the file

  /** `n` regions of the handler, one after the other, live or commented out. */
  function Handled(live: bool, n: nat, rest: Doc): Doc {
    if n == 0 then rest else Small(live, INDENT, true, 2, Handled(live, n - 1, rest))
  }

  function Sharing(): Doc {
    Plain(Line(0, "if c:\n"), Small(true, INDENT, false, 1, Eof))
  }

  function Handler(k: nat): Doc
    requires k <= 4
  {
    Handled(false, k, Handled(true, 4 - k, Sharing()))
  }

  /** The file once the first `k` of the four are commented out. */
  function Trying(k: nat): Doc
    requires k <= 4
  {
    Plain(Line(0, "try:\n"), Plain(Line(INDENT, WORD), Plain(Line(0, "except E:\n"), Handler(k))))
  }

  function Down(n: nat, p: Path): Path {
    if n == 0 then p else InRest(Down(n - 1, p))
  }

  function LiftBy(n: nat, t: Option<Target>): Option<Target> {
    if n == 0 then t else Lift(LiftBy(n - 1, t))
  }

  lemma {:induction false} LiftByIs(n: nat, t: Option<Target>)
    ensures LiftBy(n, t) == match t case None => None case Some(u) => Some(u.(path := Down(n, u.path)))
  {
    if n > 0 {
      LiftByIs(n - 1, t);
    }
  }

  lemma {:induction false} PastDead(k: nat, rest: Doc, at: nat, notes: seq<Note>)
    ensures Next(Handled(false, k, rest), at, notes) == LiftBy(k, Next(rest, at + 3 * k, notes))
  {
    hide Next, Small, Lift;
    if k > 0 {
      NextDead(true, 2, Handled(false, k - 1, rest), at, notes);
      PastDead(k - 1, rest, at + 3, notes);
    }
  }

  lemma NextSharing(at: nat, notes: seq<Note>)
    ensures Next(Sharing(), at, notes) == Lift(OwnAt(at + 1, false, 1, notes))
  {
    hide OwnAt, Small, Skipped;
    NextPlain(Line(0, "if c:\n"), Small(true, INDENT, false, 1, Eof), at, notes);
    NextLive(false, 1, Eof, at + 1, notes);
    assert Targets(Eof, at + 3, 0) == [];
  }

  /** The shared `with` comes first, as long as its line is no skipped one. */
  lemma {:induction false} SharingFirst(n: nat, at: nat, notes: seq<Note>)
    requires !Skipped(notes, (at + 2 * n + 1, INDENT))
    ensures Next(Handled(true, n, Sharing()), at, notes) == LiftBy(n + 1, OwnAt(at + 2 * n + 1, false, 1, notes))
  {
    hide Next, Small, Sharing, Skipped;
    if n == 0 {
      NextSharing(at, notes);
      assert LiftBy(1, OwnAt(at + 1, false, 1, notes)) == Lift(LiftBy(0, OwnAt(at + 1, false, 1, notes)));
    } else {
      NextLive(true, 2, Handled(true, n - 1, Sharing()), at, notes);
      SharingFirst(n - 1, at + 2, notes);
      LiftByIs(n, OwnAt(at + 2 * n + 1, false, 1, notes));
    }
  }

  /** After that the first of the four that is live and on no skipped line. */
  lemma {:induction false} HandledNext(n: nat, at: nat, notes: seq<Note>)
    requires Skipped(notes, (at + 2 * n + 1, INDENT))
    ensures var t := Next(Handled(true, n, Sharing()), at, notes);
            && (t == None || t.value.depth == 3)
            && (n > 0 && !Skipped(notes, (at, INDENT)) ==> t == OwnAt(at, true, 2, notes))
            && (n == 1 && Skipped(notes, (at, INDENT)) ==> t == None)
  {
    hide Next, Small, Sharing, Skipped;
    if n == 0 {
      NextSharing(at, notes);
    } else {
      NextLive(true, 2, Handled(true, n - 1, Sharing()), at, notes);
      HandledNext(n - 1, at + 2, notes);
      if n == 1 {
        NextSharing(at + 2, notes);
      }
    }
  }

  /** What the walk meets next in the file. */
  lemma NextTrying(k: nat, notes: seq<Note>)
    requires k <= 4
    ensures Next(Trying(k), 0, notes) ==
            LiftBy(k + 3, Next(Handled(true, 4 - k, Sharing()), 3 + 3 * k, notes))
  {
    hide Next, Sharing, Handled, Lift, Line;
    var d := Handler(k);
    NextPlain(Line(0, "try:\n"), Plain(Line(INDENT, WORD), Plain(Line(0, "except E:\n"), d)), 0, notes);
    NextPlain(Line(INDENT, WORD), Plain(Line(0, "except E:\n"), d), 1, notes);
    NextPlain(Line(0, "except E:\n"), d, 2, notes);
    PastDead(k, Handled(true, 4 - k, Sharing()), 3, notes);
    var t := Next(Handled(true, 4 - k, Sharing()), 3 + 3 * k, notes);
    assert LiftBy(k + 1, t) == Lift(LiftBy(k, t)) && LiftBy(k + 2, t) == Lift(LiftBy(k + 1, t));
  }

  // ---------------------------------------------------------------- what stands there

  lemma {:induction false} InDead(k: nat, rest: Doc, p: Path)
    ensures LiveAt(Handled(false, k, rest), Down(k, p)) == LiveAt(rest, p)
    ensures LiveAt(rest, p) ==>
              && NodeAt(Handled(false, k, rest), Down(k, p)) == NodeAt(rest, p)
              && TurnOffAt(Handled(false, k, rest), Down(k, p)) == Handled(false, k, TurnOffAt(rest, p))
  {
    hide Line, DedentDoc;
    if k > 0 {
      InDead(k - 1, rest, p);
    }
  }

  lemma {:induction false} DownTwice(n: nat, m: nat, p: Path)
    ensures Down(n, Down(m, p)) == Down(n + m, p)
  {
    if n > 0 {
      DownTwice(n - 1, m, p);
    }
  }

  lemma AfterLine(t: string, rest: Doc, p: Path)
    ensures LiveAt(Plain(t, rest), InRest(p)) == LiveAt(rest, p)
    ensures LiveAt(rest, p) ==>
              && NodeAt(Plain(t, rest), InRest(p)) == NodeAt(rest, p)
              && TurnOffAt(Plain(t, rest), InRest(p)) == Plain(t, TurnOffAt(rest, p))
  {
  }

  lemma InTrying(k: nat, p: Path)
    requires k <= 4
    ensures var rest := Handled(true, 4 - k, Sharing());
            && LiveAt(Trying(k), Down(k + 3, p)) == LiveAt(rest, p)
            && (LiveAt(rest, p) ==> NodeAt(Trying(k), Down(k + 3, p)) == NodeAt(rest, p))
            && (LiveAt(rest, p) ==>
                  TurnOffAt(Trying(k), Down(k + 3, p)) ==
                  Plain(Line(0, "try:\n"), Plain(Line(INDENT, WORD), Plain(Line(0, "except E:\n"),
                    Handled(false, k, TurnOffAt(rest, p))))))
  {
    hide Line, Handled, Sharing, LiveAt, NodeAt, TurnOffAt;
    InDead(k, Handled(true, 4 - k, Sharing()), p);
    AfterLine(Line(0, "except E:\n"), Handler(k), Down(k, p));
    var d := Plain(Line(0, "except E:\n"), Handler(k));
    AfterLine(Line(INDENT, WORD), d, Down(k + 1, p));
    AfterLine(Line(0, "try:\n"), Plain(Line(INDENT, WORD), d), Down(k + 2, p));
  }

  lemma {:induction false} SharingAt(n: nat)
    ensures LiveAt(Handled(true, n, Sharing()), Down(n + 1, Here))
    ensures NodeAt(Handled(true, n, Sharing()), Down(n + 1, Here)) == Small(true, INDENT, false, 1, Eof)
  {
    hide Line;
    if n > 0 {
      SharingAt(n - 1);
    } else {
      assert Down(1, Here) == InRest(Down(0, Here));
    }
  }

  lemma SmallDedents()
    ensures DedentDoc(Plain(Line(INDENT + INDENT, WORD), Eof)) == Plain(Line(INDENT, WORD), Eof)
  {
    hide IsBlank;
    Words();
    WordIsNoMark(INDENT + INDENT, WORD, ')');
    PadDrops(INDENT + INDENT, WORD);
  }

  lemma {:induction false} DeadGrows(k: nat, rest: Doc)
    ensures Handled(false, k, Small(false, INDENT, true, 2, rest)) == Handled(false, k + 1, rest)
  {
    hide Small;
    if k > 0 {
      DeadGrows(k - 1, rest);
    } else {
      assert Handled(false, 1, rest) == Small(false, INDENT, true, 2, Handled(false, 0, rest));
    }
  }

  /** The next of the four, commented out. */
  lemma HandledOff(k: nat)
    requires k < 4
    ensures var p := Down(k + 3, Here);
            && LiveAt(Trying(k), p) && MayTurnOff(NodeAt(Trying(k), p))
            && TurnOffAt(Trying(k), p) == Trying(k + 1)
  {
    hide Line, Sharing, MayTurnOff;
    InTrying(k, Here);
    var rest := Handled(true, 3 - k, Sharing());
    assert Handled(true, 4 - k, Sharing()) == Small(true, INDENT, true, 2, rest);
    SmallMay(INDENT, 2, rest);
    SmallDedents();
    DeadGrows(k, rest);
  }

  lemma SharingRefused(k: nat)
    requires k <= 4
    ensures var p := Down(8, Here);
            LiveAt(Trying(k), p) && Refusal(NodeAt(Trying(k), p)) == Some(SharesItsWith)
  {
    hide Line, Handled, Sharing, Trying;
    InTrying(k, Down(5 - k, Here));
    DownTwice(k + 3, 5 - k, Here);
    SharingAt(4 - k);
  }

  lemma {:induction false} HandledLaid(live: bool, n: nat, rest: Doc)
    requires Laid(rest, 0)
    ensures Laid(Handled(live, n, rest), 0)
  {
    hide Laid, Small;
    if n > 0 {
      HandledLaid(live, n - 1, rest);
      SmallLaid(live, INDENT, true, 2, Handled(live, n - 1, rest), 0);
    }
  }

  lemma TryingLaid(k: nat)
    requires k <= 4
    ensures Laid(Trying(k), 0)
  {
    hide Line, Small, AtMargin, IsOff, IsEnd, IsBlank, Word, Handled;
    Words();
    PlainLaid(0, 0, "if c:\n", ':');
    PlainLaid(0, 0, "try:\n", ':');
    PlainLaid(0, 0, "except E:\n", ':');
    PlainLaid(INDENT, 0, WORD, ')');
    SmallLaid(true, INDENT, false, 1, Eof, 0);
    assert Laid(Sharing(), 0);
    HandledLaid(true, 4 - k, Sharing());
    HandledLaid(false, k, Handled(true, 4 - k, Sharing()));
    assert Laid(Plain(Line(0, "except E:\n"), Handler(k)), 0);
  }

  lemma {:induction false} HandledLive(n: nat)
    ensures AllLive(Handled(true, n, Sharing()))
  {
    hide Line;
    if n > 0 {
      HandledLive(n - 1);
    }
  }

  // ---------------------------------------------------------------- the whole walk

  /** The refusals of the shared `with`: one more after each rewrite, which moves it a line down. */
  function Refusals(n: nat): seq<Note> {
    if n == 0 then [] else Refusals(n - 1) + [Note((11 + n, INDENT), SharesItsWith, Down(8, Here))]
  }

  lemma {:induction false} RefusalLines(n: nat, at: nat)
    ensures Skipped(Refusals(n), (at, INDENT)) <==> 12 <= at < 12 + n
  {
    hide Skipped;
    if n > 0 {
      RefusalLines(n - 1, at);
      SkippedGrows(Refusals(n - 1), Note((11 + n, INDENT), SharesItsWith, Down(8, Here)), (at, INDENT));
    } else {
      NoneSkipped((at, INDENT));
    }
  }

  lemma NoneSkipped(key: Key)
    ensures !Skipped([], key)
  {
  }

  /** The shared `with` is refused where it is now. */
  lemma RefuseStep(k: nat)
    requires k <= 3 && Laid(Trying(k), 0)
    ensures Off(Trying(k), Refusals(k)) == Off(Trying(k), Refusals(k + 1))
  {
    hide Laid, Trying, Small, Sharing, Handled, Skipped, Refusal, Targets, Off;
    RefusalLines(k, 12 + k);
    NextTrying(k, Refusals(k));
    SharingFirst(4 - k, 3 + 3 * k, Refusals(k));
    var t := Target(Here, 12 + k, INDENT, 14 + k, 2, false, false);
    LiftByIs(5 - k, Some(t));
    LiftByIs(k + 3, Some(t.(path := Down(5 - k, Here))));
    DownTwice(k + 3, 5 - k, Here);
    SharingRefused(k);
    OffRefuses(Trying(k), Refusals(k), t.(path := Down(8, Here)), SharesItsWith);
  }

  lemma OffRefuses(d: Doc, notes: seq<Note>, t: Target, reason: Reason)
    requires Laid(d, 0) && Next(d, 0, notes) == Some(t)
    requires LiveAt(d, t.path) && Refusal(NodeAt(d, t.path)) == Some(reason)
    ensures Off(d, notes) == Off(d, notes + [Note(KeyOf(t), reason, t.path)])
  {
    hide Laid, First, Targets, Refusal, LiveAt, NodeAt;
  }

  lemma OffRewrites(d: Doc, notes: seq<Note>, t: Target)
    requires Laid(d, 0) && Next(d, 0, notes) == Some(t)
    requires LiveAt(d, t.path) && MayTurnOff(NodeAt(d, t.path)) && Laid(TurnOffAt(d, t.path), 0)
    ensures Off(d, notes) == Off(TurnOffAt(d, t.path), notes)
  {
    hide Laid, First, Targets, Refusal, LiveAt, NodeAt, TurnOffAt;
  }

  lemma OffEnds(d: Doc, notes: seq<Note>)
    requires Laid(d, 0) && Next(d, 0, notes) == None
    ensures Off(d, notes) == (d, notes)
  {
    hide Laid, First, Targets;
  }

  /** One of the first three is commented out. */
  lemma RewriteStep(k: nat)
    requires k < 3 && Laid(Trying(k), 0) && Laid(Trying(k + 1), 0)
    ensures Off(Trying(k), Refusals(k + 1)) == Off(Trying(k + 1), Refusals(k + 1))
  {
    hide Laid, Trying, Small, Sharing, Handled, Skipped, Refusal, Targets, Off;
    RefusalLines(k + 1, 12 + k);
    RefusalLines(k + 1, 3 + 3 * k);
    NextTrying(k, Refusals(k + 1));
    HandledNext(4 - k, 3 + 3 * k, Refusals(k + 1));
    var t := Target(Here, 3 + 3 * k, INDENT, 5 + 3 * k, 3, true, false);
    LiftByIs(k + 3, Some(t));
    HandledOff(k);
    OffRewrites(Trying(k), Refusals(k + 1), t.(path := Down(k + 3, Here)));
  }

  /** The fourth now stands where the shared `with` was first refused, and is not looked at. */
  lemma LastStep()
    requires Laid(Trying(3), 0)
    ensures Off(Trying(3), Refusals(4)) == (Trying(3), Refusals(4))
  {
    hide Laid, Trying, Small, Sharing, Handled, Skipped, Refusal, Targets, Off, Refusals;
    RefusalLines(4, 12);
    RefusalLines(4, 15);
    NextTrying(3, Refusals(4));
    HandledNext(1, 12, Refusals(4));
    LiftByIs(6, None);
    OffEnds(Trying(3), Refusals(4));
  }

  /** The walk ends with the fourth region live, which may be turned off. */
  lemma RegionIsMissed()
    ensures Laid(Trying(0), 0) && AllLive(Trying(0))
    ensures Off(Trying(0), []) == (Trying(3), Refusals(4))
    ensures var fourth := Down(6, Here); LiveAt(Trying(3), fourth) && MayTurnOff(NodeAt(Trying(3), fourth))
    ensures !NothingMissed(Off(Trying(0), []).0)
  {
    hide Laid, Trying, Refusal, MayTurnOff, Off, Refusals, LiveAt, NodeAt;
    TryingLaid(0);
    TryingLaid(1);
    TryingLaid(2);
    TryingLaid(3);
    StartLive();
    NoRefusalsYet();
    RefuseStep(0);
    RewriteStep(0);
    RefuseStep(1);
    RewriteStep(1);
    RefuseStep(2);
    RewriteStep(2);
    RefuseStep(3);
    LastStep();
    HandledOff(3);
  }

  lemma StartLive()
    ensures AllLive(Trying(0))
  {
    hide Line, Sharing;
    HandledLive(4);
    assert Handler(0) == Handled(true, 4, Sharing());
  }

  lemma NoRefusalsYet()
    ensures Refusals(0) == []
  {
  }
}
