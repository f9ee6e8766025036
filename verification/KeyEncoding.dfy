/**
 The text under which the client files a region key.

 region \1 name=value \1 ... \1 root, in a buffer of fixed size, and region \1 <other> for
 the bucket of state combinations beyond the budget.
 */
module KeyEncoding {
  import opened Decimal
  import opened Fnv

  const RNAME_MAX: nat := 160
  const STATE_NAME_MAX: nat := 64
  const KEY_STATES: nat := 4
  const KBUF: nat := 2 * RNAME_MAX + KEY_STATES * (STATE_NAME_MAX + 24) + 32
  const SEP: char := '\U{0001}'

  /** What a begin marker asks for: region, declared states, and the outermost open region. */
  datatype Request = Request(region: string, names: seq<string>, vals: seq<int>, root: string)

  predicate Int64(n: int) { -0x8000_0000_0000_0000 <= n < 0x8000_0000_0000_0000 }

  predicate Plain(s: string) { SEP !in s }

  /** Bounded strings without the separator; one to four declared states (the markers see to that). */
  ghost predicate WellFormed(q: Request) {
    && 1 <= |q.names| == |q.vals| <= KEY_STATES
    && |q.region| < RNAME_MAX && Plain(q.region) && |q.root| < RNAME_MAX && Plain(q.root)
    && forall i :: 0 <= i < |q.names| ==> |q.names[i]| < STATE_NAME_MAX && Plain(q.names[i]) && Int64(q.vals[i])
  }

  /** The C string copy into a buffer of `cap` bytes. */
  function Truncate(s: string, cap: nat): string
    requires cap > 0
  {
    if |s| < cap then s else s[..cap - 1]
  }

  function Join(fs: seq<string>): string {
    if fs == [] then "" else if |fs| == 1 then fs[0] else fs[0] + [SEP] + Join(fs[1..])
  }

  function StateField(name: string, v: int): string {
    Truncate(name, STATE_NAME_MAX) + "=" + Dec(v)
  }

  function StateFields(names: seq<string>, vals: seq<int>): (fs: seq<string>)
    requires |names| == |vals|
    ensures |fs| == |names|
    ensures forall i :: 0 <= i < |fs| ==> fs[i] == StateField(names[i], vals[i])
  {
    seq(|names|, i requires 0 <= i < |names| => StateField(names[i], vals[i]))
  }

  function Fields(q: Request): seq<string>
    requires |q.names| == |q.vals|
  {
    [q.region] + StateFields(q.names, q.vals) + [q.root]
  }

  function OtherFields(region: string): seq<string> { [region, "<other>"] }

  /** The key text: what fits the buffer. */
  function Encode(q: Request): string
    requires |q.names| == |q.vals|
  {
    Truncate(Join(Fields(q)), KBUF)
  }

  function EncodeOther(region: string): string {
    Truncate(Join(OtherFields(region)), KBUF)
  }

  /** The content hash of a request. */
  function Hash(q: Request): nat
    requires |q.names| == |q.vals|
  {
    HashStates(HashString(HashString(BASIS, q.region), q.root), q.names, q.vals)
  }

  function HashStates(h: nat, names: seq<string>, vals: seq<int>): nat
    requires |names| == |vals|
  {
    if names == [] then h else
      var n := |names| - 1;
      Mix(HashString(HashStates(h, names[..n], vals[..n]), names[n]), Unsigned(vals[n]))
  }

  // ---------------------------------------------------------------- the encoding is injective

  /** The text before the first separator. */
  function Before(s: string): (p: string)
    ensures |p| <= |s| && (SEP in s ==> |p| < |s|)
  {
    if s == "" || s[0] == SEP then "" else [s[0]] + Before(s[1..])
  }

  function Split(s: string): seq<string> {
    if SEP in s then [Before(s)] + Split(s[|Before(s)| + 1..]) else [s]
  }

  lemma {:induction false} BeforeSeparator(a: string, b: string)
    requires Plain(a)
    ensures Before(a + [SEP] + b) == a
  {
    var s := a + [SEP] + b;
    if a != "" {
      assert s[0] == a[0] && s[1..] == a[1..] + [SEP] + b;
      assert a[0] in a;
      BeforeSeparator(a[1..], b);
    }
  }

  predicate AllPlain(fs: seq<string>) { forall i :: 0 <= i < |fs| ==> Plain(fs[i]) }

  lemma SplitStep(a: string, b: string)
    requires Plain(a)
    ensures Split(a + [SEP] + b) == [a] + Split(b)
  {
    var s := a + [SEP] + b;
    assert s[|a|] == SEP;
    BeforeSeparator(a, b);
    assert s[|a| + 1..] == b;
  }

  /** Splitting at the separator undoes joining. */
  lemma {:induction false} SplitJoin(fs: seq<string>)
    requires fs != [] && AllPlain(fs)
    ensures Split(Join(fs)) == fs
  {
    hide Before, Split;
    if |fs| > 1 {
      SplitStep(fs[0], Join(fs[1..]));
      SplitJoin(fs[1..]);
      assert fs == [fs[0]] + fs[1..];
    } else {
      SplitOne(fs[0]);
    }
  }

  lemma SplitOne(a: string)
    requires Plain(a)
    ensures Split(a) == [a]
  {
    hide Before;
  }

  lemma JoinInjective(fs: seq<string>, gs: seq<string>)
    requires fs != [] && gs != [] && AllPlain(fs) && AllPlain(gs) && Join(fs) == Join(gs)
    ensures fs == gs
  {
    SplitJoin(fs);
    SplitJoin(gs);
  }

  /** The text after the last `x`. */
  function AfterLast(s: string, x: char): string {
    if s == "" || s[|s| - 1] == x then "" else AfterLast(s[..|s| - 1], x) + [s[|s| - 1]]
  }

  lemma {:induction false} AfterLastOf(a: string, b: string, x: char)
    requires x !in b
    ensures AfterLast(a + [x] + b, x) == b
  {
    var s := a + [x] + b;
    if b != "" {
      var n := |b| - 1;
      assert s[|s| - 1] == b[n] && s[..|s| - 1] == a + [x] + b[..n];
      assert b[n] in b;
      AfterLastOf(a, b[..n], x);
      assert b == b[..n] + [b[n]];
    }
  }

  lemma StateFieldPlain(name: string, v: int)
    requires Plain(name) && |name| < STATE_NAME_MAX && Int64(v)
    ensures Plain(StateField(name, v)) && |StateField(name, v)| <= STATE_NAME_MAX + 20
  {
    DecChars(v);
    Dec64Length(v);
  }

  lemma StateFieldInjective(m: string, v: int, n: string, w: int)
    requires |m| < STATE_NAME_MAX && |n| < STATE_NAME_MAX && StateField(m, v) == StateField(n, w)
    ensures m == n && v == w
  {
    DecChars(v);
    DecChars(w);
    var s := StateField(m, v);
    AfterLastOf(m, Dec(v), '=');
    AfterLastOf(n, Dec(w), '=');
    assert m == s[..|s| - |Dec(v)| - 1];
    DecInjective(v, w);
  }

  lemma FieldPlain(q: Request, i: nat)
    requires WellFormed(q) && i < |Fields(q)|
    ensures var fs := Fields(q); Plain(fs[i]) && |fs[i]| <= if 0 < i < |fs| - 1 then 84 else 159
  {
    hide StateField, Plain;
    if 0 < i <= |q.names| {
      StateFieldPlain(q.names[i - 1], q.vals[i - 1]);
    }
  }

  lemma FieldsPlain(q: Request)
    requires WellFormed(q)
    ensures AllPlain(Fields(q)) && |Fields(q)| == |q.names| + 2
    ensures |Join(Fields(q))| < KBUF
    ensures Encode(q) == Join(Fields(q))
  {
    hide StateField, Plain, Join;
    var fs := Fields(q);
    forall i | 0 <= i < |fs| ensures Plain(fs[i]) && |fs[i]| <= (if 0 < i < |fs| - 1 then 84 else 159) {
      FieldPlain(q, i);
    }
    JoinLength(fs);
  }

  /** Six fields, of which the first and last are region names, fit the buffer. */
  lemma JoinLength(fs: seq<string>)
    requires 3 <= |fs| <= 6
    requires forall i :: 0 <= i < |fs| ==> |fs[i]| <= (if 0 < i < |fs| - 1 then 84 else 159)
    ensures |Join(fs)| <= 2 * 159 + 4 * 84 + 5
  {
    MiddleLength(fs[1..]);
  }

  lemma {:induction false} MiddleLength(fs: seq<string>)
    requires 1 <= |fs|
    requires |fs[|fs| - 1]| <= 159 && forall i :: 0 <= i < |fs| - 1 ==> |fs[i]| <= 84
    ensures |Join(fs)| <= 159 + 85 * (|fs| - 1)
  {
    if |fs| > 1 {
      MiddleLength(fs[1..]);
    }
  }

  /** Distinct requests are filed under distinct texts. */
  lemma EncodeInjective(p: Request, q: Request)
    requires WellFormed(p) && WellFormed(q) && Encode(p) == Encode(q)
    ensures p == q
  {
    hide StateField, Join, Truncate, Plain;
    FieldsPlain(p);
    FieldsPlain(q);
    JoinInjective(Fields(p), Fields(q));
    var n := |p.names|;
    assert Fields(p)[0] == Fields(q)[0] && Fields(p)[n + 1] == Fields(q)[n + 1];
    forall i | 0 <= i < n ensures p.names[i] == q.names[i] && p.vals[i] == q.vals[i] {
      assert Fields(p)[i + 1] == Fields(q)[i + 1];
      StateFieldInjective(p.names[i], p.vals[i], q.names[i], q.vals[i]);
    }
    assert p.names == q.names && p.vals == q.vals;
  }

  lemma OtherPlain(region: string)
    requires |region| < RNAME_MAX && Plain(region)
    ensures AllPlain(OtherFields(region)) && EncodeOther(region) == Join(OtherFields(region))
  {
    assert Join(OtherFields(region)) == region + [SEP] + "<other>";
  }

  lemma EncodeOtherInjective(r: string, s: string)
    requires |r| < RNAME_MAX && Plain(r) && |s| < RNAME_MAX && Plain(s) && EncodeOther(r) == EncodeOther(s)
    ensures r == s
  {
    OtherPlain(r);
    OtherPlain(s);
    JoinInjective(OtherFields(r), OtherFields(s));
    assert OtherFields(r)[0] == OtherFields(s)[0];
  }

  /** No request is filed under the bucket's text. */
  lemma NoCollisionWithOther(q: Request, region: string)
    requires WellFormed(q) && |region| < RNAME_MAX && Plain(region)
    ensures Encode(q) != EncodeOther(region)
  {
    FieldsPlain(q);
    OtherPlain(region);
    if Encode(q) == EncodeOther(region) {
      JoinInjective(Fields(q), OtherFields(region));
    }
  }

  lemma HashUnnamed(h: nat, names: seq<string>, vals: seq<int>)
    requires names == [""] && |vals| == 1
    ensures HashStates(h, names, vals) == Mix(h, Unsigned(vals[0]))
  {
    hide Mix, Unsigned;
    assert names[..0] == [] && vals[..0] == [];
    assert HashStates(h, names[..0], vals[..0]) == h;
  }

  /** Two requests with one unnamed state that hash alike ask for the same value. */
  lemma UnnamedHashInjective(p: Request, q: Request)
    requires p.names == [""] == q.names && |p.vals| == 1 == |q.vals| && Int64(p.vals[0]) && Int64(q.vals[0])
    requires p.region == q.region && p.root == q.root && Hash(p) == Hash(q)
    ensures p.vals == q.vals
  {
    hide Mix;
    var h := HashString(HashString(BASIS, p.region), p.root);
    HashUnnamed(h, p.names, p.vals);
    HashUnnamed(h, q.names, q.vals);
    MixInjective(h, Unsigned(p.vals[0]), Unsigned(q.vals[0]));
    assert p.vals[0] == q.vals[0];
  }
}
