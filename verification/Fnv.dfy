/**
 The client's content hash: 64-bit FNV-1a over bytes, then over whole state values.
 Its last step is injective in the value hashed last, because the multiplier is odd.
 */
module Fnv {
  const BASIS: nat := 1469598103934665603
  const PRIME: nat := 1099511628211
  const MODULUS: nat := 0x1_0000_0000_0000_0000

  function Pow2(k: nat): nat { if k == 0 then 1 else 2 * Pow2(k - 1) }

  function XorBit(a: nat, b: nat): (x: nat)
    ensures x < 2
  {
    (a + b) % 2
  }

  lemma XorBitInjective(a: nat, b: nat, c: nat)
    requires b < 2 && c < 2 && XorBit(a, b) == XorBit(a, c)
    ensures b == c
  {
  }

  /** Exclusive or of the low `k` bits. */
  function Xor(a: nat, b: nat, k: nat): (x: nat)
    ensures x < Pow2(k)
  {
    if k == 0 then 0 else XorBit(a % 2, b % 2) + 2 * Xor(a / 2, b / 2, k - 1)
  }

  lemma {:induction false} XorInjective(a: nat, b: nat, c: nat, k: nat)
    requires b < Pow2(k) && c < Pow2(k) && Xor(a, b, k) == Xor(a, c, k)
    ensures b == c
  {
    if k > 0 {
      hide XorBit;
      var x, y := Xor(a / 2, b / 2, k - 1), Xor(a / 2, c / 2, k - 1);
      assert x == y && XorBit(a % 2, b % 2) == XorBit(a % 2, c % 2);
      XorInjective(a / 2, b / 2, c / 2, k - 1);
      XorBitInjective(a % 2, b % 2, c % 2);
    }
  }

  /** Binary digit `i`. */
  function Digit(a: nat, i: nat): nat {
    if i == 0 then a % 2 else Digit(a / 2, i - 1)
  }

  /** A digit of the exclusive or is 1 exactly where the digits differ. */
  lemma {:induction false} XorIsBitwise(a: nat, b: nat, k: nat, i: nat)
    requires i < k
    ensures Digit(Xor(a, b, k), i) == if Digit(a, i) == Digit(b, i) then 0 else 1
  {
    var x := XorBit(a % 2, b % 2);
    var rest := Xor(a / 2, b / 2, k - 1);
    assert (x + 2 * rest) % 2 == x && (x + 2 * rest) / 2 == rest;
    if i > 0 {
      XorIsBitwise(a / 2, b / 2, k - 1, i - 1);
    }
  }

  lemma {:induction false} XorCommutes(a: nat, b: nat, k: nat)
    ensures Xor(a, b, k) == Xor(b, a, k)
  {
    if k > 0 {
      XorCommutes(a / 2, b / 2, k - 1);
    }
  }

  lemma Pow2Of64()
    ensures Pow2(64) == MODULUS
  {
    assert Pow2(8) == 0x100;
    assert Pow2(16) == 0x1_0000;
    assert Pow2(24) == 0x100_0000;
    assert Pow2(32) == 0x1_0000_0000;
    assert Pow2(40) == 0x100_0000_0000;
    assert Pow2(48) == 0x1_0000_0000_0000;
    assert Pow2(56) == 0x100_0000_0000_0000;
  }

  /** One hashing step: mix in a byte or a 64-bit value, then multiply. */
  function Mix(h: nat, x: nat): (r: nat)
    ensures r < MODULUS
  {
    Xor(h, x, 64) * PRIME % MODULUS
  }

  /** Multiplying by the prime loses nothing modulo 2^64. */
  lemma TimesPrimeInjective(x: nat, y: nat)
    requires x < MODULUS && y < MODULUS && x * PRIME % MODULUS == y * PRIME % MODULUS
    ensures x == y
  {
    // PRIME * inverse == 1 + carry * MODULUS
    var inverse := 14886173955864302971;
    var carry := PRIME * inverse / MODULUS;
    assert PRIME * inverse == 1 + carry * MODULUS;
    var k := x * PRIME / MODULUS - y * PRIME / MODULUS;
    assert (x - y) * PRIME == k * MODULUS;
    var z := k * inverse - carry * (x - y);
    assert x - y == MODULUS * z;
    assert z == 0;
  }

  lemma MixInjective(h: nat, x: nat, y: nat)
    requires x < MODULUS && y < MODULUS && Mix(h, x) == Mix(h, y)
    ensures x == y
  {
    Pow2Of64();
    TimesPrimeInjective(Xor(h, x, 64), Xor(h, y, 64));
    XorInjective(h, x, y, 64);
  }

  function HashString(h: nat, s: string): nat {
    if s == "" then h else Mix(HashString(h, s[..|s| - 1]), s[|s| - 1] as nat)
  }

  /** Nor does a step lose anything of what was hashed before. */
  lemma MixKeepsState(h: nat, g: nat, x: nat)
    requires h < MODULUS && g < MODULUS && Mix(h, x) == Mix(g, x)
    ensures h == g
  {
    hide Xor;
    Pow2Of64();
    TimesPrimeInjective(Xor(h, x, 64), Xor(g, x, 64));
    XorCommutes(h, x, 64);
    XorCommutes(g, x, 64);
    XorInjective(x, h, g, 64);
  }

  lemma {:induction false} HashStringBelow(h: nat, s: string)
    requires h < MODULUS
    ensures HashString(h, s) < MODULUS
  {
    hide Mix;
    if s != "" {
      HashStringBelow(h, s[..|s| - 1]);
    }
  }

  /** Hashing the same text from different states ends in different states. */
  lemma {:induction false} HashKeepsState(h: nat, g: nat, s: string)
    requires h < MODULUS && g < MODULUS && HashString(h, s) == HashString(g, s)
    ensures h == g
  {
    hide Mix;
    if s != "" {
      var front := s[..|s| - 1];
      HashStringBelow(h, front);
      HashStringBelow(g, front);
      MixKeepsState(HashString(h, front), HashString(g, front), s[|s| - 1] as nat);
      HashKeepsState(h, g, front);
    }
  }

  lemma {:induction false} HashConcat(h: nat, s: string, t: string)
    ensures HashString(h, s + t) == HashString(HashString(h, s), t)
  {
    hide Mix;
    if t == "" {
      assert s + t == s;
    } else {
      assert (s + t)[..|s + t| - 1] == s + t[..|t| - 1];
      HashConcat(h, s, t[..|t| - 1]);
    }
  }

  /** Two texts that differ in one character hash differently. */
  lemma HashTellsOneApart(h: nat, before: string, c: char, d: char, after: string)
    requires h < MODULUS && c != d
    ensures HashString(h, before + [c] + after) != HashString(h, before + [d] + after)
  {
    hide Mix;
    var g := HashString(h, before);
    HashConcat(h, before + [c], after);
    HashConcat(h, before + [d], after);
    assert (before + [c])[..|before|] == before && (before + [d])[..|before|] == before;
    if HashString(h, before + [c] + after) == HashString(h, before + [d] + after) {
      HashKeepsState(Mix(g, c as nat), Mix(g, d as nat), after);
      MixInjective(g, c as nat, d as nat);
    }
  }

  /** A signed 64-bit value as the unsigned number with the same bits. */
  function Unsigned(v: int): (u: nat)
    ensures u < MODULUS
  {
    v % MODULUS
  }
}
