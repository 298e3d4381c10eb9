/** The 32-bit FNV-1a hash that names hoisted schemas and abbreviates fingerprints. */
module Fnv {
  import opened Strings

  const WORD := 0x1_0000_0000
  const OFFSET := 0x811c9dc5
  const PRIME := 0x01000193

  /** Bitwise exclusive or of two non-negative integers. */
  function Xor(a: nat, b: nat): nat
    decreases a + b
  {
    if a == 0 && b == 0 then 0 else 2 * Xor(a / 2, b / 2) + (a + b) % 2
  }

  function Mix(h: nat, c: char): nat {
    (Xor(h, c as int) * PRIME) % WORD
  }

  function Fold(h: nat, s: string): nat
    decreases s
  {
    if s == [] then h else Fold(Mix(h, s[0]), s[1..])
  }

  /** Eight lower-case hexadecimal digits. */
  function Hex8(h: nat): string {
    PadStart(Numeral(h, 16), 8)
  }

  function Hash(s: string): string {
    Hex8(Fold(OFFSET, s))
  }

  method HashCanonical(s: string) returns (r: string)
    ensures r == Hash(s)
  {
    var h := OFFSET;
    var i := 0;
    while i < |s|
      invariant 0 <= i <= |s| && 0 <= h < WORD
      invariant Fold(h, s[i..]) == Fold(OFFSET, s)
    {
      assert s[i..][1..] == s[i + 1..];
      h := Mix(h, s[i]);
      i := i + 1;
    }
    r := Hex8(h);
  }

  lemma {:induction false} XorCancels(a: nat, b: nat, c: nat)
    requires Xor(a, c) == Xor(b, c)
    ensures a == b
    decreases a + b + c
  {
    if a + b + c > 0 {
      assert Xor(a, c) == 2 * Xor(a / 2, c / 2) + (a + c) % 2;
      assert Xor(b, c) == 2 * Xor(b / 2, c / 2) + (b + c) % 2;
      XorCancels(a / 2, b / 2, c / 2);
    }
  }

  lemma {:induction false} XorCommutes(a: nat, b: nat)
    ensures Xor(a, b) == Xor(b, a)
    decreases a + b
  {
    if a + b > 0 { XorCommutes(a / 2, b / 2); }
  }

  lemma {:induction false} XorBound(a: nat, b: nat, width: nat)
    requires a < Pow(2, width) && b < Pow(2, width)
    ensures Xor(a, b) < Pow(2, width)
  {
    if width > 0 { XorBound(a / 2, b / 2, width - 1); }
  }

  // Multiplication by the odd prime is injective modulo 2^32: 0x359c449b inverts it.
  lemma TimesPrimeInjective(x: nat, y: nat)
    requires x < WORD && y < WORD
    requires (x * PRIME) % WORD == (y * PRIME) % WORD
    ensures x == y
  {
    var inverse := 0x359c449b;
    var q := (PRIME * inverse) / WORD;
    assert PRIME * inverse == 1 + q * WORD;
    var d := (x * PRIME) / WORD - (y * PRIME) / WORD;
    assert x - y == WORD * (d * inverse - q * (x - y));
  }

  lemma WordIsPow()
    ensures WORD == Pow(2, 32) == Pow(16, 8)
  {
    assert Pow(2, 8) == 256;
    assert Pow(2, 16) == 65536;
    assert Pow(2, 24) == 16777216;
    assert Pow(16, 4) == 65536;
  }

  // One round keeps distinct states apart, and keeps distinct characters apart.
  lemma MixInjective(h: nat, g: nat, c: char)
    requires h < WORD && g < WORD && Mix(h, c) == Mix(g, c)
    ensures h == g
  {
    WordIsPow();
    XorBound(h, c as int, 32);
    XorBound(g, c as int, 32);
    TimesPrimeInjective(Xor(h, c as int), Xor(g, c as int));
    XorCancels(h, g, c as int);
  }

  lemma MixSeparates(h: nat, c: char, d: char)
    requires h < WORD && Mix(h, c) == Mix(h, d)
    ensures c == d
  {
    WordIsPow();
    XorBound(h, c as int, 32);
    XorBound(h, d as int, 32);
    TimesPrimeInjective(Xor(h, c as int), Xor(h, d as int));
    XorCommutes(h, c as int);
    XorCommutes(h, d as int);
    XorCancels(c as int, d as int, h);
  }

  lemma {:induction false} FoldInjective(h: nat, g: nat, s: string)
    requires h < WORD && g < WORD && Fold(h, s) == Fold(g, s)
    ensures h == g
    decreases s
  {
    if s != [] {
      FoldInjective(Mix(h, s[0]), Mix(g, s[0]), s[1..]);
      MixInjective(h, g, s[0]);
    }
  }

  lemma {:induction false} FoldConcat(h: nat, s: string, t: string)
    ensures Fold(h, s + t) == Fold(Fold(h, s), t)
    decreases s
  {
    if s == [] {
      assert s + t == t;
    } else {
      assert (s + t)[1..] == s[1..] + t;
      FoldConcat(Mix(h, s[0]), s[1..], t);
    }
  }

  lemma {:induction false} FoldBound(h: nat, s: string)
    requires h < WORD
    ensures Fold(h, s) < WORD
    decreases s
  {
    if s != [] { FoldBound(Mix(h, s[0]), s[1..]); }
  }

  // The state never leaves [0, 2^32), so the name is exactly eight lower-case hex digits,
  // and reading them back gives the state.
  lemma HashIsEightHexDigits(s: string)
    ensures Fold(OFFSET, s) < WORD
    ensures |Hash(s)| == 8 && forall c :: c in Hash(s) ==> c in DIGITS
    ensures NumeralValue(Hash(s), 16) == Fold(OFFSET, s)
  {
    FoldBound(OFFSET, s);
    WordIsPow();
    var h := Fold(OFFSET, s);
    NumeralLength(h, 16, 8);
    PadStartKeeps(Numeral(h, 16), 8, 16);
    NumeralRoundTrip(h, 16);
    assert DIGITS[0] == '0';
  }

  // Two strings that differ in exactly one character never collide.
  lemma OneCharacterNeverCollides(before: string, c: char, d: char, after: string)
    requires Hash(before + [c] + after) == Hash(before + [d] + after)
    ensures c == d
  {
    HashIsEightHexDigits(before + [c] + after);
    HashIsEightHexDigits(before + [d] + after);
    FoldBound(OFFSET, before);
    var h := Fold(OFFSET, before);
    FoldConcat(OFFSET, before + [c], after);
    FoldConcat(OFFSET, before + [d], after);
    FoldConcat(OFFSET, before, [c]);
    FoldConcat(OFFSET, before, [d]);
    assert Fold(h, [c]) == Mix(h, c) && Fold(h, [d]) == Mix(h, d);
    FoldInjective(Mix(h, c), Mix(h, d), after);
    MixSeparates(h, c, d);
  }

  // ---------- the hash is FNV-1a ----------

  /** The i-th binary digit of n. */
  function Bit(n: nat, i: nat): nat {
    if i == 0 then n % 2 else Bit(n / 2, i - 1)
  }

  // Xor works digit by digit: a digit of the result is set where those of a and b differ.
  lemma {:induction false} XorBits(a: nat, b: nat, i: nat)
    ensures Bit(Xor(a, b), i) == if Bit(a, i) == Bit(b, i) then 0 else 1
    decreases i
  {
    if a == 0 && b == 0 {
      if i > 0 { XorBits(0, 0, i - 1); }
    } else {
      assert Xor(a, b) / 2 == Xor(a / 2, b / 2) && Xor(a, b) % 2 == (a + b) % 2;
      if i > 0 { XorBits(a / 2, b / 2, i - 1); }
    }
  }

  lemma {:induction false} XorZero(a: nat)
    ensures Xor(a, 0) == a
  {
    if a > 0 { XorZero(a / 2); }
  }

  lemma XorOfA()
    ensures Xor(0x811c9dc5, 0x61) == 0x811c9da4
  {
    XorZero(0x811c9dc5 / 128);
    assert Xor(0x811c9dc5 / 128, 0) == 0x811c9dc5 / 128;
    assert Xor(0x2047277, 0x1) == 0x2047276;
    assert Xor(0x408e4ee, 0x3) == 0x408e4ed;
    assert Xor(0x811c9dc, 0x6) == 0x811c9da;
    assert Xor(0x102393b8, 0xc) == 0x102393b4;
    assert Xor(0x20472771, 0x18) == 0x20472769;
    assert Xor(0x408e4ee2, 0x30) == 0x408e4ed2;
  }

  lemma HexOfEmpty()
    ensures Hex8(0x811c9dc5) == "811c9dc5"
  {}

  lemma HexOfA()
    ensures Hex8(0xe40c292c) == "e40c292c"
  {}

  lemma MixOfA()
    ensures Mix(0x811c9dc5, 'a') == 0xe40c292c
  {
    XorOfA();
    hide Xor;
  }

  lemma FoldOne(h: nat, c: char)
    ensures Fold(h, []) == h && Fold(h, [c]) == Mix(h, c)
  {
    hide Mix;
    assert [c][1..] == [];
  }

  // The published hashes of the empty string and of "a": the offset, the prime, and that a character is mixed
  // in before the state is multiplied.
  lemma KnownHashes()
    ensures Hash("") == "811c9dc5" && Hash("a") == "e40c292c"
  {
    HexOfEmpty();
    HexOfA();
    MixOfA();
    FoldOne(OFFSET, 'a');
    hide Fold, Mix, Hex8;
    assert "a" == ['a'];
  }
}
