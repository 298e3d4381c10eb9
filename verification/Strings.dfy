/** Strings of code units: ordering, sorting of object keys, numerals. */
module Strings {

  ghost predicate NoDup<T>(s: seq<T>) {
    forall i, j :: 0 <= i < j < |s| ==> s[i] != s[j]
  }

  function Elems<T>(s: seq<T>): set<T> {
    set x | x in s
  }

  datatype Option<+T> = None | Some(value: T)

  lemma AppendedNames(a: seq<string>, b: seq<string>)
    requires NoDup(a) && NoDup(b) && Elems(a) !! Elems(b)
    ensures NoDup(a + b) && Elems(a + b) == Elems(a) + Elems(b)
  {
    forall i, j | 0 <= i < |a| && 0 <= j < |b| ensures a[i] != b[j] {
      assert a[i] in Elems(a) && b[j] in Elems(b);
    }
  }

  lemma Reassociate<T>(a: seq<T>, b: seq<T>, c: seq<T>)
    ensures a + (b + c) == (a + b) + c
  {}

  lemma {:induction false} NoDupSize<T>(s: seq<T>)
    requires NoDup(s)
    ensures |Elems(s)| == |s|
  {
    if s != [] {
      NoDupSize(s[1..]);
      assert forall i :: 1 <= i < |s| ==> s[i] != s[0];
      assert Elems(s) == {s[0]} + Elems(s[1..]) by {
        assert s == [s[0]] + s[1..];
      }
      assert s[0] !in s[1..];
    }
  }

  // ---------- code-unit order, the order of JavaScript's default sort ----------

  predicate Less(a: string, b: string) {
    if a == [] then b != []
    else b != [] && (a[0] < b[0] || (a[0] == b[0] && Less(a[1..], b[1..])))
  }

  lemma {:induction false} LessTotal(a: string, b: string)
    ensures Less(a, b) || a == b || Less(b, a)
    ensures !(Less(a, b) && Less(b, a))
    ensures !Less(a, a)
  {
    if a != [] && b != [] {
      LessTotal(a[1..], b[1..]);
      LessTotal(a[1..], a[1..]);
      assert a == [a[0]] + a[1..] && b == [b[0]] + b[1..];
    } else if a != [] {
      LessTotal(a[1..], a[1..]);
    }
  }

  lemma {:induction false} LessTransitive(a: string, b: string, c: string)
    requires Less(a, b) && Less(b, c)
    ensures Less(a, c)
  {
    if a != [] && a[0] == b[0] && b[0] == c[0] {
      LessTransitive(a[1..], b[1..], c[1..]);
    }
  }

  /** a is a proper prefix of b. */
  ghost predicate IsShorter(a: string, b: string) {
    |a| < |b| && a == b[..|a|]
  }

  /** a and b differ first at i, and a has the smaller code unit there. */
  ghost predicate IsSmallerAt(a: string, b: string, i: nat) {
    i < |a| && i < |b| && a[..i] == b[..i] && a[i] < b[i]
  }

  lemma SameHead(a: string, b: string, i: nat)
    requires a != [] && b != []
    ensures IsShorter(a, b) <==> a[0] == b[0] && IsShorter(a[1..], b[1..])
    ensures IsSmallerAt(a, b, i + 1) <==> a[0] == b[0] && IsSmallerAt(a[1..], b[1..], i)
    ensures IsSmallerAt(a, b, 0) <==> a[0] < b[0]
  {
    var s, t := a[1..], b[1..];
    assert a == [a[0]] + s && b == [b[0]] + t;
    if |a| <= |b| { assert b[..|a|] == [b[0]] + t[..|s|]; }
    if i <= |s| && i <= |t| { assert a[..i + 1] == [a[0]] + s[..i] && b[..i + 1] == [b[0]] + t[..i]; }
    if a[0] == b[0] && i <= |s| && i <= |t| {
      assert s[..i] == t[..i] ==> a[..i + 1] == b[..i + 1];
      assert a[..i + 1] == b[..i + 1] ==> a[..i + 1][1..] == s[..i] && b[..i + 1][1..] == t[..i];
    }
    if i <= |s| && i <= |t| && a[..i + 1] == b[..i + 1] { assert a[..i + 1][0] == b[..i + 1][0]; }
  }

  // A string comes before another when it is a proper prefix of it or has the smaller code unit at the first
  // place where they differ.
  lemma {:induction false} LessIff(a: string, b: string)
    ensures Less(a, b) <==> IsShorter(a, b) || exists i :: IsSmallerAt(a, b, i)
  {
    if a != [] && b != [] {
      LessIff(a[1..], b[1..]);
      SameHead(a, b, 0);
      if i: nat :| IsSmallerAt(a[1..], b[1..], i) { SameHead(a, b, i); }
      if i: nat :| IsSmallerAt(a, b, i) {
        if i > 0 { SameHead(a, b, i - 1); }
      }
    }
  }

  ghost predicate Ascending(s: seq<string>) {
    forall i, j :: 0 <= i < j < |s| ==> Less(s[i], s[j])
  }

  function Insert(k: string, s: seq<string>): seq<string> {
    if s == [] || Less(k, s[0]) then [k] + s else [s[0]] + Insert(k, s[1..])
  }

  function SortKeys(ks: seq<string>): seq<string> {
    if ks == [] then [] else Insert(ks[0], SortKeys(ks[1..]))
  }

  lemma {:induction false} InsertAscending(k: string, s: seq<string>)
    requires Ascending(s) && k !in s
    ensures Ascending(Insert(k, s))
    ensures forall x :: x in Insert(k, s) <==> x == k || x in s
  {
    if s != [] {
      LessTotal(k, s[0]);
      if Less(k, s[0]) {
        forall j | 0 < j < |s| ensures Less(k, s[j]) { LessTransitive(k, s[0], s[j]); }
      } else {
        InsertAscending(k, s[1..]);
        assert s == [s[0]] + s[1..];
        var t := Insert(k, s[1..]);
        forall j | 0 <= j < |t| ensures Less(s[0], t[j]) {
          assert t[j] in t;
        }
      }
    }
  }

  // Sorting loses no key and invents none, and its result is strictly ascending.
  lemma {:induction false} SortKeysSorts(ks: seq<string>)
    requires NoDup(ks)
    ensures Ascending(SortKeys(ks)) && NoDup(SortKeys(ks))
    ensures Elems(SortKeys(ks)) == Elems(ks)
  {
    if ks != [] {
      SortKeysSorts(ks[1..]);
      var rest := SortKeys(ks[1..]);
      assert ks[0] !in rest by {
        assert forall x :: x in rest ==> x in Elems(rest);
      }
      InsertAscending(ks[0], rest);
      assert ks == [ks[0]] + ks[1..];
      forall x ensures x in SortKeys(ks) <==> x in ks {
        assert x in rest <==> x in Elems(rest);
      }
    }
    forall i, j | 0 <= i < j < |SortKeys(ks)| ensures SortKeys(ks)[i] != SortKeys(ks)[j] {
      LessTotal(SortKeys(ks)[i], SortKeys(ks)[j]);
    }
  }

  // A set of keys has one ascending listing.
  lemma {:induction false} AscendingUnique(s: seq<string>, t: seq<string>)
    requires Ascending(s) && Ascending(t) && Elems(s) == Elems(t)
    ensures s == t
  {
    assert s == [] <==> Elems(s) == {} by { assert s != [] ==> s[0] in Elems(s); }
    assert t == [] <==> Elems(t) == {} by { assert t != [] ==> t[0] in Elems(t); }
    if s != [] {
      assert s[0] in Elems(s) && s[0] in t;
      assert t != [] && t[0] in Elems(t) && t[0] in s;
      LessTotal(s[0], t[0]);
      assert s[0] == t[0];
      forall x ensures x in s[1..] <==> x in t[1..] {
        LessTotal(s[0], s[0]);
        assert x in s <==> x in Elems(s);
        assert x in t <==> x in Elems(t);
        assert s == [s[0]] + s[1..] && t == [t[0]] + t[1..];
      }
      AscendingUnique(s[1..], t[1..]);
    }
  }

  lemma SortKeysUnique(ks: seq<string>, ls: seq<string>)
    requires NoDup(ks) && NoDup(ls) && Elems(ks) == Elems(ls)
    ensures SortKeys(ks) == SortKeys(ls)
  {
    SortKeysSorts(ks);
    SortKeysSorts(ls);
    AscendingUnique(SortKeys(ks), SortKeys(ls));
  }

  // ---------- numerals ----------

  const DIGITS := "0123456789abcdef"

  /** Number.prototype.toString(base), for the bases 10 and 16. */
  function Numeral(n: nat, base: nat): (s: string)
    requires base == 10 || base == 16
    ensures |s| > 0
    ensures forall c :: c in s ==> c in DIGITS
    decreases n
  {
    if n < base then [DIGITS[n]] else Numeral(n / base, base) + [DIGITS[n % base]]
  }

  function DigitValue(c: char): nat {
    if '0' <= c <= '9' then (c as int) - 48
    else if 'a' <= c <= 'f' then (c as int) - 87
    else 0
  }

  function NumeralValue(s: string, base: nat): nat {
    if s == [] then 0 else NumeralValue(s[..|s| - 1], base) * base + DigitValue(s[|s| - 1])
  }

  lemma DigitRoundTrip(d: nat)
    requires d < 16
    ensures DigitValue(DIGITS[d]) == d
  {}

  lemma ValueOfSnoc(s: string, c: char, base: nat)
    ensures NumeralValue(s + [c], base) == NumeralValue(s, base) * base + DigitValue(c)
  {
    var t := s + [c];
    assert t[..|t| - 1] == s;
  }

  lemma DivMod(n: nat, base: nat)
    requires base == 10 || base == 16
    ensures (n / base) * base + n % base == n
    ensures n < base ==> n % base == n
    ensures n >= base ==> n / base < n
  {
    if base == 10 {
      assert (n / 10) * 10 + n % 10 == n;
    } else {
      assert (n / 16) * 16 + n % 16 == n;
    }
  }

  lemma {:induction false} NumeralRoundTrip(n: nat, base: nat)
    requires base == 10 || base == 16
    ensures NumeralValue(Numeral(n, base), base) == n
    decreases n
  {
    DivMod(n, base);
    var d := DIGITS[n % base];
    DigitRoundTrip(n % base);
    if n < base {
      ValueOfSnoc([], d, base);
      assert [] + [d] == [d];
    } else {
      var q := n / base;
      NumeralRoundTrip(q, base);
      ValueOfSnoc(Numeral(q, base), d, base);
    }
  }

  lemma NumeralInjective(a: nat, b: nat, base: nat)
    requires (base == 10 || base == 16) && Numeral(a, base) == Numeral(b, base)
    ensures a == b
  {
    NumeralRoundTrip(a, base);
    NumeralRoundTrip(b, base);
  }

  function Pow(base: nat, e: nat): nat {
    if e == 0 then 1 else base * Pow(base, e - 1)
  }

  lemma Monotone(a: nat, b: nat, c: nat)
    requires a <= b
    ensures a * c <= b * c
  {}

  lemma QuotientBelow(n: nat, base: nat, p: nat)
    requires (base == 10 || base == 16) && n < base * p
    ensures n / base < p
  {
    DivMod(n, base);
    if n / base >= p {
      Monotone(p, n / base, base);
      assert false;
    }
  }

  lemma {:induction false} NumeralLength(n: nat, base: nat, width: nat)
    requires (base == 10 || base == 16) && width > 0 && n < Pow(base, width)
    ensures |Numeral(n, base)| <= width
    decreases width
  {
    if n >= base {
      assert Pow(base, 0) == 1;
      QuotientBelow(n, base, Pow(base, width - 1));
      NumeralLength(n / base, base, width - 1);
    }
  }

  /** String.prototype.padStart(width, '0'). */
  function PadStart(s: string, width: nat): (r: string)
    ensures |r| >= width
    decreases width - |s|
  {
    if |s| >= width then s else PadStart(['0'] + s, width)
  }

  lemma {:induction false} PadStartKeeps(s: string, width: nat, base: nat)
    ensures NumeralValue(PadStart(s, width), base) == NumeralValue(s, base)
    ensures |s| <= width ==> |PadStart(s, width)| == width
    ensures forall c :: c in PadStart(s, width) ==> c in s || c == '0'
    decreases width - |s|
  {
    if |s| < width {
      PadStartKeeps(['0'] + s, width, base);
      LeadingZero(s, base);
    }
  }

  lemma {:induction false} LeadingZero(s: string, base: nat)
    ensures NumeralValue(['0'] + s, base) == NumeralValue(s, base)
  {
    var t := ['0'] + s;
    if s == [] {
      assert t[..0] == [];
    } else {
      LeadingZero(s[..|s| - 1], base);
      assert t[..|t| - 1] == ['0'] + s[..|s| - 1];
    }
  }
}
