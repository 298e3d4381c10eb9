/** Names for schemas: extracted-copy names, and fresh names that avoid a set of taken ones. */
module Naming {
  import opened Strings

  predicate IsDigit(c: char) { '0' <= c <= '9' }

  function TrimDigits(s: string): (r: string)
    ensures r <= s
  {
    if s != [] && IsDigit(s[|s| - 1]) then TrimDigits(s[..|s| - 1]) else s
  }

  predicate EndsWith(s: string, suffix: string) {
    |suffix| <= |s| && s[|s| - |suffix|..] == suffix
  }

  /** The name ends in `__schema` and a number, as automatically extracted schemas' names do. */
  predicate IsExtracted(name: string) {
    var stem := TrimDigits(name);
    |stem| < |name| && EndsWith(stem, "__schema")
  }

  /** The number at the end of an extracted name, as written. */
  function NumberSuffix(name: string): string {
    name[|TrimDigits(name)|..]
  }

  /** x is a stem, then `__schema`, then one digit or more. */
  ghost predicate IsNumbered(x: string, stem: string, digits: string) {
    x == stem + "__schema" + digits && digits != "" && forall i :: 0 <= i < |digits| ==> '0' <= digits[i] <= '9'
  }

  lemma {:induction false} TrimAllDigits(s: string, digits: string)
    requires s != "" && !IsDigit(s[|s| - 1]) && forall i :: 0 <= i < |digits| ==> IsDigit(digits[i])
    ensures TrimDigits(s + digits) == s
  {
    if digits == "" {
      assert s + digits == s;
    } else {
      TrimAllDigits(s, digits[..|digits| - 1]);
      assert (s + digits)[..|s + digits| - 1] == s + digits[..|digits| - 1];
    }
  }

  lemma {:induction false} TrimmedAreDigits(s: string)
    ensures forall i :: |TrimDigits(s)| <= i < |s| ==> IsDigit(s[i])
  {
    if s != "" && IsDigit(s[|s| - 1]) { TrimmedAreDigits(s[..|s| - 1]); }
  }

  // The digits of a numbered name are its number.
  lemma NumberSuffixIs(x: string, stem: string, digits: string)
    requires IsNumbered(x, stem, digits)
    ensures IsExtracted(x) && NumberSuffix(x) == digits
  {
    var s := stem + "__schema";
    assert s[|s| - 1] == 'a' && s[|s| - 8..] == "__schema";
    TrimAllDigits(s, digits);
  }

  // The extracted names are exactly the numbered ones.
  lemma ExtractedIffNumbered(x: string)
    ensures IsExtracted(x) <==> exists stem, digits :: IsNumbered(x, stem, digits)
    ensures IsExtracted(x) ==> exists stem :: IsNumbered(x, stem, NumberSuffix(x))
  {
    if IsExtracted(x) {
      TrimmedAreDigits(x);
      var s := TrimDigits(x);
      assert IsNumbered(x, s[..|s| - 8], NumberSuffix(x));
    }
    if stem, digits :| IsNumbered(x, stem, digits) { NumberSuffixIs(x, stem, digits); }
  }

  /** The first of base, base + sep + "2", base + sep + "3", .. that is not taken. */
  ghost predicate FirstFree(name: string, base: string, sep: string, taken: set<string>) {
    && name !in taken
    && (base !in taken ==> name == base)
    && (base in taken ==>
      exists i: nat :: i >= 2 && name == base + sep + Numeral(i, 10) && forall j: nat :: 2 <= j < i ==>
        base + sep + Numeral(j, 10) in taken)
  }

  /** disambiguate, and the numbering of canonical names */
  method FreshName(base: string, sep: string, taken: set<string>) returns (name: string)
    ensures FirstFree(name, base, sep, taken)
  {
    if base !in taken {
      return base;
    }
    var i: nat := 2;
    ghost var left := taken;
    while base + sep + Numeral(i, 10) in taken
      invariant i >= 2 && left <= taken
      invariant forall j: nat :: 2 <= j < i ==> base + sep + Numeral(j, 10) in taken
      invariant forall j: nat :: j >= i && base + sep + Numeral(j, 10) in taken ==> base + sep + Numeral(j, 10) in left
      decreases |left|
    {
      var tried := base + sep + Numeral(i, 10);
      forall j: nat | base + sep + Numeral(j, 10) == tried ensures j == i {
        NumberedInjective(base + sep, i, j);
      }
      left := left - {tried};
      i := i + 1;
    }
    name := base + sep + Numeral(i, 10);
  }

  // Some name of the series is free.
  lemma {:induction false} FirstFreeExists(base: string, sep: string, taken: set<string>) returns (name: string)
    ensures FirstFree(name, base, sep, taken)
  {
    if base !in taken {
      name := base;
    } else {
      name := FreeFrom(base, sep, taken, 2, taken);
    }
  }

  lemma {:induction false} FreeFrom(base: string, sep: string, taken: set<string>, i: nat, left: set<string>)
    returns (name: string)
    requires base in taken && i >= 2 && left <= taken
    requires forall j: nat :: 2 <= j < i ==> base + sep + Numeral(j, 10) in taken
    requires forall j: nat :: j >= i && base + sep + Numeral(j, 10) in taken ==> base + sep + Numeral(j, 10) in left
    ensures FirstFree(name, base, sep, taken)
    decreases |left|
  {
    name := base + sep + Numeral(i, 10);
    if name in taken {
      forall j: nat | base + sep + Numeral(j, 10) == name ensures j == i { NumberedInjective(base + sep, i, j); }
      name := FreeFrom(base, sep, taken, i + 1, left - {name});
    }
  }

  lemma NumberedInjective(p: string, i: nat, j: nat)
    requires p + Numeral(i, 10) == p + Numeral(j, 10)
    ensures i == j
  {
    assert (p + Numeral(i, 10))[|p|..] == Numeral(i, 10);
    assert (p + Numeral(j, 10))[|p|..] == Numeral(j, 10);
    NumeralInjective(i, j, 10);
  }
}
