/** Counting: where occurrences of one form do not nest, each one that is counted is replaced. */
module HoistCount {
  import opened Strings
  import opened Json
  import opened Sums
  import opened Hoist
  import opened Occurrences
  import opened HoistMeasure
  import opened Documents

  /** How many occurrences have the canonical form c. */
  function CountOf(os: seq<Occurrence>, c: string): nat {
    if os == [] then 0
    else (if CanonicalForDedup(os[0].node) == c then 1 else 0) + CountOf(os[1..], c)
  }

  lemma {:induction false} CountOfConcat(a: seq<Occurrence>, b: seq<Occurrence>, c: string)
    ensures CountOf(a + b, c) == CountOf(a, c) + CountOf(b, c)
  {
    hide CanonicalForDedup;
    if a == [] {
      assert a + b == b;
    } else {
      assert (a + b)[1..] == a[1..] + b;
      CountOfConcat(a[1..], b, c);
    }
  }

  lemma {:induction false} CountOfFlatten(parts: seq<seq<Occurrence>>, bounds: seq<nat>, c: string)
    requires |parts| == |bounds| && forall i :: 0 <= i < |parts| ==> CountOf(parts[i], c) <= bounds[i]
    ensures CountOf(Flatten(parts), c) <= SumSeq(bounds)
  {
    hide CountOf;
    if parts == [] {
      CountOfNone([], c);
    } else {
      CountOfFlatten(parts[1..], bounds[1..], c);
      CountOfConcat(parts[0], Flatten(parts[1..]), c);
    }
  }

  lemma {:induction false} CountOfNone(os: seq<Occurrence>, c: string)
    requires forall o :: o in os ==> CanonicalForDedup(o.node) != c
    ensures CountOf(os, c) == 0
  {
    if os != [] {
      CountOfNone(os[1..], c);
    }
  }

  /** No part of v has v's own form. */
  ghost predicate Apart(v: Json) {
    forall q :: Part(v, q) && q.Obj? ==> CanonicalForDedup(q) != CanonicalForDedup(v)
  }

  /** Occurrences of one form do not nest below v. */
  ghost predicate NoNest(v: Json) {
    forall p :: Part(v, p) && p.Obj? ==> Apart(p)
  }

  lemma NoNestChild(v: Json, p: Json)
    requires NoNest(v) && Child(v, p)
    ensures NoNest(p) && (p.Obj? ==> Apart(p))
  {
    hide Part, CanonicalForDedup, Child;
    ChildIsPart(v, p);
    forall q | Part(p, q) ensures Part(v, q) { PartOfPart(v, p, q); }
  }

  // Every counted occurrence is replaced.
  lemma {:induction false} CountedAreReplaced(v: Json, named: bool, prop: string, isRoot: bool, c: string)
    requires WellFormed(v) && NoNest(v) && (!isRoot && v.Obj? ==> Apart(v))
    ensures CountOf(Walk(v, named, prop, isRoot), c) <= Replaced(v, c, isRoot)
    decreases v, 3
  {
    hide CanonicalForDedup, WalkBelow, ReplacingBelow, IsCandidate, NoNest, Apart, CountOf, NoDup, Elems, NumChar;
    CountOfNone([], c);
    match v
    case Arr(xs) =>
      forall i | 0 <= i < |xs| ensures CountOf(Walk(xs[i], false, "", false), c) <= Replacing(xs[i], c, false, One()) {
        assert Child(v, xs[i]);
        NoNestChild(v, xs[i]);
        CountedAreReplaced(xs[i], false, "", false, c);
      }
      CountOfFlatten(seq(|xs|, i requires 0 <= i < |xs| => Walk(xs[i], false, "", false)),
                     seq(|xs|, i requires 0 <= i < |xs| => Replacing(xs[i], c, false, One())), c);
    case Obj(_, m) =>
      if "$ref" !in m {
        var here := if !isRoot && IsCandidate(m) then [Occurrence(named, prop, v)] else [];
        CountOfConcat(here, WalkBelow(v), c);
        CountHere(v, named, prop, c);
        if CanonicalForDedup(v) == c && !isRoot {
          NoneBelow(v);
        } else {
          CountedBelow(v, c);
        }
      }
    case _ =>
  }

  lemma CountHere(v: Json, named: bool, prop: string, c: string)
    ensures CountOf([Occurrence(named, prop, v)], c) == if CanonicalForDedup(v) == c then 1 else 0
    ensures CountOf([], c) == 0
  {
    hide CanonicalForDedup;
    assert [Occurrence(named, prop, v)][1..] == [];
  }

  lemma NoneBelow(v: Json)
    requires v.Obj? && "$ref" !in v.at && Apart(v)
    ensures CountOf(WalkBelow(v), CanonicalForDedup(v)) == 0
  {
    hide CanonicalForDedup, WalkBelow, CountOf, Walk, Child, Part;
    forall o | o in WalkBelow(v) ensures CanonicalForDedup(o.node) != CanonicalForDedup(v) {
      WalkBelowDescends(v, o);
      var p, named, prop :| Child(v, p) && o in Walk(p, named, prop, false);
      ChildIsPart(v, p);
      WalkFinds(p, named, prop, false, o);
      if Part(p, o.node) { PartOfPart(v, p, o.node); }
    }
    CountOfNone(WalkBelow(v), CanonicalForDedup(v));
  }

  lemma {:induction false} CountedBelow(v: Json, c: string)
    requires v.Obj? && "$ref" !in v.at && WellFormed(v) && NoNest(v)
    ensures CountOf(WalkBelow(v), c) <= ReplacingBelow(v, c, One())
    decreases v, 2
  {
    hide CountOf, WalkKey, ReplacingKey, WellFormed, NoNest, WALK_KEYS;
    forall i | 0 <= i < |WALK_KEYS|
      ensures CountOf(WalkKey(v, WALK_KEYS[i]), c) <= ReplacingKey(v, c, WALK_KEYS[i], One())
    {
      CountedKey(v, WALK_KEYS[i], c);
    }
    CountOfFlatten(seq(|WALK_KEYS|, i requires 0 <= i < |WALK_KEYS| => WalkKey(v, WALK_KEYS[i])),
                   seq(|WALK_KEYS|, i requires 0 <= i < |WALK_KEYS| => ReplacingKey(v, c, WALK_KEYS[i], One())), c);
  }

  lemma {:induction false} CountedKey(v: Json, key: string, c: string)
    requires v.Obj? && "$ref" !in v.at && WellFormed(v) && NoNest(v)
    ensures CountOf(WalkKey(v, key), c) <= ReplacingKey(v, c, key, One())
    decreases v, 1
  {
    hide CountOf, WalkAt, ReplacingAt, PositionOf, NoNest, Apart, NoDup, Elems, NumChar;
    CountOfNone([], c);
    if key in v.at {
      var w := v.at[key];
      forall x | ChildAt(PositionOf(key), w, x) ensures NoNest(x) && (x.Obj? ==> Apart(x)) {
        assert Child(v, x);
        NoNestChild(v, x);
      }
      CountedAt(PositionOf(key), w, c);
    }
  }

  lemma {:induction false} CountedAt(p: Position, v: Json, c: string)
    requires WellFormed(v) && forall x :: ChildAt(p, v, x) ==> NoNest(x) && (x.Obj? ==> Apart(x))
    ensures CountOf(WalkAt(p, v), c) <= ReplacingAt(p, v, c, One())
    decreases v, 4
  {
    hide CountOf, Walk, Replacing, NoNest, Apart, NoDup, NumChar;
    CountOfNone([], c);
    if p.Properties? && v.Obj? {
      var bounds := ReplacingOf(v, c, One());
      var parts := seq(|v.keys|, i requires 0 <= i < |v.keys| =>
          if v.keys[i] in v.at then Walk(v.at[v.keys[i]], true, v.keys[i], false) else []);
      forall i | 0 <= i < |v.keys| ensures CountOf(parts[i], c) <= Values(v.keys, bounds)[i] {
        assert v.keys[i] in Elems(v.keys);
        assert ChildAt(p, v, v.at[v.keys[i]]);
        CountedAreReplaced(v.at[v.keys[i]], true, v.keys[i], false, c);
      }
      CountOfFlatten(parts, Values(v.keys, bounds), c);
      SumSeqIsTotal(v.keys, bounds);
    } else if p.Schema? || (p.SchemaList? && v.Arr?) {
      assert ChildAt(p, v, v);
      CountedAreReplaced(v, false, "", false, c);
    }
  }

  // A form that the scan reports n times is replaced at least n times.
  lemma ScannedAreReplaced(names: seq<string>, s: Schemas, c: string)
    requires NoDup(names) && Elems(names) == s.Keys && forall x :: x in s ==> WellFormed(s[x]) && NoNest(s[x])
    ensures CountOf(Scan(names, s), c) <= ReplacedIn(s, c)
  {
    hide CountOf, Walk, Replacing, WellFormed, NoNest, NoDup;
    var bounds := ReplacingBodies(s, c, One());
    var parts := seq(|names|,
      i requires 0 <= i < |names| => if names[i] in s then Walk(s[names[i]], false, "", true) else []);
    forall i | 0 <= i < |names| ensures CountOf(parts[i], c) <= Values(names, bounds)[i] {
      assert names[i] in Elems(names);
      CountedAreReplaced(s[names[i]], false, "", true, c);
    }
    CountOfFlatten(parts, Values(names, bounds), c);
    SumSeqIsTotal(names, bounds);
  }
}
