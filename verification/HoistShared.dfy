/** hoistSharedSubschemas: hoisting, then inlining back what did not pay off. */
module HoistShared {
  import opened Strings
  import opened Json
  import opened Documents
  import opened Hoist
  import opened Reversal
  import opened HoistAgree
  import opened HoistLoop
  import opened InlineBack
  import opened Sums

  // ---------- inlining keeps references closed ----------

  lemma InlinedBody(s: Schemas, rest: Json, n: string, x: string)
    requires RefClosed(s) && n in s && x in s && x != n && RefCount(s, rest, n) <= 1
    ensures InlineOnce(s, n)[x] == Subst(s[x], map[n := s[n]]) && Body(InlineOnce(s, n)[x], s.Keys - {n})
  {
    hide IsRef, HasRefString, InlineRefsTo, Subst, RefCount, WellFormed, Closed;
    assert Body(s[x], s.Keys) && Body(s[n], s.Keys);
    InlineBody(s, n, x);
    if Mentions(s[n], n) {
      OnlySelf(s, rest, n, x);
      SubstAbsent(s[x], s.Keys, n, s[n]);
      ClosedWithout(s[x], s.Keys, n);
    } else {
      ClosedWithout(s[n], s.Keys, n);
      BodyIsNoRef(s[n], s.Keys);
      InlinedClosed(s[x], s.Keys, n, s[n]);
    }
  }

  lemma InlinedClosed(v: Json, names: set<string>, n: string, b: Json)
    requires Body(v, names) && b.Obj? && WellFormed(b) && Closed(b, names - {n}) && BareIfRef(b)
    ensures Body(Subst(v, map[n := b]), names - {n})
  {
    hide IsRef, HasRefString, Subst, BareIfRef;
    SubstClosed(v, map[n := b], names, names - {n});
    SubstKeepsKind(v, map[n := b]);
    SubstNodeKind(v, map[n := b], names);
  }

  // A schema whose one reference is its own is mentioned nowhere else.
  lemma OnlySelf(s: Schemas, rest: Json, n: string, x: string)
    requires n in s && x in s && x != n && RefCount(s, rest, n) <= 1 && Mentions(s[n], n)
    ensures !Mentions(s[x], n)
  {
    hide CountRefs, Mentions;
    CountedIffMentioned(s[n], n);
    CountedIffMentioned(s[x], n);
    TotalWithout(BodyCounts(s, n), n);
    TotalWithout(BodyCounts(s, n) - {n}, x);
  }

  lemma SubstAbsent(v: Json, names: set<string>, n: string, b: Json)
    requires Closed(v, names) && !Mentions(v, n)
    ensures Subst(v, map[n := b]) == v
  {
    ClosedWithout(v, names, n);
    SubstNothing(v, names - {n}, map[n := b]);
  }

  // Inlining a schema with at most one reference leaves none dangling, even if that one is its own.
  lemma InlineCloses(s: Schemas, rest: Json, n: string)
    requires RefClosed(s) && n in s && RefCount(s, rest, n) <= 1
    ensures RefClosed(InlineOnce(s, n)) && InlineOnce(s, n).Keys == s.Keys - {n}
  {
    hide InlineRefsTo, RefCount, Subst, Body;
    var t := InlineOnce(s, n);
    assert t.Keys == s.Keys - {n};
    forall x | x in t ensures Body(t[x], t.Keys) { InlinedBody(s, rest, n, x); }
  }

  // ---------- inlining keeps the document reversible ----------

  // Expanding after inlining is expanding before.
  lemma {:induction false} InlineExpands(v: Json, view: View, names: set<string>, n: string, b: Json, full: Schemas)
    requires Closed(v, names) && Placed(v, view, full.Keys) && n in full && !b.Str? && !view.Flat?
    requires Shape(Subst(b, full - {n}), SENSE) == Shape(full[n], SENSE)
    ensures Shape(Subst(Subst(v, map[n := b]), full - {n}), Lens(view, ANNOTATION_KEYS)) ==
      Shape(Subst(v, full), Lens(view, ANNOTATION_KEYS))
    decreases v
  {
    hide IsRef, HasRefString, Target, Subst, Shape, ANNOTATION_KEYS, Placed, KeywordView, BareProperties, Below, Each,
      ViewBelow, SENSE;
    var u, l := Subst(v, map[n := b]), Lens(view, ANNOTATION_KEYS);
    if HasRefString(v) {
      ClosedRef(v, names);
      SubstRef(v, map[n := b]);
      SubstRef(v, full);
      SubstRef(v, full - {n});
      if Target(v) == n {
        PlacedRef(v, view, full.Keys);
        LensIs(l);
      }
    } else {
      SubstNode(v, map[n := b]);
      SubstKeepsRefs(v, names, n, b);
      SubstNode(v, full);
      SubstNode(u, full - {n});
      PlacedNode(v, view, full.Keys);
      PlainLens(l);
      match v
      case Arr(xs) =>
        EachView(l);
        forall i | 0 <= i < |xs| { InlineExpands(xs[i], Each(l).view, names, n, b, full); }
        ShapeBuilds(Subst(u, full - {n}), Subst(v, full), l);
      case Obj(_, m) =>
        forall k | k in m
          ensures Shape(Subst(u, full - {n}).at[k], Below(l, k)) == Shape(Subst(v, full).at[k], Below(l, k))
        {
          BelowIsNotFlat(l, k);
          InlineExpands(m[k], ViewBelow(view, k), names, n, b, full);
        }
        ShapeBuilds(Subst(u, full - {n}), Subst(v, full), l);
      case _ =>
    }
  }

  // References to added names stay where schemas stand.
  lemma {:induction false} InlinePlaced(v: Json, view: View, names: set<string>, n: string, b: Json, added: set<string>)
    requires Closed(v, names) && Placed(v, view, added) && Placed(b, OfSchema, added) && n in added && !view.Flat?
    requires !b.Str?
    ensures Placed(Subst(v, map[n := b]), view, added - {n})
    decreases v
  {
    hide IsRef, HasRefString, Target, Subst, Mentions, KeywordView, BareProperties;
    PlacedLess(v, view, added, added - {n});
    PlacedLess(b, OfSchema, added, added - {n});
    if HasRefString(v) {
      ClosedRef(v, names);
      SubstRef(v, map[n := b]);
      if Target(v) == n { PlacedRef(v, view, added); }
    } else if view.OfSchema? || (view.OfSchemas? && v.Obj?) {
      SubstNode(v, map[n := b]);
      SubstKeepsRefs(v, names, n, b);
      var u := Subst(v, map[n := b]);
      match v
      case Arr(xs) =>
        forall i | 0 <= i < |xs|
          ensures Placed(u.items[i], view, added - {n})
        {
          InlinePlaced(xs[i], view, names, n, b, added);
        }
      case Obj(_, m) =>
        forall k | k in m ensures Placed(u.at[k], ViewBelow(view, k), added - {n}) {
          BelowIsNotFlat(Lens(view, {}), k);
          InlinePlaced(m[k], ViewBelow(view, k), names, n, b, added);
        }
      case _ =>
    } else {
      NoneMentioned(v, added, n);
      SubstAbsent(v, names, n, b);
    }
  }

  lemma NoneMentioned(v: Json, added: set<string>, n: string)
    requires NoneOf(v, added) && n in added
    ensures !Mentions(v, n)
  {}

  // An added schema does not refer to itself.
  lemma NotSelf(original: Schemas, s: Schemas, full: Schemas, n: string)
    requires Reversible(original, s, full) && n in full
    ensures n in s && !Mentions(s[n], n) && Closed(s[n], s.Keys - {n}) && Body(s[n], s.Keys)
  {
    hide Reversible, Mentions, FullShape, IsRef, HasRefString;
    ReversibleNames(original, s, full);
    if Mentions(s[n], n) {
      AddedNamesDescend(original, s, full, n, n);
    }
    assert Body(s[n], s.Keys);
    ClosedWithout(s[n], s.Keys, n);
  }

  lemma FullWithout(full: Schemas, n: string)
    requires n in full
    ensures (full - {n})[n := full[n]] == full && (full - {n}).Keys == full.Keys - {n}
  {}

  // The expansion of an inlined body does not need its own name.
  lemma DefinitionExpands(original: Schemas, s: Schemas, full: Schemas, n: string)
    requires Reversible(original, s, full) && n in full
    ensures n in s && Shape(Subst(s[n], full - {n}), SENSE) == Shape(full[n], SENSE)
  {
    hide Reversible, IsRef, HasRefString, Shape, Subst, Mentions, SENSE, Placed;
    NotSelf(original, s, full, n);
    SubstUnmentioned(s[n], n, full[n], s.Keys - {n}, full - {n});
    FullWithout(full, n);
    ReversibleEntry(original, s, full, n);
  }

  // Inlining an added schema keeps the document reversible.
  lemma InlineReverses(original: Schemas, s: Schemas, full: Schemas, n: string, rest: Json)
    requires Reversible(original, s, full) && n in full && n in s && RefCount(s, rest, n) <= 1
    ensures Reversible(original, InlineOnce(s, n), full - {n})
  {
    hide IsRef, HasRefString, Shape, Subst, Mentions, Placed, InlineRefsTo, Body, Closed, SENSE, RefCount;
    ReversibleNames(original, s, full);
    DefinitionExpands(original, s, full, n);
    InlineCloses(s, rest, n);
    FullWithout(full, n);
    var t := InlineOnce(s, n);
    forall x | x in t
      ensures Placed(t[x], OfSchema, full.Keys - {n})
      ensures Shape(Subst(t[x], full - {n}), SENSE) == Shape(Subst(s[x], full), SENSE)
    {
      InlinedEntry(original, s, full, n, x, rest);
    }
  }

  lemma InlinedEntry(original: Schemas, s: Schemas, full: Schemas, n: string, x: string, rest: Json)
    requires Reversible(original, s, full) && n in full && n in s && x in s && x != n && RefCount(s, rest, n) <= 1
    requires Shape(Subst(s[n], full - {n}), SENSE) == Shape(full[n], SENSE)
    ensures Placed(InlineOnce(s, n)[x], OfSchema, full.Keys - {n})
    ensures Shape(Subst(InlineOnce(s, n)[x], full - {n}), SENSE) == Shape(Subst(s[x], full), SENSE)
  {
    hide *;
    ReversibleNames(original, s, full);
    ReversibleEntry(original, s, full, x);
    ReversibleEntry(original, s, full, n);
    BodyParts(s[x], s.Keys);
    BodyParts(s[n], s.Keys);
    InlinedBody(s, rest, n, x);
    SenseIs();
    InlineExpands(s[x], OfSchema, s.Keys, n, s[n], full);
    InlinePlaced(s[x], OfSchema, s.Keys, n, s[n], full.Keys);
  }

  lemma SenseIs()
    ensures SENSE == Lens(OfSchema, ANNOTATION_KEYS)
  {}

  // ---------- the loop ----------

  method InlineEverywhere(names: seq<string>, s: Schemas, n: string) returns (t: Schemas)
    requires Elems(names) == s.Keys && n in s
    ensures t == InlineOnce(s, n)
  {
    hide InlineRefsTo;
    t := map[];
    var i := 0;
    while i < |names|
      invariant 0 <= i <= |names|
      invariant t.Keys == Elems(names[..i]) - {n}
      invariant forall x :: x in t ==> x in s && t[x] == InlineRefsTo(s[x], n, s[n])
    {
      assert names[i] in Elems(names);
      assert names[..i + 1] == names[..i] + [names[i]];
      if names[i] != n {
        t := t[names[i] := InlineRefsTo(s[names[i]], n, s[n])];
      }
      i := i + 1;
    }
    assert names[..i] == names;
  }

  lemma SplitNoDup(a: seq<string>, b: seq<string>)
    requires NoDup(a + b)
    ensures NoDup(a) && NoDup(b) && Elems(a) !! Elems(b) && Elems(a + b) == Elems(a) + Elems(b)
  {
    var c := a + b;
    forall i, j | 0 <= i < j < |b| ensures b[i] != b[j] { assert c[|a| + i] == b[i] && c[|a| + j] == b[j]; }
    forall i, j | 0 <= i < j < |a| ensures a[i] != a[j] { assert c[i] == a[i] && c[j] == a[j]; }
    forall i, j | 0 <= i < |a| && 0 <= j < |b| ensures a[i] != b[j] { assert c[i] == a[i] && c[|a| + j] == b[j]; }
  }

  lemma SizeWithout(b: seq<string>, c: seq<string>, n: string)
    requires NoDup(b) && NoDup(c) && n in b && Elems(c) == Elems(b) - {n}
    ensures |c| + 1 == |b|
  {
    NoDupSize(b);
    NoDupSize(c);
    assert n in Elems(b);
    assert Elems(b) == Elems(c) + {n};
  }

  lemma WithoutOne(a: seq<string>, b: seq<string>, n: string)
    requires NoDup(a + b) && n in b
    ensures var c := Without(b, {n});
      NoDup(a + c) && Elems(a + c) == Elems(a + b) - {n} && NoDup(b) && NoDup(c) && Elems(c) == Elems(b) - {n}
    ensures |Without(b, {n})| + 1 == |b|
    ensures forall x :: x in b && x != n ==> x in Without(b, {n})
  {
    SplitNoDup(a, b);
    WithoutKeeps(b, {n});
    var c := Without(b, {n});
    hide NoDup, Without;
    assert n in Elems(b);
    SizeWithout(b, c, n);
    AppendedNames(a, c);
    forall x | x in b && x != n ensures x in c { assert x in Elems(b) && x in Elems(c); }
  }

  lemma ExtendedStep(d: Document, added: seq<string>, s: Schemas, n: string)
    requires Extended(d, added, s) && n in added && n in s && RefCount(s, d.rest, n) <= 1
    ensures Extended(d, Without(added, {n}), InlineOnce(s, n))
    ensures |Without(added, {n})| + 1 == |added|
    ensures forall x :: x in added && x != n ==> x in Without(added, {n})
  {
    hide InlineRefsTo, NoDup, Without, RefCount, RefClosed, InlineOnce;
    InlineCloses(s, d.rest, n);
    WithoutOne(d.names, added, n);
  }

  lemma FaithfulInline(d: Document, added: seq<string>, s: Schemas, full: Schemas, n: string)
    requires Extended(d, added, s) && Faithful(d, added, s, full) && n in added && n in s && RefCount(s, d.rest, n) <= 1
    ensures Faithful(d, Without(added, {n}), InlineOnce(s, n), full - {n})
  {
    hide Reversible, InlineOnce, NoDup, Without, RefCount, RefClosed, Traced, Shape, SENSE;
    assert n in Elems(added);
    InlineReverses(d.schemas, s, full, n, d.rest);
    WithoutOne(d.names, added, n);
    FullWithout(full, n);
  }

  /** One inlining of a schema with at most one reference, and what it does not increase. */
  lemma InlineStep(d: Document, added: seq<string>, s: Schemas, n: string)
    requires Extended(d, added, s) && n in s && RefCount(s, d.rest, n) < 2
    ensures TotalWeight(InlineOnce(s, n)) < TotalWeight(s)
    ensures forall x :: x != n ==> RefCount(InlineOnce(s, n), d.rest, x) <= RefCount(s, d.rest, x)
  {
    hide InlineOnce, RefCount, TotalWeight, NoDup, RefClosed;
    InlineShrinks(s, d.rest, n);
    forall x | x != n ensures RefCount(InlineOnce(s, n), d.rest, x) <= RefCount(s, d.rest, x) {
      InlineCounts(s, d.rest, n, x);
    }
  }

  lemma ExtendedWhole(d: Document, added: seq<string>, s: Schemas)
    requires Extended(d, added, s) && WellFormed(d.rest)
    ensures WellFormed(Whole(d.names + added, s, d.rest))
    ensures forall x :: CountRefs(Whole(d.names + added, s, d.rest), x) == RefCount(s, d.rest, x)
  {
    hide RefCount, CountRefs, NoDup, IsRef;
    forall y | y in s ensures s[y].Obj? && WellFormed(s[y]) { assert Body(s[y], s.Keys); }
    hide WellFormed;
    WholeWellFormed(d.names + added, s, d.rest);
    hide Whole;
    forall x ensures CountRefs(Whole(d.names + added, s, d.rest), x) == RefCount(s, d.rest, x) {
      WholeCounts(d.names + added, s, d.rest, x);
    }
  }

  lemma WholeWellFormed(names: seq<string>, s: Schemas, rest: Json)
    requires NoDup(names) && Elems(names) == s.Keys && WellFormed(rest) && forall y :: y in s ==> WellFormed(s[y])
    ensures WellFormed(Whole(names, s, rest))
  {
    hide NoDup, Elems;
    assert WellFormed(Obj(names, s));
  }

  /** The added names with fewer than two references, in order. */
  method Underused(added: seq<string>, counts: map<string, nat>) returns (few: seq<string>)
    requires NoDup(added)
    ensures NoDup(few) && (forall x :: x in few <==> x in added && Count(counts, x) < 2)
  {
    few := [];
    var i := 0;
    while i < |added|
      invariant 0 <= i <= |added| && NoDup(few)
      invariant forall x :: x in few <==> x in added[..i] && Count(counts, x) < 2
    {
      assert added[i] !in added[..i];
      if Count(counts, added[i]) < 2 { few := few + [added[i]]; }
      assert added[..i + 1] == added[..i] + [added[i]];
      i := i + 1;
    }
    assert added[..i] == added;
  }

  lemma AddedNames(d: Document, added: seq<string>, s: Schemas)
    requires Extended(d, added, s)
    ensures NoDup(added) && Elems(d.names + added) == s.Keys
    ensures forall x :: x in added ==> x in s
  {
    SplitNoDup(d.names, added);
    hide NoDup, RefClosed;
    forall x | x in added ensures x in s { assert x in Elems(added); }
  }

  /** The inline-back loop. */
  method InlineBackUnderused(d: Document, added0: seq<string>, s0: Schemas, ghost full0: Schemas)
    returns (added: seq<string>, s: Schemas, ghost full: Schemas)
    requires WellFormed(d.rest) && Extended(d, added0, s0)
    ensures Extended(d, added, s)
    ensures forall x :: x in added ==> x in added0 && RefCount(s, d.rest, x) >= 2
    ensures TotalWeight(s) + |added0| <= TotalWeight(s0) + |added|
    ensures (forall x :: x in added0 ==> RefCount(s0, d.rest, x) >= 2) ==> added == added0 && s == s0
    ensures Faithful(d, added0, s0, full0) ==> Faithful(d, added, s, full)
  {
    hide Extended, RefCount, TotalWeight, InlineOnce, NoDup, Elems, WellFormed, Whole, CountRefs, Without, Faithful;
    added, s, full := added0, s0, full0;
    while true
      invariant Extended(d, added, s) && (forall x :: x in added ==> x in added0)
      invariant TotalWeight(s) + |added0| <= TotalWeight(s0) + |added|
      invariant (added == added0 && s == s0) || exists x :: x in added0 && RefCount(s0, d.rest, x) < 2
      invariant Faithful(d, added0, s0, full0) ==> Faithful(d, added, s, full)
      decreases |added|
    {
      ExtendedWhole(d, added, s);
      AddedNames(d, added, s);
      var counts := CountSchemaRefs(Whole(d.names + added, s, d.rest));
      var toInline := Underused(added, counts);
      if toInline == [] { break; }
      assert toInline[0] in toInline;
      added, s, full := InlineRound(d, added, s, full, toInline);
    }
  }

  /** One round: the counts taken before it stay upper bounds while the schemas change. */
  method InlineRound(d: Document, added0: seq<string>, s0: Schemas, ghost full0: Schemas, toInline: seq<string>)
    returns (added: seq<string>, s: Schemas, ghost full: Schemas)
    requires Extended(d, added0, s0) && NoDup(toInline)
    requires forall x :: x in toInline ==> x in added0 && RefCount(s0, d.rest, x) < 2
    ensures Extended(d, added, s) && |added| + |toInline| == |added0|
    ensures forall x :: x in added <==> x in added0 && x !in toInline
    ensures TotalWeight(s) + |toInline| <= TotalWeight(s0)
    ensures Faithful(d, added0, s0, full0) ==> Faithful(d, added, s, full)
  {
    hide Extended, RefCount, TotalWeight, InlineOnce, Without, Elems, Faithful;
    added, s, full := added0, s0, full0;
    var i := 0;
    while i < |toInline|
      invariant 0 <= i <= |toInline| && Extended(d, added, s) && |added| + i == |added0|
      invariant forall x :: x in added <==> x in added0 && x !in toInline[..i]
      invariant forall j :: i <= j < |toInline| ==> toInline[j] in added && RefCount(s, d.rest, toInline[j]) < 2
      invariant TotalWeight(s) + i <= TotalWeight(s0)
      invariant Faithful(d, added0, s0, full0) ==> Faithful(d, added, s, full)
    {
      var n := toInline[i];
      AddedNames(d, added, s);
      ExtendedStep(d, added, s, n);
      InlineStep(d, added, s, n);
      if Faithful(d, added, s, full) { FaithfulInline(d, added, s, full, n); }
      WithoutFrom(added, n);
      assert toInline[..i + 1] == toInline[..i] + [n];
      s := InlineEverywhere(d.names + added, s, n);
      added, full := Without(added, {n}), full - {n};
      i := i + 1;
    }
    assert toInline[..i] == toInline;
  }

  lemma WithoutFrom(s: seq<string>, n: string)
    ensures forall x :: x in Without(s, {n}) <==> x in s && x != n
  {}

  // ---------- the whole pass ----------

  /** Added schemas form no cycle of references. */
  ghost predicate Acyclic(s: Schemas, added: set<string>) {
    forall path :: |path| >= 2 && AddedPath(s, added, path) ==> path[0] != path[|path| - 1]
  }

  /** The original schemas and the rest keep their names and, up to annotation keywords, their meaning. */
  ghost predicate KeepsAll(d: Document, out: Document) {
    && d.names <= out.names && out.rest == d.rest
    && (forall x :: x in d.schemas ==> Keeps(d, out, map[], x, ANNOTATION_KEYS))
    && SameMeaning(d.schemas, d.rest, out.schemas, out.rest, RestLens(ANNOTATION_KEYS))
  }

  // An extended document keeps its names and the rest, and is closed.
  lemma ExtendedCloses(d: Document, added: seq<string>, s: Schemas)
    requires ClosedDocument(d) && Extended(d, added, s)
    ensures ClosedDocument(Document(d.names + added, s, d.rest))
    ensures Elems(added) == s.Keys - d.schemas.Keys
  {
    hide RefClosed, WellFormed, Closed;
    SplitNoDup(d.names, added);
    hide NoDup, Elems;
    ClosedUnder(d.rest, d.schemas.Keys, s.Keys);
  }

  lemma FaithfulKeepsAll(d: Document, added: seq<string>, s: Schemas, full: Schemas)
    requires ClosedDocument(d) && Extended(d, added, s) && Faithful(d, added, s, full)
    ensures KeepsAll(d, Document(d.names + added, s, d.rest)) && Acyclic(s, Elems(added))
  {
    hide Reversible, NoDup, Elems, SameMeaning, WellFormed, Closed, RefClosed, SENSE, AllTraced;
    ReversibleNames(d.schemas, s, full);
    SenseLens();
    ReversibleKeepsRest(d.schemas, s, full, d.rest);
    forall x | x in d.schemas ensures Keeps(d, Document(d.names + added, s, d.rest), map[], x, ANNOTATION_KEYS) {
      ReversibleKeepsMeaning(d.schemas, s, full, x);
      assert Renamed(x, map[]) == x;
    }
    forall path | |path| >= 2 && AddedPath(s, full.Keys, path) ensures path[0] != path[|path| - 1] {
      AddedNamesAcyclic(d.schemas, s, full, path);
    }
  }

  /** out is d after all turns of the hoisting loop, unless one of the schemas that these add has fewer
      than two references in the end. */
  ghost predicate PassesTo(d: Document, out: Document, propertyBase: seq<string> -> string, before: (string,
                           string) -> bool) {
    exists added, s :: TurnsTo(d, added, s, propertyBase, before) &&
      (|added| == MAX_HOISTS || Settled(d.names + added, s, propertyBase)) &&
      ((forall x :: x in added ==> RefCount(s, d.rest, x) >= 2) ==> out == Document(d.names + added, s, d.rest))
  }

  /** hoistSharedSubschemas: every original name stays, references resolve and every added schema has at
      least two; where each turn merges only what says the same, all meaning is kept and no cycle is added. */
  method HoistSharedSubschemas(d: Document, propertyBase: seq<string> -> string, before: (string, string) -> bool)
    returns (out: Document, ghost full: Schemas, ghost run: Run)
    requires ClosedDocument(d) && StrictOrder(before)
    ensures ClosedDocument(out) && d.names <= out.names && out.rest == d.rest
    ensures forall x :: x in out.schemas.Keys - d.schemas.Keys ==> RefCount(out.schemas, out.rest, x) >= 2
    ensures PassesTo(d, out, propertyBase, before)
    ensures IsRun(d, run) && TurnsTo(d, run.added, run.stages[|run.added|].schemas, propertyBase, before)
    ensures AlwaysAlike(run) ==> KeepsAll(d, out) && Acyclic(out.schemas, out.schemas.Keys - d.schemas.Keys)
    ensures AlwaysAlike(run) ==> Reversible(d.schemas, out.schemas, full) && AllTraced(d.schemas, full)
    ensures Agrees(d.schemas) ==> AlwaysAlike(run)
  {
    hide Extended, Faithful, RefCount, ClosedDocument, NoDup, KeepsAll, Acyclic, Agrees, TurnsTo, Settled, StrictOrder,
      Reversible, AllTraced, IsRun, AlwaysAlike;
    var s0, added0;
    s0, added0, full, run := HoistRepeated(d, propertyBase, before);
    RestWellFormed(d);
    var added, s;
    added, s, full := InlineBackUnderused(d, added0, s0, full);
    ExtendedCloses(d, added, s);
    RunLengths(d, run);
    if AlwaysAlike(run) {
      FaithfulKeepsAll(d, added, s, full);
      FaithfulParts(d, added, s, full);
    }
    out := Document(d.names + added, s, d.rest);
    assert forall x :: x in Elems(added) ==> x in added;
  }

  lemma RunLengths(d: Document, run: Run)
    requires IsRun(d, run)
    ensures |run.stages| == |run.added| + 1 == |run.samples| + 1
  {
    hide Hoists;
  }

  lemma RestWellFormed(d: Document)
    requires ClosedDocument(d)
    ensures WellFormed(d.rest)
  {}
}
