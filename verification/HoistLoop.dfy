/** hoistSharedSubschemas, first loop: the most repeated subschema becomes a named schema, again and
    again. */
module HoistLoop {
  import opened Strings
  import opened Json
  import opened Documents
  import opened Fnv
  import opened Naming
  import opened Hoist
  import opened Occurrences
  import opened Reversal
  import opened HoistMeasure
  import opened HoistCount
  import opened HoistAgree

  const MIN_PROPERTY_HOIST_LENGTH := 50
  const MIN_ANONYMOUS_HOIST_LENGTH := 80
  const MAX_HOISTS := 1000

  // ---------- the tally ----------

  datatype Info = Info(count: nat, propNames: seq<string>, sample: Json)

  /** One more occurrence. */
  function Record(info: map<string, Info>, o: Occurrence): map<string, Info> {
    var c := CanonicalForDedup(o.node);
    var was := if c in info then info[c] else Info(0, [], o.node);
    info[c := Info(was.count + 1, if o.named then was.propNames + [o.prop] else was.propNames, was.sample)]
  }

  /** What the map holds after the occurrences os. */
  function TallyOf(os: seq<Occurrence>): map<string, Info> {
    if os == [] then map[] else Record(TallyOf(os[..|os| - 1]), os[|os| - 1])
  }

  lemma CountOfSnoc(os: seq<Occurrence>, o: Occurrence, c: string)
    ensures CountOf(os + [o], c) == CountOf(os, c) + if CanonicalForDedup(o.node) == c then 1 else 0
  {
    CountOfConcat(os, [o], c);
    hide CanonicalForDedup;
    assert [o][1..] == [];
  }

  // The tally counts each canonical form, and its sample is an occurrence of that form.
  lemma {:induction false} TallyCounts(os: seq<Occurrence>, c: string)
    ensures CountOf(os, c) == if c in TallyOf(os) then TallyOf(os)[c].count else 0
    ensures c in TallyOf(os) ==>
      exists o :: o in os && o.node == TallyOf(os)[c].sample && CanonicalForDedup(o.node) == c
  {
    hide CanonicalForDedup, CountOf;
    if os == [] {
      CountOfNone([], c);
    } else {
      var rest, o := os[..|os| - 1], os[|os| - 1];
      TallyCounts(rest, c);
      CountOfSnoc(rest, o, c);
      assert os == rest + [o];
      if c in TallyOf(rest) {
        var p :| p in rest && p.node == TallyOf(rest)[c].sample && CanonicalForDedup(p.node) == c;
        assert p in os;
      }
    }
  }

  // The sample is the first occurrence of its form.
  lemma {:induction false} SampleIsFirst(os: seq<Occurrence>, c: string) returns (i: nat)
    requires c in TallyOf(os)
    ensures i < |os| && CanonicalForDedup(os[i].node) == c && TallyOf(os)[c].sample == os[i].node
    ensures forall j :: 0 <= j < i ==> CanonicalForDedup(os[j].node) != c
  {
    hide CanonicalForDedup;
    var rest, o := os[..|os| - 1], os[|os| - 1];
    if c in TallyOf(rest) {
      i := SampleIsFirst(rest, c);
    } else {
      i := |os| - 1;
      forall j | 0 <= j < i ensures CanonicalForDedup(os[j].node) != c {
        assert rest[j] == os[j];
        OccursInTally(rest, j);
      }
    }
  }

  lemma {:induction false} OccursInTally(os: seq<Occurrence>, j: nat)
    requires j < |os|
    ensures CanonicalForDedup(os[j].node) in TallyOf(os)
  {
    hide CanonicalForDedup;
    if j < |os| - 1 { OccursInTally(os[..|os| - 1], j); }
  }

  // What one more occurrence adds to the property names of a form.
  lemma LastNamed(os: seq<Occurrence>, c: string)
    requires os != []
    ensures var rest, o := os[..|os| - 1], os[|os| - 1];
      PropNamesOf(os, c) ==
        PropNamesOf(rest, c) + if o.named && CanonicalForDedup(o.node) == c then [o.prop] else []
  {
    hide CanonicalForDedup;
  }

  ghost function PropNamesOf(os: seq<Occurrence>, c: string): seq<string> {
    if c in TallyOf(os) then TallyOf(os)[c].propNames else []
  }

  // And its property names are those of its named occurrences, in order.
  lemma {:induction false} PropNamesAreListed(os: seq<Occurrence>, c: string) returns (ix: seq<nat>)
    ensures |ix| == |PropNamesOf(os, c)| && forall k, l :: 0 <= k < l < |ix| ==> ix[k] < ix[l]
    ensures forall k :: 0 <= k < |ix| ==> ix[k] < |os| && PropNamesOf(os, c)[k] == os[ix[k]].prop
    ensures forall i :: 0 <= i < |os| ==> (i in ix <==> os[i].named && CanonicalForDedup(os[i].node) == c)
  {
    hide CanonicalForDedup, PropNamesOf;
    ix := [];
    NoPropNames(c);
    if os != [] {
      var n := |os| - 1;
      LastNamed(os, c);
      ix := PropNamesAreListed(os[..n], c);
      assert n !in ix;
      assert forall i :: i in ix + [n] <==> i in ix || i == n;
      if os[n].named && CanonicalForDedup(os[n].node) == c { ix := ix + [n]; }
    }
  }

  lemma NoPropNames(c: string)
    ensures PropNamesOf([], c) == []
  {}

  lemma TallyGrows(os: seq<Occurrence>, o: Occurrence)
    ensures TallyOf(os + [o]) == Record(TallyOf(os), o)
  {
    hide Record;
    assert (os + [o])[..|os + [o]| - 1] == os;
  }

  /** The map that the walk fills, with its keys in order of insertion. */
  class Tally {
    var info: map<string, Info>
    var order: seq<string>
    ghost var log: seq<Occurrence>

    ghost predicate Valid()
      reads this
    {
      info == TallyOf(log) && NoDup(order) && Elems(order) == info.Keys
    }

    constructor ()
      ensures Valid() && log == []
    {
      info, order, log := map[], [], [];
    }

    method Add(named: bool, prop: string, node: Json)
      requires Valid()
      modifies this
      ensures Valid() && log == old(log) + [Occurrence(named, prop, node)]
    {
      hide CanonicalForDedup, TallyOf;
      var o := Occurrence(named, prop, node);
      var c := CanonicalForDedup(node);
      if c !in info {
        AppendedNames(order, [c]);
        order := order + [c];
      }
      var was := if c in info then info[c] else Info(0, [], node);
      info := info[c := Info(was.count + 1, if named then was.propNames + [prop] else was.propNames, was.sample)];
      log := log + [o];
      TallyGrows(old(log), o);
    }

    /** walkForOccurrences */
    method Visit(node: Json, named: bool, prop: string, isRoot: bool)
      requires Valid()
      modifies this
      ensures Valid() && log == old(log) + Walk(node, named, prop, isRoot)
      decreases node, 3
    {
      hide TallyOf, NoDup, Elems, IsCandidate, WalkBelow, CanonicalForDedup;
      match node {
        case Arr(xs) => VisitAll(xs);
        case Obj(_, m) =>
          if "$ref" in m { return; }
          if !isRoot && IsCandidate(m) { Add(named, prop, node); }
          VisitBelow(node);
        case _ =>
      }
    }

    method VisitAll(xs: seq<Json>)
      requires Valid()
      modifies this
      ensures Valid() && log == old(log) + Flatten(seq(|xs|, i requires 0 <= i < |xs| => Walk(xs[i], false, "", false)))
      decreases xs, 0
    {
      hide TallyOf, NoDup, Elems, Walk;
      ghost var parts := seq(|xs|, i requires 0 <= i < |xs| => Walk(xs[i], false, "", false));
      var i := 0;
      while i < |xs|
        invariant 0 <= i <= |xs| && Valid()
        invariant log + Flatten(parts[i..]) == old(log) + Flatten(parts)
      {
        assert parts[i..][0] == parts[i] && parts[i..][1..] == parts[i + 1..];
        Visit(xs[i], false, "", false);
        i := i + 1;
      }
    }

    method VisitBelow(v: Json)
      requires Valid() && v.Obj?
      modifies this
      ensures Valid() && log == old(log) + WalkBelow(v)
      decreases v, 2
    {
      hide TallyOf, NoDup, Elems, WalkKey, WALK_KEYS;
      ghost var parts := seq(|WALK_KEYS|, i requires 0 <= i < |WALK_KEYS| => WalkKey(v, WALK_KEYS[i]));
      var i := 0;
      while i < |WALK_KEYS|
        invariant 0 <= i <= |WALK_KEYS| && Valid()
        invariant log + Flatten(parts[i..]) == old(log) + Flatten(parts)
      {
        assert parts[i..][0] == parts[i] && parts[i..][1..] == parts[i + 1..];
        VisitKey(v, WALK_KEYS[i]);
        i := i + 1;
      }
    }

    method VisitKey(v: Json, key: string)
      requires Valid() && v.Obj?
      modifies this
      ensures Valid() && log == old(log) + WalkKey(v, key)
      decreases v, 1
    {
      hide TallyOf, NoDup, Elems, Walk, PositionOf;
      if key in v.at {
        var w := v.at[key];
        match PositionOf(key)
        case Properties => if w.Obj? { VisitProperties(w); }
        case Schema => Visit(w, false, "", false);
        case SchemaList => if w.Arr? { Visit(w, false, "", false); }
        case Opaque =>
      }
    }

    method VisitProperties(w: Json)
      requires Valid() && w.Obj?
      modifies this
      ensures Valid() && log == old(log) + WalkAt(Properties, w)
      decreases w, 4
    {
      hide TallyOf, NoDup, Elems, Walk;
      ghost var parts := seq(|w.keys|, i requires 0 <= i < |w.keys| =>
        if w.keys[i] in w.at then Walk(w.at[w.keys[i]], true, w.keys[i], false) else []);
      var i := 0;
      while i < |w.keys|
        invariant 0 <= i <= |w.keys| && Valid()
        invariant log + Flatten(parts[i..]) == old(log) + Flatten(parts)
      {
        assert parts[i..][0] == parts[i] && parts[i..][1..] == parts[i + 1..];
        if w.keys[i] in w.at { Visit(w.at[w.keys[i]], true, w.keys[i], false); }
        i := i + 1;
      }
    }
  }

  // ---------- the choice ----------

  /** deriveSchemaName before disambiguation; propertyBase names a schema after its properties. */
  function BaseName(info: Info, c: string, propertyBase: seq<string> -> string): Option<string> {
    if info.propNames != [] && |c| >= MIN_PROPERTY_HOIST_LENGTH then Some(propertyBase(info.propNames))
    else if |c| >= MIN_ANONYMOUS_HOIST_LENGTH then Some("Schema_" + Hash(c))
    else None
  }

  // A name is derived and is not empty.
  predicate Nameable(info: Info, c: string, taken: set<string>, propertyBase: seq<string> -> string): (r: bool)
    ensures r ==> BaseName(info, c, propertyBase).Some?
  {
    var b := BaseName(info, c, propertyBase);
    b.Some? && (b.value != "" || "" in taken)
  }

  predicate Eligible(info: map<string, Info>, c: string, taken: set<string>, propertyBase: seq<string> -> string) {
    c in info && info[c].count >= 2 && Nameable(info[c], c, taken, propertyBase)
  }

  /** The order of localeCompare: `before` is a strict total order. */
  ghost predicate StrictOrder(before: (string, string) -> bool) {
    && (forall a :: !before(a, a))
    && (forall a, b :: a != b ==> before(a, b) || before(b, a))
    && (forall a, b, c :: before(a, b) && before(b, c) ==> before(a, c))
  }

  /** Higher counts come first, then longer texts, then the order of texts. */
  predicate Precedes(info: map<string, Info>, a: string, b: string, before: (string, string) -> bool)
    requires a in info && b in info
  {
    info[a].count > info[b].count || (info[a].count == info[b].count && (|a| > |b| || (|a| == |b| && before(a, b))))
  }

  /** The form that is hoisted next: of the repeated ones that get a name, the first in order. */
  ghost predicate IsFirst(info: map<string, Info>, c: string, taken: set<string>, propertyBase: seq<string> -> string,
                          before: (string, string) -> bool)
  {
    Eligible(info, c, taken, propertyBase) &&
    forall b :: Eligible(info, b, taken, propertyBase) && b != c ==> Precedes(info, c, b, before)
  }

  method ChooseCandidate(info: map<string, Info>, order: seq<string>, taken: set<string>,
                         propertyBase: seq<string> -> string, before: (string, string) -> bool)
    returns (chosen: Option<string>)
    requires Elems(order) == info.Keys && StrictOrder(before)
    ensures chosen.None? <==> forall c :: !Eligible(info, c, taken, propertyBase)
    ensures chosen.Some? ==> IsFirst(info, chosen.value, taken, propertyBase, before)
  {
    hide Nameable;
    chosen := None;
    var i := 0;
    while i < |order|
      invariant 0 <= i <= |order|
      invariant chosen.None? <==> forall j :: 0 <= j < i ==> !Eligible(info, order[j], taken, propertyBase)
      invariant chosen.Some? ==> Eligible(info, chosen.value, taken, propertyBase)
      invariant chosen.Some? ==>
        forall j :: 0 <= j < i && Eligible(info, order[j], taken, propertyBase) && order[j] != chosen.value ==>
        Precedes(info, chosen.value, order[j], before)
    {
      var c := order[i];
      if Eligible(info, c, taken, propertyBase) &&
        (chosen.None? || (c != chosen.value && !Precedes(info, chosen.value, c, before))) {
        ghost var was := chosen;
        chosen := Some(c);
        if was.Some? {
          forall j | 0 <= j < i && Eligible(info, order[j], taken, propertyBase) && order[j] != c
            ensures Precedes(info, c, order[j], before)
          {
            PrecedesFurther(info, c, was.value, order[j], before);
          }
        }
      }
      i := i + 1;
    }
    forall c | Eligible(info, c, taken, propertyBase) ensures exists j :: 0 <= j < |order| && order[j] == c {
      assert c in Elems(order);
    }
  }

  // What comes before the first so far comes before all that it comes before.
  lemma PrecedesFurther(info: map<string, Info>, a: string, b: string, c: string, before: (string, string) -> bool)
    requires StrictOrder(before) && a in info && b in info && c in info && a != b
    requires !Precedes(info, b, a, before) && (c != b ==> Precedes(info, b, c, before))
    ensures Precedes(info, a, c, before)
  {}

  // A form gets a name exactly when it is long enough: from 50 characters on after the properties that it stands
  // under, from 80 on after its hash.
  lemma NamedIffLong(info: Info, c: string, propertyBase: seq<string> -> string)
    ensures info.propNames != [] && |c| >= 50 ==>
      BaseName(info, c, propertyBase) == Some(propertyBase(info.propNames))
    ensures info.propNames == [] || |c| < 50 ==>
      BaseName(info, c, propertyBase) == if |c| >= 80 then Some("Schema_" + Hash(c)) else None
  {
    hide Hash;
  }

  // A form is passed over exactly when it gets no name or an empty one.
  lemma NameableIff(info: Info, c: string, taken: set<string>, propertyBase: seq<string> -> string)
    ensures Nameable(info, c, taken, propertyBase) <==>
      BaseName(info, c, propertyBase).Some? &&
      exists n :: n != "" && FirstFree(n, BaseName(info, c, propertyBase).value, "", taken)
  {
    hide BaseName, FirstFree;
    var b := BaseName(info, c, propertyBase);
    if b.Some? {
      var n := FirstFreeExists(b.value, "", taken);
      NotEmpty(n, b.value, taken);
      forall m | FirstFree(m, b.value, "", taken) ensures m != "" <==> b.value != "" || "" in taken {
        NotEmpty(m, b.value, taken);
      }
    }
  }

  lemma NotEmpty(n: string, base: string, taken: set<string>)
    requires FirstFree(n, base, "", taken)
    ensures n != "" <==> base != "" || "" in taken
  {}

  // No other form that gets a name occurs more often than the chosen one; of those that occur as often none is
  // longer, and of those as long none comes earlier in the order of texts.
  lemma ChosenIsMostShared(info: map<string, Info>, c: string, taken: set<string>, propertyBase: seq<string> -> string,
                           before: (string, string) -> bool, b: string, n: string)
    requires IsFirst(info, c, taken, propertyBase, before) && StrictOrder(before)
    requires b in info && b != c && info[b].count >= 2 && BaseName(info[b], b, propertyBase).Some?
    requires n != "" && FirstFree(n, BaseName(info[b], b, propertyBase).value, "", taken)
    ensures c in info && 2 <= info[b].count <= info[c].count
    ensures info[b].count == info[c].count ==> |b| <= |c| && (|b| == |c| ==> !before(b, c))
  {
    hide BaseName, FirstFree, Nameable;
    NameableIff(info[b], b, taken, propertyBase);
    assert Eligible(info, b, taken, propertyBase);
    assert before(b, c) && before(c, b) ==> before(b, b);
  }

  // ---------- the loop ----------

  /** s extends the schemas of d by the schemas `added`, and its references resolve. */
  ghost predicate Extended(d: Document, added: seq<string>, s: Schemas) {
    NoDup(d.names + added) && Elems(d.names + added) == s.Keys && RefClosed(s)
  }

  /** The added schemas stand for parts of the original ones, and expanding them reverses the pass. */
  ghost predicate Faithful(d: Document, added: seq<string>, s: Schemas, full: Schemas) {
    Elems(added) == full.Keys && Reversible(d.schemas, s, full) && AllTraced(d.schemas, full)
  }

  lemma HoistingStarts(d: Document)
    requires ClosedDocument(d)
    ensures Extended(d, [], d.schemas) && Faithful(d, [], d.schemas, map[])
  {
    hide IsRef, HasRefString, Shape, Subst, Placed, NoDup;
    assert d.names + [] == d.names;
    var none: Schemas := map[];
    forall x | x in d.schemas ensures Subst(d.schemas[x], none) == d.schemas[x] && Placed(d.schemas[x], OfSchema, {}) {
      assert Body(d.schemas[x], d.schemas.Keys);
      SubstNothing(d.schemas[x], d.schemas.Keys, none);
      NothingPlaced(d.schemas[x], OfSchema, d.schemas.Keys, {});
    }
    assert none.Keys == {};
  }

  // A part of a schema can be the body of a schema.
  lemma PartIsBody(s: Schemas, y: string, node: Json)
    requires RefClosed(s) && y in s && Part(s[y], node) && node.Obj? && "$ref" !in node.at
    ensures Body(node, s.Keys)
  {
    hide IsRef, HasRefString, Part;
    assert Body(s[y], s.Keys);
    PartOfBody(s[y], node, s.Keys);
    NoRefKey(node);
    NotRef(node);
  }

  // Hoisting a part under a fresh name extends the document.
  lemma HoistStep(d: Document, added: seq<string>, s: Schemas, c: string, n: string, y: string, node: Json)
    requires Extended(d, added, s) && n !in s && y in s && Part(s[y], node) && node.Obj? && "$ref" !in node.at
    ensures Extended(d, added + [n], HoistOnce(s, c, n, node))
  {
    hide RewriteSub, IsRef, HasRefString, Part, Body, NoDup;
    PartIsBody(s, y, node);
    HoistCloses(s, c, n, node);
    assert d.names + (added + [n]) == (d.names + added) + [n];
    SingleName(n);
    AppendedNames(d.names + added, [n]);
  }

  lemma SingleName(n: string)
    ensures NoDup([n]) && Elems([n]) == {n}
  {}

  /** All that one hoist replaces by the new name expands to what the name stands for. */
  ghost predicate MergesAlike(s: Schemas, full: Schemas, sample: Json) {
    forall x :: x in s ==>
      MergeAgrees(s[x], CanonicalForDedup(sample), true, full, Shape(Subst(sample, full), SENSE))
  }

  // It stays reversible exactly when all that is replaced says the same.
  lemma FaithfulStepIff(d: Document, added: seq<string>, s: Schemas, full: Schemas, n: string, y: string, node: Json)
    requires Extended(d, added, s) && Faithful(d, added, s, full)
    requires n !in s && y in s && Part(s[y], node) && node.Obj? && "$ref" !in node.at
    ensures Faithful(d, added + [n], HoistOnce(s, CanonicalForDedup(node), n, node), full[n := Subst(node, full)]) <==>
      MergesAlike(s, full, node)
  {
    hide *;
    FaithfulParts(d, added, s, full);
    ExtendedParts(d, added, s);
    PartIsBody(s, y, node);
    ReversibleEntry(d.schemas, s, full, y);
    BodyParts(s[y], s.Keys);
    PartPlaced(s[y], node, s.Keys, full.Keys);
    HoistReversesIff(d.schemas, s, full, CanonicalForDedup(node), n, node);
    MergesAlikeIs(s, full, node);
    PartIsTraced(d.schemas, s, full, y, node);
    var t, full' := HoistOnce(s, CanonicalForDedup(node), n, node), full[n := Subst(node, full)];
    if Reversible(d.schemas, t, full') { NewFaithful(d, added, s, full, n, Subst(node, full), t); }
    if Faithful(d, added + [n], t, full') { FaithfulParts(d, added + [n], t, full'); }
  }

  lemma MergesAlikeIs(s: Schemas, full: Schemas, sample: Json)
    ensures MergesAlike(s, full, sample) <==> forall x :: x in s ==>
      MergeAgrees(s[x], CanonicalForDedup(sample), true, full, Shape(Subst(sample, full), SENSE))
  {
    hide MergeAgrees;
  }

  // Where parts of one form say the same in the original schemas, every hoist merges alike.
  lemma AgreeMergesAlike(d: Document, added: seq<string>, s: Schemas, full: Schemas, y: string, node: Json)
    requires Faithful(d, added, s, full) && Agrees(d.schemas) && y in s && Part(s[y], node) && node.Obj?
    ensures MergesAlike(s, full, node)
  {
    hide *;
    FaithfulParts(d, added, s, full);
    forall x | x in s ensures MergeAgrees(s[x], CanonicalForDedup(node), true, full, Shape(Subst(node, full), SENSE)) {
      AgreeMerges(d.schemas, s, full, y, node, x);
    }
    MergesAlikeIs(s, full, node);
  }

  lemma BodyParts(b: Json, names: set<string>)
    requires Body(b, names)
    ensures WellFormed(b) && Closed(b, names) && b.Obj?
  {}

  lemma FaithfulParts(d: Document, added: seq<string>, s: Schemas, full: Schemas)
    requires Faithful(d, added, s, full)
    ensures Elems(added) == full.Keys && Reversible(d.schemas, s, full) && AllTraced(d.schemas, full)
  {}

  lemma ExtendedParts(d: Document, added: seq<string>, s: Schemas)
    requires Extended(d, added, s)
    ensures NoDup(d.names + added) && Elems(d.names + added) == s.Keys && RefClosed(s)
  {}

  lemma NewFaithful(d: Document, added: seq<string>, s: Schemas, full: Schemas, n: string, body: Json, t: Schemas)
    requires Faithful(d, added, s, full) && Reversible(d.schemas, t, full[n := body])
    requires Traced(d.schemas, Shape(body, SENSE))
    ensures Faithful(d, added + [n], t, full[n := body])
  {
    hide Reversible, Traced, Shape, SENSE;
    ElemsSnoc(added, n);
  }

  lemma ElemsSnoc(s: seq<string>, x: string)
    ensures Elems(s + [x]) == Elems(s) + {x}
  {}

  // A form that the scan finds has a sample that can be hoisted.
  lemma ScannedSample(d: Document, added: seq<string>, s: Schemas, c: string) returns (y: string, o: Occurrence)
    requires Extended(d, added, s) && c in TallyOf(Scan(d.names + added, s))
    ensures var node := TallyOf(Scan(d.names + added, s))[c].sample;
      o in Scan(d.names + added, s) && o.node == node && CanonicalForDedup(node) == c && node.Obj? &&
        "$ref" !in node.at &&
      y in s && Part(s[y], node)
  {
    hide CanonicalForDedup, TallyOf, CountOf, Walk, RefClosed, Part, NoDup, IsCandidate;
    var names := d.names + added;
    var os := Scan(names, s);
    TallyCounts(os, c);
    o :| o in os && o.node == TallyOf(os)[c].sample && CanonicalForDedup(o.node) == c;
    var i := FlattenIn(seq(|names|,
      i requires 0 <= i < |names| => if names[i] in s then Walk(s[names[i]], false, "", true) else []), o);
    y := names[i];
    WalkFinds(s[y], false, "", true, o);
  }

  // Each turn spends an inline node; where parts of one form say the same, at least two.
  lemma TurnPays(d: Document, added: seq<string>, s: Schemas, full: Schemas, c: string, n: string)
    requires Extended(d, added, s) && n !in s
    requires c in TallyOf(Scan(d.names + added, s)) && TallyOf(Scan(d.names + added, s))[c].count >= 2
    ensures var t := HoistOnce(s, c, n, TallyOf(Scan(d.names + added, s))[c].sample);
      InlineNodes(t) + 1 <= InlineNodes(s) &&
      (Faithful(d, added, s, full) && Agrees(d.schemas) ==> InlineNodes(t) + 2 <= InlineNodes(s))
  {
    hide *;
    var y, o := ScannedSample(d, added, s, c);
    ExtendedParts(d, added, s);
    forall x | x in s ensures s[x].Obj? && WellFormed(s[x]) { BodyOf(s, x); }
    HoistDecreases(d.names + added, s, n, o);
    if Faithful(d, added, s, full) && Agrees(d.schemas) {
      FaithfulParts(d, added, s, full);
      forall x | x in s ensures NoNest(s[x]) { AgreeNoNest(d.schemas, s, full, x); }
      ScannedAreReplaced(d.names + added, s, c);
      TallyCounts(Scan(d.names + added, s), c);
    }
  }

  lemma BodyOf(s: Schemas, x: string)
    requires RefClosed(s) && x in s
    ensures s[x].Obj? && WellFormed(s[x]) && Closed(s[x], s.Keys)
  {
    hide IsRef, HasRefString;
  }

  /** Nothing is left to hoist. */
  ghost predicate Settled(names: seq<string>, s: Schemas, propertyBase: seq<string> -> string) {
    forall c :: !Eligible(TallyOf(Scan(names, s)), c, s.Keys, propertyBase)
  }

  /** One turn of the loop: the first form in order is hoisted under its name. */
  ghost predicate Turn(names: seq<string>, s: Schemas, n: string, t: Schemas, propertyBase: seq<string> -> string,
                       before: (string, string) -> bool)
  {
    var info := TallyOf(Scan(names, s));
    exists c :: IsFirst(info, c, s.Keys, propertyBase, before) &&
      FirstFree(n, BaseName(info[c], c, propertyBase).value, "", s.Keys) && t == HoistOnce(s, c, n, info[c].sample)
  }

  /** The schemas s after the turns that added the names `added`. */
  ghost predicate TurnsTo(d: Document, added: seq<string>, s: Schemas, propertyBase: seq<string> -> string,
                          before: (string, string) -> bool)
    decreases |added|
  {
    if added == [] then s == d.schemas
    else
      var earlier := added[..|added| - 1];
      exists r :: TurnsTo(d, earlier, r, propertyBase, before) &&
        Turn(d.names + earlier, r, added[|added| - 1], s, propertyBase, before)
  }

  lemma OneMoreTurn(d: Document, added: seq<string>, r: Schemas, n: string, s: Schemas,
                    propertyBase: seq<string> -> string, before: (string, string) -> bool)
    requires TurnsTo(d, added, r, propertyBase, before) && Turn(d.names + added, r, n, s, propertyBase, before)
    ensures TurnsTo(d, added + [n], s, propertyBase, before)
  {
    hide Turn;
    assert (added + [n])[..|added + [n]| - 1] == added;
  }

  // The scan of the names from i on.
  lemma ScanFrom(names: seq<string>, s: Schemas, i: nat)
    requires i < |names| && names[i] in s
    ensures Scan(names[i..], s) == Walk(s[names[i]], false, "", true) + Scan(names[i + 1..], s)
  {
    hide Walk;
    var rest, later := names[i..], names[i + 1..];
    var parts := seq(|rest|,
      j requires 0 <= j < |rest| => if rest[j] in s then Walk(s[rest[j]], false, "", true) else []);
    var others := seq(|later|,
      j requires 0 <= j < |later| => if later[j] in s then Walk(s[later[j]], false, "", true) else []);
    assert parts[1..] == others;
  }

  lemma ScanNone(s: Schemas)
    ensures Scan([], s) == []
  {}

  lemma ListedIn(names: seq<string>, s: Schemas, i: nat)
    requires Elems(names) == s.Keys && i < |names|
    ensures names[i] in s
  {
    assert names[i] in Elems(names);
  }

  method ScanAll(names: seq<string>, s: Schemas) returns (tally: Tally)
    requires Elems(names) == s.Keys
    ensures fresh(tally) && tally.Valid() && tally.log == Scan(names, s)
  {
    hide TallyOf, NoDup, Walk, Scan, Elems, Flatten;
    tally := new Tally();
    var i := 0;
    assert names[0..] == names;
    while i < |names|
      invariant 0 <= i <= |names| && tally.Valid()
      invariant tally.log + Scan(names[i..], s) == Scan(names, s)
    {
      ListedIn(names, s, i);
      ScanFrom(names, s, i);
      tally.Visit(s[names[i]], false, "", true);
      i := i + 1;
    }
    assert names[i..] == [];
    ScanNone(s);
  }

  /** rewriteSubschemas over every body, and the sample under its new name. */
  method HoistInto(names: seq<string>, s: Schemas, c: string, name: string, sample: Json) returns (t: Schemas)
    requires Elems(names) == s.Keys && name !in s
    ensures t == HoistOnce(s, c, name, sample)
  {
    hide RewriteSub;
    t := map[];
    var i := 0;
    while i < |names|
      invariant 0 <= i <= |names|
      invariant t.Keys == Elems(names[..i])
      invariant forall x :: x in t ==> x in s && t[x] == RewriteSub(s[x], c, name, true)
    {
      assert names[i] in Elems(names);
      assert names[..i + 1] == names[..i] + [names[i]];
      t := t[names[i] := RewriteSub(s[names[i]], c, name, true)];
      i := i + 1;
    }
    assert names[..i] == names;
    t := t[name := sample];
  }

  // ---------- exactly when it stays reversible ----------

  /** The schemas at some point of the loop, and what the added names stand for. */
  datatype Stage = Stage(schemas: Schemas, full: Schemas)

  /** A run of the loop: the names it added, the samples they were given, and the stages between. */
  datatype Run = Run(added: seq<string>, samples: seq<Json>, stages: seq<Stage>)

  ghost predicate Hoists(a: Stage, n: string, sample: Json, b: Stage) {
    && n !in a.schemas && sample.Obj? && "$ref" !in sample.at
    && (exists y :: y in a.schemas && Part(a.schemas[y], sample))
    && b.schemas == HoistOnce(a.schemas, CanonicalForDedup(sample), n, sample)
    && b.full == a.full[n := Subst(sample, a.full)]
  }

  ghost predicate IsRun(d: Document, run: Run) {
    && |run.stages| == |run.added| + 1 == |run.samples| + 1
    && run.stages[0] == Stage(d.schemas, map[])
    && forall i :: 0 <= i < |run.added| ==> Hoists(run.stages[i], run.added[i], run.samples[i], run.stages[i + 1])
  }

  /** In each of its turns the run merges only what says the same. */
  ghost predicate AlwaysAlike(run: Run)
    requires |run.stages| == |run.samples| + 1
  {
    forall i :: 0 <= i < |run.samples| ==> MergesAlike(run.stages[i].schemas, run.stages[i].full, run.samples[i])
  }

  ghost predicate FaithfulAt(d: Document, run: Run, i: nat)
    requires IsRun(d, run) && i <= |run.added|
  {
    Faithful(d, run.added[..i], run.stages[i].schemas, run.stages[i].full)
  }

  // One turn of a run.
  lemma RunStep(d: Document, run: Run, i: nat)
    requires ClosedDocument(d) && IsRun(d, run) && i < |run.added|
    requires Extended(d, run.added[..i], run.stages[i].schemas)
    ensures Extended(d, run.added[..i + 1], run.stages[i + 1].schemas)
    ensures FaithfulAt(d, run, i) ==>
      (FaithfulAt(d, run, i + 1) <==> MergesAlike(run.stages[i].schemas, run.stages[i].full, run.samples[i]))
  {
    hide Extended, Faithful, ClosedDocument, MergesAlike, Hoists;
    var a, n, sample := run.stages[i], run.added[i], run.samples[i];
    var y := Holder(a, n, sample, run.stages[i + 1]);
    assert run.added[..i + 1] == run.added[..i] + [n];
    HoistStep(d, run.added[..i], a.schemas, CanonicalForDedup(sample), n, y, sample);
    if FaithfulAt(d, run, i) { FaithfulStepIff(d, run.added[..i], a.schemas, a.full, n, y, sample); }
  }

  // The schema that holds the hoisted part.
  lemma Holder(a: Stage, n: string, sample: Json, b: Stage) returns (y: string)
    requires Hoists(a, n, sample, b)
    ensures n !in a.schemas && sample.Obj? && "$ref" !in sample.at && y in a.schemas && Part(a.schemas[y], sample)
    ensures b.schemas == HoistOnce(a.schemas, CanonicalForDedup(sample), n, sample)
    ensures b.full == a.full[n := Subst(sample, a.full)]
  {
    hide Part, HoistOnce, Subst, CanonicalForDedup;
    y :| y in a.schemas && Part(a.schemas[y], sample);
  }

  lemma {:induction false} RunExtends(d: Document, run: Run, i: nat)
    requires ClosedDocument(d) && IsRun(d, run) && i <= |run.added|
    ensures Extended(d, run.added[..i], run.stages[i].schemas)
  {
    hide Extended, Faithful, ClosedDocument, Hoists;
    if i == 0 {
      HoistingStarts(d);
      assert run.added[..0] == [];
    } else {
      RunExtends(d, run, i - 1);
      RunStep(d, run, i - 1);
    }
  }

  // Every stage of a run can be reversed exactly when every turn merges only what says the same.
  lemma RunFaithfulIff(d: Document, run: Run)
    requires ClosedDocument(d) && IsRun(d, run)
    ensures (forall i :: 0 <= i <= |run.added| ==> FaithfulAt(d, run, i)) <==> AlwaysAlike(run)
  {
    hide Extended, FaithfulAt, ClosedDocument, Hoists, MergesAlike;
    if AlwaysAlike(run) {
      forall i | 0 <= i <= |run.added| ensures FaithfulAt(d, run, i) { AlikeIsFaithful(d, run, i); }
    }
    if forall i :: 0 <= i <= |run.added| ==> FaithfulAt(d, run, i) {
      forall i | 0 <= i < |run.samples| ensures MergesAlike(run.stages[i].schemas, run.stages[i].full, run.samples[i]) {
        RunExtends(d, run, i);
        RunStep(d, run, i);
        assert FaithfulAt(d, run, i) && FaithfulAt(d, run, i + 1);
      }
    }
  }

  lemma {:induction false} AlikeIsFaithful(d: Document, run: Run, i: nat)
    requires ClosedDocument(d) && IsRun(d, run) && i <= |run.added| && AlwaysAlike(run)
    ensures FaithfulAt(d, run, i)
  {
    hide Extended, Faithful, ClosedDocument, Hoists, MergesAlike;
    if i == 0 {
      HoistingStarts(d);
      assert run.added[..0] == [];
    } else {
      AlikeIsFaithful(d, run, i - 1);
      RunExtends(d, run, i - 1);
      RunStep(d, run, i - 1);
      assert MergesAlike(run.stages[i - 1].schemas, run.stages[i - 1].full, run.samples[i - 1]);
    }
  }

  /** A run with one more turn. */
  function Longer(run: Run, n: string, sample: Json, b: Stage): Run {
    Run(run.added + [n], run.samples + [sample], run.stages + [b])
  }

  lemma LongerRuns(d: Document, run: Run, n: string, sample: Json, b: Stage)
    requires IsRun(d, run) && Hoists(run.stages[|run.added|], n, sample, b)
    ensures IsRun(d, Longer(run, n, sample, b))
    ensures AlwaysAlike(Longer(run, n, sample, b)) <==>
      AlwaysAlike(run) && MergesAlike(run.stages[|run.added|].schemas, run.stages[|run.added|].full, sample)
  {
    hide Hoists, MergesAlike;
    var more, k := Longer(run, n, sample, b), |run.added|;
    assert more.stages[k] == run.stages[k] && more.samples[k] == sample && more.stages[k + 1] == b;
    assert forall i :: 0 <= i <= k ==> more.stages[i] == run.stages[i];
    assert forall i :: 0 <= i < k ==> more.samples[i] == run.samples[i];
    assert forall i :: 0 <= i < k ==> more.added[i] == run.added[i];
    assert AlwaysAlike(more) ==> forall i :: 0 <= i < |run.samples| ==>
      MergesAlike(more.stages[i].schemas, more.stages[i].full, more.samples[i]);
  }

  // No added name is empty.
  lemma {:induction false} AddedAreNamed(d: Document, added: seq<string>, s: Schemas,
                                         propertyBase: seq<string> -> string, before: (string, string) -> bool, i: nat)
    requires TurnsTo(d, added, s, propertyBase, before) && i < |added|
    ensures added[i] != ""
    decreases |added|
  {
    hide Turn;
    var n := |added| - 1;
    var r :| TurnsTo(d, added[..n], r, propertyBase, before) &&
      Turn(d.names + added[..n], r, added[n], s, propertyBase, before);
    if i < n {
      AddedAreNamed(d, added[..n], r, propertyBase, before, i);
    } else {
      TurnIsNamed(d.names + added[..n], r, added[n], s, propertyBase, before);
    }
  }

  lemma TurnIsNamed(names: seq<string>, s: Schemas, n: string, t: Schemas, propertyBase: seq<string> -> string,
                    before: (string, string) -> bool)
    requires Turn(names, s, n, t, propertyBase, before)
    ensures n != ""
  {
    hide BaseName, FirstFree, TallyOf, Scan, HoistOnce;
    var info := TallyOf(Scan(names, s));
    var c :| IsFirst(info, c, s.Keys, propertyBase, before) &&
      FirstFree(n, BaseName(info[c], c, propertyBase).value, "", s.Keys) && t == HoistOnce(s, c, n, info[c].sample);
    NotEmpty(n, BaseName(info[c], c, propertyBase).value, s.Keys);
  }

  /** The hoisting loop. It takes turns until nothing is left to hoist or it is cut off, and each turn
      spends inline nodes. Where parts of one form say the same, it can be reversed. */
  method HoistRepeated(d: Document, propertyBase: seq<string> -> string, before: (string, string) -> bool)
    returns (s: Schemas, added: seq<string>, ghost full: Schemas, ghost run: Run)
    requires ClosedDocument(d) && StrictOrder(before)
    ensures Extended(d, added, s) && TurnsTo(d, added, s, propertyBase, before)
    ensures IsRun(d, run) && run.added == added && run.stages[|added|] == Stage(s, full)
    ensures AlwaysAlike(run) ==> Faithful(d, added, s, full)
    ensures Agrees(d.schemas) ==> AlwaysAlike(run)
    ensures |added| == MAX_HOISTS || Settled(d.names + added, s, propertyBase)
    ensures |added| + InlineNodes(s) <= InlineNodes(d.schemas)
    ensures Agrees(d.schemas) ==> Faithful(d, added, s, full) && 2 * |added| + InlineNodes(s) <= InlineNodes(d.schemas)
  {
    hide TallyOf, Scan, HoistOnce, InlineNodes, Faithful, Extended, Subst, CanonicalForDedup, Elems, NoDup, Nameable,
      Precedes, Agrees, StrictOrder, ClosedDocument, FirstFree, TurnsTo, Part, MergesAlike, AlwaysAlike, IsRun, Longer;
    HoistingStarts(d);
    s, added, full := d.schemas, [], map[];
    run := Run([], [], [Stage(s, full)]);
    FirstStage(d);
    NoTurns(d, propertyBase, before);
    while |added| < MAX_HOISTS
      invariant |added| <= MAX_HOISTS && Extended(d, added, s) && TurnsTo(d, added, s, propertyBase, before)
      invariant IsRun(d, run) && run.added == added && |run.stages| == |added| + 1 == |run.samples| + 1
      invariant run.stages[|added|] == Stage(s, full)
      invariant AlwaysAlike(run) ==> Faithful(d, added, s, full)
      invariant Agrees(d.schemas) ==> AlwaysAlike(run)
      invariant |added| + InlineNodes(s) <= InlineNodes(d.schemas)
      invariant Agrees(d.schemas) ==>
        Faithful(d, added, s, full) && 2 * |added| + InlineNodes(s) <= InlineNodes(d.schemas)
      decreases MAX_HOISTS - |added|
    {
      ExtendedParts(d, added, s);
      var names := d.names + added;
      var tally := ScanAll(names, s);
      var chosen := ChooseCandidate(tally.info, tally.order, s.Keys, propertyBase, before);
      if chosen.None? { return; }
      var c := chosen.value;
      var sample := tally.info[c].sample;
      var name := FreshName(BaseName(tally.info[c], c, propertyBase).value, "", s.Keys);
      IsFree(name, BaseName(tally.info[c], c, propertyBase).value, "", s.Keys);
      ghost var y, o := ScannedSample(d, added, s, c);
      TurnPays(d, added, s, full, c, name);
      HoistStep(d, added, s, c, name, y, sample);
      if Faithful(d, added, s, full) { FaithfulStepIff(d, added, s, full, name, y, sample); }
      if Agrees(d.schemas) { AgreeMergesAlike(d, added, s, full, y, sample); }
      ghost var r := s;
      s := HoistInto(names, s, c, name, sample);
      ghost var stage := Stage(s, full[name := Subst(sample, full)]);
      HoistsTo(run.stages[|added|], name, sample, y, stage);
      LongerRuns(d, run, name, sample, stage);
      LongerIs(run, name, sample, stage);
      run := Longer(run, name, sample, stage);
      assert Turn(names, r, name, s, propertyBase, before);
      OneMoreTurn(d, added, r, name, s, propertyBase, before);
      full := full[name := Subst(sample, full)];
      added := added + [name];
    }
  }

  lemma FirstStage(d: Document)
    ensures IsRun(d, Run([], [], [Stage(d.schemas, map[])])) && AlwaysAlike(Run([], [], [Stage(d.schemas, map[])]))
  {}

  lemma HoistsTo(a: Stage, n: string, sample: Json, y: string, b: Stage)
    requires n !in a.schemas && sample.Obj? && "$ref" !in sample.at && y in a.schemas && Part(a.schemas[y], sample)
    requires b == Stage(HoistOnce(a.schemas, CanonicalForDedup(sample), n, sample), a.full[n := Subst(sample, a.full)])
    ensures Hoists(a, n, sample, b)
  {
    hide Part, HoistOnce, Subst, CanonicalForDedup;
  }

  lemma LongerIs(run: Run, n: string, sample: Json, b: Stage)
    ensures var more := Longer(run, n, sample, b);
      more.added == run.added + [n] && more.samples == run.samples + [sample] && more.stages == run.stages + [b]
  {}

  lemma NoTurns(d: Document, propertyBase: seq<string> -> string, before: (string, string) -> bool)
    ensures TurnsTo(d, [], d.schemas, propertyBase, before)
  {}

  lemma IsFree(name: string, base: string, sep: string, taken: set<string>)
    requires FirstFree(name, base, sep, taken)
    ensures name !in taken
  {}
}
