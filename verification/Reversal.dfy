/** Hoisting is reversible: what that means for one hoist, for meaning, and for the references among
    the names that hoisting adds. */
module Reversal {
  import opened Json
  import opened Documents
  import opened Hoist

  /** s comes from the original schemas by naming parts of them: full gives each added name's body with
      all added names expanded, and expanding them in any schema gives the original back, up to key
      order and annotation keywords. */
  ghost predicate Reversible(original: Schemas, s: Schemas, full: Schemas) {
    && RefClosed(original) && RefClosed(s)
    && original.Keys !! full.Keys && s.Keys == original.Keys + full.Keys
    && (forall n :: n in full ==> Body(full[n], original.Keys))
    && (forall x :: x in s ==> Placed(s[x], OfSchema, full.Keys))
    && (forall x :: x in original ==> Shape(Subst(s[x], full), SENSE) == Shape(original[x], SENSE))
    && (forall n :: n in full ==> Shape(Subst(s[n], full), SENSE) == Shape(full[n], SENSE))
  }

  lemma ReversibleEntry(original: Schemas, s: Schemas, full: Schemas, x: string)
    requires Reversible(original, s, full) && x in s
    ensures RefClosed(original) && RefClosed(s) && Body(s[x], s.Keys) && Placed(s[x], OfSchema, full.Keys)
    ensures Closed(Subst(s[x], full), original.Keys) && WellFormed(Subst(s[x], full))
    ensures x in full || x in original
    ensures x in full ==> Body(full[x], original.Keys) && Shape(Subst(s[x], full), SENSE) == Shape(full[x], SENSE)
    ensures x !in full ==> x in original && Body(original[x], original.Keys)
    ensures x !in full ==> Shape(Subst(s[x], full), SENSE) == Shape(original[x], SENSE)
  {
    hide Shape, Subst, IsRef, HasRefString, Placed;
    ReversibleNames(original, s, full);
    assert Body(s[x], s.Keys);
    ExpandedClosed(original, s, full, s[x]);
  }

  lemma ReversibleNames(original: Schemas, s: Schemas, full: Schemas)
    requires Reversible(original, s, full)
    ensures full.Keys <= s.Keys && original.Keys !! full.Keys && s.Keys == original.Keys + full.Keys
    ensures NoStrings(full) && AllBare(full) && RefClosed(s) && RefClosed(original)
    ensures forall n :: n in full ==> full[n].Obj?
  {
    hide Shape, Subst, IsRef, Placed;
    forall n | n in full ensures full[n].Obj? && BareIfRef(full[n]) {
      assert Body(full[n], original.Keys);
      BodyIsNoRef(full[n], original.Keys);
    }
  }

  lemma BodyIsNoRef(b: Json, names: set<string>)
    requires Body(b, names)
    ensures !HasRefString(b) && BareIfRef(b)
  {}

  lemma ExpandedClosed(original: Schemas, s: Schemas, full: Schemas, v: Json)
    requires Reversible(original, s, full) && WellFormed(v) && Closed(v, s.Keys)
    ensures Closed(Subst(v, full), original.Keys) && WellFormed(Subst(v, full))
  {
    hide Shape, Subst, IsRef, HasRefString, Placed, BareIfRef;
    ReversibleNames(original, s, full);
    forall n | n in full
      ensures WellFormed(full[n]) && Closed(full[n], original.Keys)
    {
      assert Body(full[n], original.Keys);
    }
    SubstClosed(v, full, s.Keys, original.Keys);
  }

  // ---------- one hoist ----------

  /** Every occurrence that the rewrite replaces by the new name has the expansion `target`. */
  ghost predicate MergeAgrees(v: Json, c: string, isRoot: bool, full: Schemas, target: Tree)
    decreases v, 0
  {
    match v
    case Arr(xs) => forall i :: 0 <= i < |xs| ==> MergeAgrees(xs[i], c, false, full, target)
    case Obj(_, m) =>
      if "$ref" in m then true
      else if !isRoot && CanonicalForDedup(v) == c then Shape(Subst(v, full), SENSE) == target
      else forall k :: k in m ==> MergeAgreesAt(PositionOf(k), m[k], c, full, target)
    case _ => true
  }

  ghost predicate MergeAgreesAt(p: Position, v: Json, c: string, full: Schemas, target: Tree)
    decreases v, 1
  {
    match p
    case Properties => v.Obj? ==> forall k :: k in v.at ==> MergeAgrees(v.at[k], c, false, full, target)
    case Schema => MergeAgrees(v, c, false, full, target)
    case SchemaList => v.Arr? ==> MergeAgrees(v, c, false, full, target)
    case Opaque => true
  }

  lemma SenseLens()
    ensures Each(SENSE) == SENSE && AtBody(SENSE) == SENSE && SENSE.view == OfSchema && SENSE.drop == ANNOTATION_KEYS
    ensures SENSE == SchemaLens(ANNOTATION_KEYS)
  {}

  lemma PositionLens(key: string)
    ensures PositionOf(key) == Properties ==> Below(SENSE, key) == Lens(OfSchemas, ANNOTATION_KEYS)
    ensures PositionOf(key) == Schema || PositionOf(key) == SchemaList ==> Below(SENSE, key) == SENSE
    ensures PositionOf(key) != Opaque ==> !Drops(SENSE, key)
  {
    PositionViews(key);
    if key in ANNOTATION_KEYS { AnnotationsAreOpaque(key); }
  }

  lemma MapLens(k: string)
    ensures Below(Lens(OfSchemas, ANNOTATION_KEYS), k) == SENSE && !Drops(Lens(OfSchemas, ANNOTATION_KEYS), k)
  {}

  // Expanding the new name in the rewritten value gives back what the value expands to exactly when the
  // replaced occurrences agree with the new name's body.
  lemma {:induction false} RewriteReversesIff(v: Json, c: string, n: string, isRoot: bool, names: set<string>,
                                              full: Schemas, body: Json)
    requires Closed(v, names) && n !in names
    ensures Shape(Subst(RewriteSub(v, c, n, isRoot), full[n := body]), SENSE) == Shape(Subst(v, full), SENSE)
      <==> MergeAgrees(v, c, isRoot, full, Shape(body, SENSE))
    decreases v, 0
  {
    hide CanonicalForDedup, IsRef, HasRefString, Target, RewriteSub, RewriteAt, PositionOf, MkRef, Subst, Shape, SENSE,
      BareProperties, Below, Each, Kept;
    var full' := full[n := body];
    var w := RewriteSub(v, c, n, isRoot);
    RewriteSubCases(v, c, n, isRoot);
    SubstUnmentioned(v, n, body, names, full);
    if v.Obj? && "$ref" in v.at {
    } else if v.Obj? && !isRoot && CanonicalForDedup(v) == c {
      SubstRef(w, full');
    } else if v.Obj? {
      RewriteReversesNode(v, c, n, isRoot, names, full, body);
    } else if v.Arr? {
      RewriteReversesItems(v, c, n, isRoot, names, full, body);
    }
  }

  lemma {:induction false} RewriteReversesItems(v: Json, c: string, n: string, isRoot: bool, names: set<string>,
                                                full: Schemas, body: Json)
    requires Closed(v, names) && n !in names && v.Arr?
    ensures Shape(Subst(RewriteSub(v, c, n, isRoot), full[n := body]), SENSE) == Shape(Subst(v, full), SENSE)
      <==> MergeAgrees(v, c, isRoot, full, Shape(body, SENSE))
    decreases v, 0, 0
  {
    hide CanonicalForDedup, IsRef, HasRefString, Target, RewriteSub, RewriteAt, PositionOf, MkRef, Subst, Shape, SENSE,
      BareProperties, Below, Each, Kept;
    var full' := full[n := body];
    var w := RewriteSub(v, c, n, isRoot);
    RewriteSubCases(v, c, n, isRoot);
    ArrayIsNoRef(v);
    ArrayIsNoRef(w);
    SenseLens();
    SubstNode(v, full);
    SubstNode(w, full');
    var a, b := Subst(w, full'), Subst(v, full);
    forall i | 0 <= i < |v.items|
      ensures Shape(a.items[i], SENSE) == Shape(b.items[i], SENSE) <==>
        MergeAgrees(v.items[i], c, false, full, Shape(body, SENSE))
    {
      RewriteReversesIff(v.items[i], c, n, false, names, full, body);
    }
    if Shape(a, SENSE) == Shape(b, SENSE) { ShapeInverts(a, b, SENSE); }
    if MergeAgrees(v, c, isRoot, full, Shape(body, SENSE)) { ShapeBuilds(a, b, SENSE); }
  }

  lemma ArrayIsNoRef(v: Json)
    requires v.Arr?
    ensures !HasRefString(v)
  {}

  lemma {:induction false} RewriteReversesNode(v: Json, c: string, n: string, isRoot: bool, names: set<string>,
                                               full: Schemas, body: Json)
    requires Closed(v, names) && n !in names && v.Obj? && "$ref" !in v.at && (isRoot || CanonicalForDedup(v) != c)
    ensures Shape(Subst(RewriteSub(v, c, n, isRoot), full[n := body]), SENSE) == Shape(Subst(v, full), SENSE)
      <==> MergeAgrees(v, c, isRoot, full, Shape(body, SENSE))
    decreases v, 0, 0
  {
    hide CanonicalForDedup, IsRef, HasRefString, Target, RewriteSub, RewriteAt, PositionOf, MkRef, Subst, Shape, SENSE,
      BareProperties, BareIfRef, Below, Each, Drops, MergeAgreesAt;
    var full' := full[n := body];
    var w := RewriteSub(v, c, n, isRoot);
    RewriteSubCases(v, c, n, isRoot);
    NoRefKey(v);
    ClosedNode(v, names);
    PropertiesPosition();
    SubstNode(v, full);
    SubstNode(w, full');
    var a, b := Subst(w, full'), Subst(v, full);
    forall k | k in v.at
      ensures Shape(a.at[k], Below(SENSE, k)) == Shape(b.at[k], Below(SENSE, k)) <==>
        MergeAgreesAt(PositionOf(k), v.at[k], c, full, Shape(body, SENSE))
      ensures Drops(SENSE, k) ==> MergeAgreesAt(PositionOf(k), v.at[k], c, full, Shape(body, SENSE))
    {
      PositionLens(k);
      if PositionOf(k) == Properties { PropertiesBare(v); }
      RewriteAtReversesIff(PositionOf(k), v.at[k], c, n, Below(SENSE, k), names, full, body);
      if Drops(SENSE, k) { OpaqueAgrees(v.at[k], c, full, Shape(body, SENSE)); }
    }
    if Shape(a, SENSE) == Shape(b, SENSE) {
      ShapeInverts(a, b, SENSE);
      forall k | k in v.at ensures MergeAgreesAt(PositionOf(k), v.at[k], c, full, Shape(body, SENSE)) {
        assert !Drops(SENSE, k) ==> k in Kept(a.at.Keys, SENSE);
      }
    }
    if MergeAgrees(v, c, isRoot, full, Shape(body, SENSE)) { ShapeBuilds(a, b, SENSE); }
  }

  lemma OpaqueAgrees(v: Json, c: string, full: Schemas, target: Tree)
    ensures MergeAgreesAt(Opaque, v, c, full, target)
  {}

  lemma {:induction false} RewriteAtReversesIff(p: Position, v: Json, c: string, n: string, l: Lens,
                                                names: set<string>, full: Schemas, body: Json)
    requires Closed(v, names) && n !in names
    requires p == Properties ==> l == Lens(OfSchemas, ANNOTATION_KEYS) && BareIfRef(v)
    requires p == Schema || p == SchemaList ==> l == SENSE
    ensures Shape(Subst(RewriteAt(p, v, c, n), full[n := body]), l) == Shape(Subst(v, full), l)
      <==> MergeAgreesAt(p, v, c, full, Shape(body, SENSE))
    decreases v, 1
  {
    hide CanonicalForDedup, IsRef, HasRefString, Target, RewriteSub, RewriteAt, MkRef, Subst, Shape, SENSE,
      BareProperties, BareIfRef, Each, MergeAgrees;
    RewriteAtCases(p, v, c, n);
    var full' := full[n := body];
    var w := RewriteAt(p, v, c, n);
    SubstUnmentioned(v, n, body, names, full);
    if p.Properties? && v.Obj? {
      RewriteMapReversesIff(v, c, n, names, full, body);
    } else if p.Schema? || (p.SchemaList? && v.Arr?) {
      RewriteReversesIff(v, c, n, false, names, full, body);
    }
  }

  lemma BareMapAgrees(v: Json, c: string, full: Schemas, target: Tree)
    requires v.Obj? && HasRefString(v) && BareIfRef(v)
    ensures MergeAgreesAt(Properties, v, c, full, target)
  {}

  lemma {:induction false} RewriteMapReversesIff(v: Json, c: string, n: string, names: set<string>, full: Schemas,
                                                 body: Json)
    requires Closed(v, names) && n !in names && v.Obj? && BareIfRef(v)
    ensures Shape(Subst(RewriteAt(Properties, v, c, n), full[n := body]), Lens(OfSchemas, ANNOTATION_KEYS))
        == Shape(Subst(v, full), Lens(OfSchemas, ANNOTATION_KEYS))
      <==> MergeAgreesAt(Properties, v, c, full, Shape(body, SENSE))
    decreases v, 0
  {
    hide CanonicalForDedup, IsRef, HasRefString, Target, RewriteSub, RewriteAt, MkRef, Subst, Shape, SENSE,
      ANNOTATION_KEYS, BareProperties, BareIfRef, Each, Below, Drops, MergeAgrees;
    var l := Lens(OfSchemas, ANNOTATION_KEYS);
    var full' := full[n := body];
    var w := RewriteAt(Properties, v, c, n);
    RewriteAtCases(Properties, v, c, n);
    if HasRefString(v) {
      BareKept(v, c, n);
      BareMapAgrees(v, c, full, Shape(body, SENSE));
      SubstUnmentioned(v, n, body, names, full);
    } else {
      ClosedNode(v, names);
      SubstNode(v, full);
      SubstNode(w, full');
      var a, b := Subst(w, full'), Subst(v, full);
      forall k | k in v.at
        ensures Shape(a.at[k], Below(l, k)) == Shape(b.at[k], Below(l, k)) <==>
          MergeAgrees(v.at[k], c, false, full, Shape(body, SENSE))
        ensures k in Kept(a.at.Keys, l)
      {
        MapLens(k);
        RewriteReversesIff(v.at[k], c, n, false, names, full, body);
      }
      if Shape(a, l) == Shape(b, l) { ShapeInverts(a, b, l); }
      if MergeAgreesAt(Properties, v, c, full, Shape(body, SENSE)) { ShapeBuilds(a, b, l); }
    }
  }

  // A name that does not occur may be added to a substitution.
  lemma {:induction false} SubstUnmentioned(v: Json, n: string, b: Json, names: set<string>, f: map<string, Json>)
    requires Closed(v, names) && n !in names
    ensures Subst(v, f[n := b]) == Subst(v, f)
  {
    hide IsRef, HasRefString, Target, Subst, BareProperties;
    if HasRefString(v) {
      SubstRef(v, f);
      SubstRef(v, f[n := b]);
    } else {
      SubstNode(v, f);
      SubstNode(v, f[n := b]);
      match v
      case Arr(xs) =>
        forall i | 0 <= i < |xs|
          ensures Subst(xs[i], f[n := b]) == Subst(xs[i], f)
        {
          SubstUnmentioned(xs[i], n, b, names, f);
        }
        assert Subst(v, f[n := b]).items == Subst(v, f).items;
      case Obj(_, m) =>
        forall k | k in m ensures Subst(m[k], f[n := b]) == Subst(m[k], f) { SubstUnmentioned(m[k], n, b, names, f); }
        assert Subst(v, f[n := b]).at == Subst(v, f).at;
      case _ =>
    }
  }

  // One hoist keeps the document reversible exactly when all the occurrences it merges have the same
  // expansion, up to annotation keywords.
  lemma HoistReversesIff(original: Schemas, s: Schemas, full: Schemas, c: string, n: string, sample: Json)
    requires Reversible(original, s, full) && n !in s && Body(sample, s.Keys) && Placed(sample, OfSchema, full.Keys)
    ensures Reversible(original, HoistOnce(s, c, n, sample), full[n := Subst(sample, full)]) <==>
      forall x :: x in s ==> MergeAgrees(s[x], c, true, full, Shape(Subst(sample, full), SENSE))
  {
    hide CanonicalForDedup, IsRef, HasRefString, RewriteSub, Shape, Subst, Placed, MergeAgrees, SENSE, Body,
      WellFormed, RefClosed;
    var body := Subst(sample, full);
    var t, full' := HoistOnce(s, c, n, sample), full[n := body];
    ReversibleNames(original, s, full);
    ExpandedBody(original, s, full, sample);
    HoistCloses(s, c, n, sample);
    SampleExpands(sample, s.Keys, n, full, body);
    forall x | x in t
      ensures Placed(t[x], OfSchema, full'.Keys)
      ensures x in s ==> (Shape(Subst(t[x], full'), SENSE) == Shape(Subst(s[x], full), SENSE) <==>
        MergeAgrees(s[x], c, true, full, Shape(body, SENSE)))
    {
      assert full'.Keys == full.Keys + {n};
      if x == n {
        SamplePlaced(sample, s.Keys, n, full.Keys);
      } else {
        ReversibleEntry(original, s, full, x);
        BodyRewrites(s[x], c, n, s.Keys, full, body);
      }
    }
  }

  lemma SamplePlaced(sample: Json, names: set<string>, n: string, added: set<string>)
    requires Body(sample, names) && n !in names && Placed(sample, OfSchema, added)
    ensures Placed(sample, OfSchema, added + {n})
  {
    hide IsRef, HasRefString, Placed;
    PlacedMore(sample, OfSchema, names, n, added);
  }

  lemma SampleExpands(sample: Json, names: set<string>, n: string, full: Schemas, body: Json)
    requires Body(sample, names) && n !in names
    ensures Subst(sample, full[n := body]) == Subst(sample, full)
  {
    hide IsRef, HasRefString, Subst;
    SubstUnmentioned(sample, n, body, names, full);
  }

  lemma BodyRewrites(b: Json, c: string, n: string, names: set<string>, full: Schemas, body: Json)
    requires Body(b, names) && n !in names && Placed(b, OfSchema, full.Keys)
    ensures Placed(RewriteSub(b, c, n, true), OfSchema, full.Keys + {n})
    ensures Shape(Subst(RewriteSub(b, c, n, true), full[n := body]), SENSE) == Shape(Subst(b, full), SENSE)
      <==> MergeAgrees(b, c, true, full, Shape(body, SENSE))
  {
    hide IsRef, HasRefString, Subst, Placed, RewriteSub, Shape, MergeAgrees, SENSE;
    RewriteSubPlaced(b, c, n, true, names, full.Keys);
    RewriteReversesIff(b, c, n, true, names, full, body);
  }

  lemma ExpandedBody(original: Schemas, s: Schemas, full: Schemas, sample: Json)
    requires Reversible(original, s, full) && Body(sample, s.Keys)
    ensures Body(Subst(sample, full), original.Keys)
  {
    hide Shape, Subst, HasRefString, Placed, Reversible;
    ExpandedClosed(original, s, full, sample);
    ReversibleNames(original, s, full);
    hide IsRef;
    SubstKeepsKind(sample, full);
    SubstNodeKind(sample, full, s.Keys);
  }

  lemma SubstNodeKind(v: Json, f: map<string, Json>, names: set<string>)
    requires Body(v, names)
    ensures Subst(v, f).Obj?
  {
    BodyIsNoRef(v, names);
    SubstNode(v, f);
  }

  // ---------- reversible means meaning is kept ----------

  // A value unfolds as its expansion does in the original document.
  lemma {:induction false} ExpansionUnfolds(original: Schemas, s: Schemas, full: Schemas, l: Lens, v: Json, k: nat)
    requires Reversible(original, s, full) && Closed(v, s.Keys) && Placed(v, l.view, full.Keys)
    requires l.drop == ANNOTATION_KEYS && !l.view.Flat?
    ensures Unfold(s, l, v, k) == Unfold(original, l, Subst(v, full), k)
    decreases k, 2
  {
    hide IsRef, HasRefString, Target, Unfold, Shape, Subst, Reversible, ANNOTATION_KEYS, Placed, Closed;
    if HasRefString(v) {
      ClosedRef(v, s.Keys);
      ExpandedRefUnfolds(original, s, full, l, v, k);
    } else {
      ExpansionUnfoldsNode(original, s, full, l, v, k);
    }
  }

  lemma {:induction false} ExpandedRefUnfolds(original: Schemas, s: Schemas, full: Schemas, l: Lens, v: Json, k: nat)
    requires Reversible(original, s, full) && Closed(v, s.Keys) && Placed(v, l.view, full.Keys)
    requires IsRef(v) && Target(v) in s && l.drop == ANNOTATION_KEYS && !l.view.Flat?
    ensures Unfold(s, l, v, k) == Unfold(original, l, Subst(v, full), k)
    decreases k, 1
  {
    hide IsRef, HasRefString, Target, Unfold, Shape, Subst, Reversible, ANNOTATION_KEYS, Placed, Closed, Besides;
    var x := Target(v);
    SenseLens();
    SubstRef(v, full);
    EntryUnfolds(original, s, full, x, k);
    if x in full {
      PlacedRef(v, l.view, full.Keys);
      assert l == SENSE by { LensIs(l); }
      BareShowsNothing(v, l);
      UnfoldRef(s, l, v, k);
    } else {
      ClosedRef(v, s.Keys);
      if k > 0 { EntryUnfolds(original, s, full, x, k - 1); }
      AtBodyIs(l);
      CarriedRef(s, v, original, v, l, k);
    }
  }

  lemma LensIs(l: Lens)
    requires l.drop == ANNOTATION_KEYS && l.view.OfSchema?
    ensures l == SENSE
  {}

  lemma AtBodyIs(l: Lens)
    requires l.drop == ANNOTATION_KEYS
    ensures AtBody(l) == SENSE
  {}

  lemma BareShowsNothing(v: Json, l: Lens)
    requires IsRef(v) && Bare(v)
    ensures Besides(v, l) == {}
  {}

  // A schema unfolds as the original schema, or as the full body of the added name.
  lemma {:induction false} EntryUnfolds(original: Schemas, s: Schemas, full: Schemas, x: string, k: nat)
    requires Reversible(original, s, full) && x in s
    ensures x in full || x in original
    ensures !IsRef(s[x]) && (x !in full ==> !IsRef(original[x]))
    ensures Unfold(s, SENSE, s[x], k) == Unfold(original, SENSE, if x in full then full[x] else original[x], k)
    decreases k, 0, 1
  {
    hide HasRefString, Target, Unfold, Shape, Subst, Reversible, ANNOTATION_KEYS, Placed, SENSE;
    ReversibleEntry(original, s, full, x);
    SenseLens();
    hide IsRef;
    ExpansionUnfoldsNode(original, s, full, SENSE, s[x], k);
    NotAnAnnotation();
    ShapeUnfolds(original, SENSE, Subst(s[x], full), if x in full then full[x] else original[x], original.Keys, k);
  }

  lemma {:induction false} ExpansionUnfoldsNode(original: Schemas, s: Schemas, full: Schemas, l: Lens, v: Json, k: nat)
    requires Reversible(original, s, full) && Closed(v, s.Keys) && Placed(v, l.view, full.Keys) && !IsRef(v)
    requires l.drop == ANNOTATION_KEYS && !l.view.Flat?
    ensures Unfold(s, l, v, k) == Unfold(original, l, Subst(v, full), k)
    decreases k, 0, 0
  {
    hide IsRef, HasRefString, Target, Unfold, Shape, Subst, Reversible, ANNOTATION_KEYS, Placed, BareProperties,
      KeywordView, Below, Each, ViewBelow, Kept, Closed, OneLevel;
    var w := Subst(v, full);
    if k == 0 {
      UnfoldCut(s, l, v);
      UnfoldCut(original, l, w);
    } else {
      ClosedNoRef(v, s.Keys);
      ClosedNode(v, s.Keys);
      ReversibleNames(original, s, full);
      SubstNode(v, full);
      SubstKeepsKind(v, full);
      PlacedNode(v, l.view, full.Keys);
      LensDrops(l);
      match v {
        case Arr(xs) =>
          EachView(l);
          forall i | 0 <= i < |xs| { ExpansionUnfolds(original, s, full, Each(l), xs[i], k - 1); }
        case Obj(_, m) =>
          forall key | key in m
            ensures Unfold(s, Below(l, key), m[key], k - 1) == Unfold(original, Below(l, key), w.at[key], k - 1)
          {
            BelowIsNotFlat(l, key);
            ExpansionUnfolds(original, s, full, Below(l, key), m[key], k - 1);
          }
        case _ =>
      }
      SameLevel(s, v, original, w, l, k - 1);
      Congruence(s, v, original, w, l, k);
    }
  }

  lemma SameLevel(s: Schemas, v: Json, t: Schemas, w: Json, l: Lens, k: nat)
    requires v.Arr? ==> w.Arr? && |w.items| == |v.items|
    requires v.Arr? ==> forall i :: 0 <= i < |v.items| ==>
      Unfold(s, Each(l), v.items[i], k) == Unfold(t, Each(l), w.items[i], k)
    requires v.Obj? ==> w.Obj? && w.at.Keys == v.at.Keys
    requires v.Obj? ==> forall key :: key in v.at ==>
      Unfold(s, Below(l, key), v.at[key], k) == Unfold(t, Below(l, key), w.at[key], k)
    requires !v.Arr? && !v.Obj? ==> w == v
    ensures OneLevel(s, v, t, w, l, k)
  {
    hide Unfold, Below, Each, Kept;
  }

  lemma EachView(l: Lens)
    requires l.drop == ANNOTATION_KEYS && !l.view.Flat?
    ensures Each(l) == Each(Lens(l.view, ANNOTATION_KEYS)) && !Each(l).view.Flat?
  {}

  lemma BelowIsNotFlat(l: Lens, key: string)
    requires !l.view.Flat?
    ensures !Below(l, key).view.Flat? && Below(l, key).view == ViewBelow(l.view, key)
  {}

  // Every original schema means what it meant, up to annotation keywords.
  lemma ReversibleKeepsMeaning(original: Schemas, s: Schemas, full: Schemas, x: string)
    requires Reversible(original, s, full) && x in original
    ensures x in s && SameMeaning(original, original[x], s, s[x], SENSE)
  {
    hide Shape, Subst, IsRef, HasRefString, Unfold, RefClosed, Closed, Placed, SENSE, Reversible;
    ReversibleNames(original, s, full);
    forall k: nat ensures Unfold(original, SENSE, original[x], k) == Unfold(s, SENSE, s[x], k) {
      EntryUnfolds(original, s, full, x, k);
    }
  }

  // So does everything that mentions original names only.
  lemma ReversibleKeepsRest(original: Schemas, s: Schemas, full: Schemas, v: Json)
    requires Reversible(original, s, full) && Closed(v, original.Keys)
    ensures SameMeaning(original, v, s, v, RestLens(ANNOTATION_KEYS))
  {
    hide Shape, IsRef, HasRefString, Unfold, RefClosed, Placed, Reversible, Closed, Subst;
    ReversibleNames(original, s, full);
    ClosedUnder(v, original.Keys, s.Keys);
    NothingPlaced(v, OfData, original.Keys, full.Keys);
    SubstNothing(v, original.Keys, full);
    forall k: nat
      ensures Unfold(original, RestLens(ANNOTATION_KEYS), v, k) == Unfold(s, RestLens(ANNOTATION_KEYS), v, k)
    {
      ExpansionUnfolds(original, s, full, RestLens(ANNOTATION_KEYS), v, k);
    }
  }

  lemma {:induction false} SubstNothing(v: Json, names: set<string>, f: map<string, Json>)
    requires Closed(v, names) && names !! f.Keys
    ensures Subst(v, f) == v
  {
    hide IsRef, HasRefString, Target, Subst, BareProperties;
    if HasRefString(v) {
      SubstRef(v, f);
    } else {
      SubstNode(v, f);
      match v
      case Arr(xs) =>
        forall i | 0 <= i < |xs| ensures Subst(xs[i], f) == xs[i] { SubstNothing(xs[i], names, f); }
        assert Subst(v, f).items == xs;
      case Obj(_, m) =>
        forall k | k in m ensures Subst(m[k], f) == m[k] { SubstNothing(m[k], names, f); }
        assert Subst(v, f).at == m;
      case _ =>
    }
  }

  // ---------- added names refer to each other without cycles ----------

  ghost function FullShape(full: Schemas, n: string): Tree
    requires n in full
  {
    Shape(full[n], SENSE)
  }

  // What a node mentions is a proper part of its expansion.
  lemma {:induction false} MentionedIsSmaller(v: Json, view: View, names: set<string>, full: Schemas, n: string)
    requires Closed(v, names) && Placed(v, view, full.Keys) && n in full && Mentions(v, n) && !view.Flat?
    ensures view.OfSchema? || view.OfSchemas?
    ensures HasRefString(v) ==> Shape(Subst(v, full), Lens(view, ANNOTATION_KEYS)) == FullShape(full, n)
    ensures !HasRefString(v) ==> FullShape(full, n) < Shape(Subst(v, full), Lens(view, ANNOTATION_KEYS))
    decreases v
  {
    hide IsRef, HasRefString, Target, Subst, BareProperties, ANNOTATION_KEYS, KeywordView, Placed, Shape;
    if HasRefString(v) {
      ClosedRef(v, names);
      SubstRef(v, full);
      MentionsTarget(v, n);
      PlacedRef(v, view, full.Keys);
    } else {
      NotRef(v);
      SubstNode(v, full);
      PlacedNode(v, view, full.Keys);
      var l := Lens(view, ANNOTATION_KEYS);
      match v
      case Arr(xs) =>
        var i :| 0 <= i < |xs| && Mentions(xs[i], n);
        MentionedIsSmaller(xs[i], Each(l).view, names, full, n);
        assert Each(l) == Lens(Each(l).view, ANNOTATION_KEYS);
        ItemIsSmaller(Subst(v, full), i, l);
      case Obj(_, m) =>
        var k :| k in m && Mentions(m[k], n);
        BelowIsNotFlat(l, k);
        MentionedIsSmaller(m[k], ViewBelow(view, k), names, full, n);
        if k in ANNOTATION_KEYS && view.OfSchema? { AnnotationsAreOpaque(k); }
        assert Below(l, k) == Lens(ViewBelow(view, k), ANNOTATION_KEYS);
        ValueIsSmaller(Subst(v, full), k, l);
      case _ =>
    }
  }

  lemma MentionsTarget(v: Json, n: string)
    requires IsRef(v) && Mentions(v, n)
    ensures Target(v) == n
  {}

  lemma ItemIsSmaller(v: Json, i: nat, l: Lens)
    requires v.Arr? && i < |v.items|
    ensures Shape(v.items[i], Each(l)) < Shape(v, l)
  {
    hide Each, KeywordView;
    var t := Shape(v, l);
    assert t.List? && i < |t.items| && t.items[i] == Shape(v.items[i], Each(l));
    hide Shape;
    assert t.items[i] < t;
  }

  lemma ValueIsSmaller(v: Json, k: string, l: Lens)
    requires v.Obj? && k in v.at && !Drops(l, k)
    ensures Shape(v.at[k], Below(l, k)) < Shape(v, l)
  {
    hide Below, KeywordView;
    var t := Shape(v, l);
    assert t.Map? && k in t.at && t.at[k] == Shape(v.at[k], Below(l, k));
    hide Shape;
    assert t.at[k] < t;
  }

  // References among added names go to strictly smaller expansions, so they form no cycle.
  lemma AddedNamesDescend(original: Schemas, s: Schemas, full: Schemas, x: string, y: string)
    requires Reversible(original, s, full) && x in full && y in full && x in s && Mentions(s[x], y)
    ensures FullShape(full, y) < FullShape(full, x)
  {
    hide IsRef, HasRefString, Shape, Subst, Placed, Reversible;
    ReversibleEntry(original, s, full, x);
    SenseLens();
    MentionedIsSmaller(s[x], OfSchema, s.Keys, full, y);
    BodyIsNoRef(s[x], s.Keys);
  }

  /** A path of references through added names. */
  ghost predicate AddedPath(s: Schemas, added: set<string>, path: seq<string>) {
    && (forall i :: 0 <= i < |path| ==> path[i] in added && path[i] in s)
    && (forall i :: 0 <= i < |path| - 1 ==> Mentions(s[path[i]], path[i + 1]))
  }

  lemma {:induction false} AddedNamesAcyclic(original: Schemas, s: Schemas, full: Schemas, path: seq<string>)
    requires Reversible(original, s, full)
    requires |path| >= 2 && AddedPath(s, full.Keys, path)
    ensures FullShape(full, path[|path| - 1]) < FullShape(full, path[0])
    ensures path[0] != path[|path| - 1]
  {
    hide Reversible, Shape, Mentions;
    AddedNamesDescend(original, s, full, path[0], path[1]);
    if |path| > 2 {
      assert AddedPath(s, full.Keys, path[1..]);
      AddedNamesAcyclic(original, s, full, path[1..]);
    }
  }
}
