/** When hoisting keeps meaning: parts of one form must say the same. */
module HoistAgree {
  import opened Json
  import opened Documents
  import opened Hoist
  import opened Reversal
  import opened Occurrences
  import opened HoistCount

  /** Parts of the schemas that have one form say the same: they differ in annotation keywords only, not
      in properties named like annotations, nor in data. */
  ghost predicate Agrees(s: Schemas) {
    forall x, y, p, q ::
      x in s && y in s && Part(s[x], p) && Part(s[y], q) && p.Obj? && q.Obj? &&
        CanonicalForDedup(p) == CanonicalForDedup(q)
      ==> Shape(p, SENSE) == Shape(q, SENSE)
  }

  /** A part of some original schema has this shape. */
  ghost predicate Traced(original: Schemas, t: Tree) {
    exists x, q :: x in original && Part(original[x], q) && q.Obj? && Shape(q, SENSE) == t
  }

  /** The added names stand for parts of original schemas. */
  ghost predicate AllTraced(original: Schemas, full: Schemas) {
    forall n :: n in full ==> Traced(original, Shape(full[n], SENSE))
  }

  // ---------- parts of expansions are parts of what they expand ----------

  // What says the same has the same form.
  lemma {:induction false} SenseGivesForm(v: Json, w: Json, l: Lens)
    requires Shape(v, l) == Shape(w, l) && l.drop == ANNOTATION_KEYS
    ensures Shape(v, STRIPPED) == Shape(w, STRIPPED)
    decreases v
  {
    hide Shape, KeywordView, ANNOTATION_KEYS, Drops, Below, Each;
    ShapeInverts(v, w, l);
    LensDrops(l);
    FlatLens();
    match v
    case Arr(xs) =>
      forall i | 0 <= i < |xs| { SenseGivesForm(xs[i], w.items[i], Each(l)); }
      ShapeBuilds(v, w, STRIPPED);
    case Obj(_, m) =>
      StrippedKeys(m.Keys, w.at.Keys, l);
      forall k | k in Kept(m.Keys, STRIPPED) && k in m && k in w.at
        ensures Shape(m[k], Below(STRIPPED, k)) == Shape(w.at[k], Below(STRIPPED, k))
      {
        SenseGivesForm(m[k], w.at[k], Below(l, k));
      }
      ShapeBuilds(v, w, STRIPPED);
    case _ =>
  }

  lemma FlatLens()
    ensures Each(STRIPPED) == STRIPPED && forall k :: Below(STRIPPED, k) == STRIPPED
  {}

  lemma StrippedKeys(a: set<string>, b: set<string>, l: Lens)
    requires l.drop == ANNOTATION_KEYS && Kept(a, l) == Kept(b, l)
    ensures Kept(a, STRIPPED) == Kept(b, STRIPPED) && Kept(a, STRIPPED) <= Kept(a, l)
  {
    hide ANNOTATION_KEYS;
    assert forall k :: k in Kept(a, STRIPPED) <==> k in Kept(a, l) && k !in ANNOTATION_KEYS;
    assert forall k :: k in Kept(b, STRIPPED) <==> k in Kept(b, l) && k !in ANNOTATION_KEYS;
  }

  lemma SubstMap(v: Json, full: Schemas)
    requires v.Obj? && !HasRefString(v)
    ensures Subst(v, full).Obj? && Subst(v, full).at.Keys == v.at.Keys
    ensures forall k :: k in v.at ==> Subst(v, full).at[k] == Subst(v.at[k], full)
  {
    SubstNode(v, full);
  }

  // A child of v expands to what a child of w says, if v expands to what w says.
  lemma ChildTraces(v: Json, w: Json, p: Json, names: set<string>, full: Schemas) returns (q: Json)
    requires Closed(v, names) && Child(v, p) && NoStrings(full) && Shape(Subst(v, full), SENSE) == Shape(w, SENSE)
    requires (v.Obj? ==> "$ref" !in v.at) && !p.Str?
    ensures Child(w, q) && Shape(Subst(p, full), SENSE) == Shape(q, SENSE)
    ensures Shape(q, SENSE) < Shape(w, SENSE)
  {
    hide IsRef, HasRefString, Target, Subst, Shape, PositionOf, SENSE, ANNOTATION_KEYS, BareProperties, BareIfRef,
      Below, Each, Drops, KeywordView;
    var e := Subst(v, full);
    SenseLens();
    if v.Arr? {
      ArrayIsNoRef(v);
      SubstNode(v, full);
      ShapeInverts(e, w, SENSE);
      var i :| 0 <= i < |v.items| && v.items[i] == p;
      q := w.items[i];
      ItemIsSmaller(w, i, SENSE);
    } else {
      NoRefKey(v);
      ClosedNode(v, names);
      SubstMap(v, full);
      ShapeInverts(e, w, SENSE);
      var k :| k in v.at && ChildAt(PositionOf(k), v.at[k], p);
      KeptPosition(k, v.at.Keys);
      PositionLens(k);
      RefKeyKept(e, w);
      assert k in Kept(e.at.Keys, SENSE);
      ValueIsSmaller(w, k, SENSE);
      if PositionOf(k).Properties? {
        PropertiesPosition();
        PropertiesBare(v);
        NoRefMap(v.at[k], p);
        q := PropertyTraces(v.at[k], w.at[k], p, names, full);
        assert ChildAt(PositionOf(k), w.at[k], q);
      } else {
        q := w.at[k];
        ListKept(v.at[k], full, w.at[k]);
        assert ChildAt(PositionOf(k), w.at[k], q);
      }
    }
  }

  lemma KeptPosition(k: string, keys: set<string>)
    requires PositionOf(k) != Opaque && k in keys
    ensures k in Kept(keys, SENSE)
  {
    PositionLens(k);
  }

  // Keys that are not forgotten are the same; so there is no `$ref` key on one side only.
  lemma RefKeyKept(e: Json, w: Json)
    requires e.Obj? && w.Obj? && Kept(e.at.Keys, SENSE) == Kept(w.at.Keys, SENSE)
    ensures "$ref" in e.at <==> "$ref" in w.at
  {
    NotAnAnnotation();
    assert "$ref" in e.at <==> "$ref" in Kept(e.at.Keys, SENSE);
    assert "$ref" in w.at <==> "$ref" in Kept(w.at.Keys, SENSE);
  }

  // A list stays a list.
  lemma ListKept(v: Json, full: Schemas, w: Json)
    requires Shape(Subst(v, full), SENSE) == Shape(w, SENSE)
    ensures v.Arr? ==> w.Arr?
  {
    hide Shape, SENSE, IsRef;
    ShapeInverts(Subst(v, full), w, SENSE);
    if v.Arr? { ArrayIsNoRef(v); SubstNode(v, full); }
  }

  lemma NoRefMap(v: Json, p: Json)
    requires BareIfRef(v) && ChildAt(Properties, v, p) && !p.Str?
    ensures !HasRefString(v)
  {}

  lemma PropertyTraces(v: Json, w: Json, p: Json, names: set<string>, full: Schemas) returns (q: Json)
    requires Closed(v, names) && BareIfRef(v) && ChildAt(Properties, v, p) && NoStrings(full)
    requires Shape(Subst(v, full), Lens(OfSchemas, ANNOTATION_KEYS)) == Shape(w, Lens(OfSchemas, ANNOTATION_KEYS))
    requires !HasRefString(v)
    ensures ChildAt(Properties, w, q) && Shape(Subst(p, full), SENSE) == Shape(q, SENSE)
    ensures Shape(q, SENSE) < Shape(w, Lens(OfSchemas, ANNOTATION_KEYS))
  {
    hide IsRef, HasRefString, Target, Subst, Shape, SENSE, ANNOTATION_KEYS, BareProperties, Below, Drops, KeywordView;
    var l := Lens(OfSchemas, ANNOTATION_KEYS);
    var e := Subst(v, full);
    SubstMap(v, full);
    ShapeInverts(e, w, l);
    var k :| k in v.at && v.at[k] == p;
    MapLens(k);
    assert k in Kept(e.at.Keys, l);
    q := w.at[k];
    ValueIsSmaller(w, k, l);
  }

  // A part of v expands to what a part of w says, if v expands to what w says.
  lemma {:induction false} PartTraces(v: Json, w: Json, p: Json, names: set<string>, full: Schemas) returns (q: Json)
    requires WellFormed(v) && Closed(v, names) && Part(v, p) && p.Obj? && NoStrings(full)
    requires Shape(Subst(v, full), SENSE) == Shape(w, SENSE)
    ensures Part(w, q) && Shape(Subst(p, full), SENSE) == Shape(q, SENSE) && Shape(q, SENSE) < Shape(w, SENSE)
    decreases v
  {
    hide Child, Subst, Shape, Closed, WellFormed, SENSE;
    var c :| Child(v, c) && c < v && (c == p || Part(c, p));
    ParentHasNoRef(v, c);
    ChildClosed(v, c, names);
    if c != p { PartIsInside(c, p); }
    var d := ChildTraces(v, w, c, names, full);
    ChildIsPart(w, d);
    if c == p {
      q := d;
    } else {
      q := PartTraces(c, d, p, names, full);
      PartOfPart(w, d, q);
    }
  }

  lemma ParentHasNoRef(v: Json, c: Json)
    requires Child(v, c)
    ensures v.Obj? ==> "$ref" !in v.at
  {}

  lemma PartIsInside(v: Json, p: Json)
    requires Part(v, p)
    ensures !v.Str?
  {}

  // A part's expansion is a proper part of the whole's.
  lemma PartSmaller(v: Json, p: Json, names: set<string>, full: Schemas)
    requires WellFormed(v) && Closed(v, names) && Part(v, p) && p.Obj? && NoStrings(full)
    ensures Shape(Subst(p, full), SENSE) < Shape(Subst(v, full), SENSE)
  {
    hide Part, Subst, Shape, Closed, WellFormed, SENSE;
    var q := PartTraces(v, Subst(v, full), p, names, full);
  }

  // What a part of a hoisted document expands to, a part of the original says.
  lemma PartIsTraced(original: Schemas, s: Schemas, full: Schemas, x: string, p: Json)
    requires Reversible(original, s, full) && AllTraced(original, full) && x in s && Part(s[x], p) && p.Obj?
    ensures Traced(original, Shape(Subst(p, full), SENSE))
  {
    hide *;
    ReversibleEntry(original, s, full, x);
    ReversibleNames(original, s, full);
    PartOfBody(s[x], p, s.Keys);
    if x in full {
      var y, q0 := TracedFrom(original, full, x);
      var q := PartTraces(s[x], q0, p, s.Keys, full);
      PartOfPart(original[y], q0, q);
      ExpandedKind(p, full, q, s.Keys);
      IsTraced(original, y, q, Shape(Subst(p, full), SENSE));
    } else {
      var q := PartTraces(s[x], original[x], p, s.Keys, full);
      ExpandedKind(p, full, q, s.Keys);
      IsTraced(original, x, q, Shape(Subst(p, full), SENSE));
    }
  }

  lemma TracedFrom(original: Schemas, full: Schemas, n: string) returns (y: string, q: Json)
    requires AllTraced(original, full) && n in full
    ensures y in original && Part(original[y], q) && q.Obj? && Shape(q, SENSE) == Shape(full[n], SENSE)
  {
    hide Traced;
    y, q := TracedAt(original, Shape(full[n], SENSE));
  }

  lemma IsTraced(original: Schemas, y: string, q: Json, t: Tree)
    requires y in original && Part(original[y], q) && q.Obj? && Shape(q, SENSE) == t
    ensures Traced(original, t)
  {
    hide Part, Shape, SENSE;
  }

  lemma PartOfBody(b: Json, p: Json, names: set<string>)
    requires Body(b, names) && Part(b, p)
    ensures WellFormed(b) && Closed(b, names) && WellFormed(p) && Closed(p, names)
  {
    hide IsRef, HasRefString, Part, WellFormed, Closed;
    PartClosed(b, p, names);
  }

  lemma ExpandedKind(p: Json, full: Schemas, q: Json, names: set<string>)
    requires p.Obj? && Closed(p, names) && Shape(Subst(p, full), SENSE) == Shape(q, SENSE)
    requires forall n :: n in full ==> full[n].Obj?
    ensures q.Obj?
  {
    hide Shape, SENSE, IsRef, HasRefString, Target, Subst;
    ShapeInverts(Subst(p, full), q, SENSE);
    if HasRefString(p) {
      ClosedRef(p, names);
      SubstRef(p, full);
    } else {
      SubstNode(p, full);
    }
  }

  // ---------- agreement carries over to hoisted documents ----------

  // Parts of one form expand to the same.
  lemma PartsAgree(original: Schemas, s: Schemas, full: Schemas, x: string, p: Json, y: string, q: Json)
    requires Reversible(original, s, full) && AllTraced(original, full) && Agrees(original)
    requires x in s && y in s && Part(s[x], p) && Part(s[y], q) && p.Obj? && q.Obj?
    requires WellFormed(p) && WellFormed(q) && Closed(p, s.Keys) && Closed(q, s.Keys)
    requires CanonicalForDedup(p) == CanonicalForDedup(q)
    ensures Shape(Subst(p, full), SENSE) == Shape(Subst(q, full), SENSE)
  {
    hide *;
    CanonicalForDedupInjective(p, q);
    Stripped();
    SubstShape(p, q, s.Keys, full, STRIPPED);
    PartIsTraced(original, s, full, x, p);
    PartIsTraced(original, s, full, y, q);
    ReversibleNames(original, s, full);
    FormsAgree(original, Subst(p, full), Subst(q, full));
  }

  lemma Stripped()
    ensures STRIPPED.drop == ANNOTATION_KEYS && SENSE.drop == ANNOTATION_KEYS && "$ref" !in STRIPPED.drop
  {}

  // Values that say what parts of the original say, and have one form, say the same.
  lemma FormsAgree(original: Schemas, v: Json, w: Json)
    requires RefClosed(original) && Agrees(original) && Traced(original, Shape(v, SENSE))
    requires Traced(original, Shape(w, SENSE))
    requires Shape(v, STRIPPED) == Shape(w, STRIPPED)
    ensures Shape(v, SENSE) == Shape(w, SENSE)
  {
    hide *;
    Stripped();
    var a, p := TracedAt(original, Shape(v, SENSE));
    var b, q := TracedAt(original, Shape(w, SENSE));
    SenseGivesForm(p, v, SENSE);
    SenseGivesForm(q, w, SENSE);
    OriginalPart(original, a, p);
    OriginalPart(original, b, q);
    CanonicalForDedupInjective(p, q);
    AgreeOn(original, a, p, b, q);
  }

  lemma TracedAt(original: Schemas, t: Tree) returns (y: string, q: Json)
    requires Traced(original, t)
    ensures y in original && Part(original[y], q) && q.Obj? && Shape(q, SENSE) == t
  {
    hide Part, Shape, SENSE;
    y, q :| y in original && Part(original[y], q) && q.Obj? && Shape(q, SENSE) == t;
  }

  lemma AgreeOn(s: Schemas, x: string, p: Json, y: string, q: Json)
    requires Agrees(s) && x in s && y in s && Part(s[x], p) && Part(s[y], q) && p.Obj? && q.Obj?
    requires CanonicalForDedup(p) == CanonicalForDedup(q)
    ensures Shape(p, SENSE) == Shape(q, SENSE)
  {
    hide Part, Shape, SENSE, CanonicalForDedup;
  }

  lemma OriginalPart(original: Schemas, a: string, p: Json)
    requires RefClosed(original) && a in original && Part(original[a], p)
    ensures WellFormed(p)
  {
    hide Part, IsRef, HasRefString;
    assert Body(original[a], original.Keys);
    PartOfBody(original[a], p, original.Keys);
  }

  // So every hoist of a part merges only what says the same.
  lemma AgreeMerges(original: Schemas, s: Schemas, full: Schemas, y: string, sample: Json, x: string)
    requires Reversible(original, s, full) && AllTraced(original, full) && Agrees(original)
    requires x in s && y in s && Part(s[y], sample) && sample.Obj?
    ensures MergeAgrees(s[x], CanonicalForDedup(sample), true, full, Shape(Subst(sample, full), SENSE))
  {
    hide Part, Subst, Shape, SENSE, Placed, Reversible, IsRef, HasRefString, CanonicalForDedup, MergeAgrees, Agrees,
      AllTraced;
    ReversibleEntry(original, s, full, x);
    ReversibleEntry(original, s, full, y);
    PartOfBody(s[y], sample, s.Keys);
    var c, t := CanonicalForDedup(sample), Shape(Subst(sample, full), SENSE);
    forall p | Part(s[x], p) && p.Obj? && CanonicalForDedup(p) == c ensures Shape(Subst(p, full), SENSE) == t {
      PartOfBody(s[x], p, s.Keys);
      PartsAgree(original, s, full, x, p, y, sample);
    }
    PartsMerge(s[x], c, true, full, t);
  }

  lemma {:induction false} PartsMerge(v: Json, c: string, isRoot: bool, full: Schemas, target: Tree)
    requires forall p :: Part(v, p) && p.Obj? && CanonicalForDedup(p) == c ==> Shape(Subst(p, full), SENSE) == target
    requires !isRoot && v.Obj? && CanonicalForDedup(v) == c ==> Shape(Subst(v, full), SENSE) == target
    ensures MergeAgrees(v, c, isRoot, full, target)
    decreases v
  {
    hide Part, Subst, Shape, SENSE, CanonicalForDedup, PositionOf;
    forall p | Child(v, p) ensures p < v && MergeAgrees(p, c, false, full, target) {
      ChildIsSmaller(v, p);
      ChildIsPart(v, p);
      forall q | Part(p, q) ensures Part(v, q) { PartOfPart(v, p, q); }
      PartsMerge(p, c, false, full, target);
    }
    match v
    case Arr(xs) =>
      forall i | 0 <= i < |xs| ensures MergeAgrees(xs[i], c, false, full, target) { assert Child(v, xs[i]); }
    case Obj(_, m) =>
      if "$ref" !in m && (isRoot || CanonicalForDedup(v) != c) {
        forall k | k in m ensures MergeAgreesAt(PositionOf(k), m[k], c, full, target) {
          forall p | ChildAt(PositionOf(k), m[k], p)
            ensures MergeAgrees(p, c, false, full, target)
          {
            assert Child(v, p);
          }
          ChildrenMerge(PositionOf(k), m[k], c, full, target);
        }
      }
    case _ =>
  }

  lemma ChildrenMerge(p: Position, v: Json, c: string, full: Schemas, target: Tree)
    requires forall q :: ChildAt(p, v, q) ==> MergeAgrees(q, c, false, full, target)
    ensures MergeAgreesAt(p, v, c, full, target)
  {
    hide MergeAgrees;
    match p
    case Properties =>
      if v.Obj? {
        forall k | k in v.at ensures MergeAgrees(v.at[k], c, false, full, target) { assert ChildAt(p, v, v.at[k]); }
      }
    case Schema => assert ChildAt(p, v, v);
    case SchemaList => if v.Arr? { assert ChildAt(p, v, v); }
    case Opaque =>
  }

  // And no form nests in itself.
  lemma AgreeNoNest(original: Schemas, s: Schemas, full: Schemas, x: string)
    requires Reversible(original, s, full) && AllTraced(original, full) && Agrees(original) && x in s
    ensures NoNest(s[x])
  {
    hide Part, Subst, Shape, SENSE, Placed, Reversible, IsRef, HasRefString, CanonicalForDedup, Agrees, AllTraced,
      Closed, WellFormed;
    ReversibleEntry(original, s, full, x);
    ReversibleNames(original, s, full);
    forall p, q | Part(s[x], p) && p.Obj? && Part(p, q) && q.Obj? ensures CanonicalForDedup(q) != CanonicalForDedup(p) {
      PartOfPart(s[x], p, q);
      PartOfBody(s[x], p, s.Keys);
      PartOfBody(s[x], q, s.Keys);
      PartSmaller(p, q, s.Keys, full);
      if CanonicalForDedup(q) == CanonicalForDedup(p) { PartsAgree(original, s, full, x, p, x, q); }
    }
  }

  // ---------- a simple condition ----------

  /** Outside annotation keywords of schemas, no key is named like one: no property, and nothing in data. */
  ghost predicate Plain(v: Json, view: View)
    decreases v
  {
    match v
    case Arr(xs) => forall i :: 0 <= i < |xs| ==> Plain(xs[i], Each(Lens(view, ANNOTATION_KEYS)).view)
    case Obj(_, m) =>
      (view.OfSchema? || m.Keys !! ANNOTATION_KEYS) &&
        forall k :: k in m && k !in ANNOTATION_KEYS ==> Plain(m[k], ViewBelow(view, k))
    case _ => true
  }

  // Plain values of one form say the same.
  lemma {:induction false} PlainForms(v: Json, w: Json, view: View)
    requires Plain(v, view) && Plain(w, view) && Shape(v, STRIPPED) == Shape(w, STRIPPED)
    ensures Shape(v, Lens(view, ANNOTATION_KEYS)) == Shape(w, Lens(view, ANNOTATION_KEYS))
    decreases v
  {
    hide Shape, KeywordView, ANNOTATION_KEYS, Below, Each, STRIPPED;
    var l := Lens(view, ANNOTATION_KEYS);
    ShapeInverts(v, w, STRIPPED);
    FlatLens();
    PlainLens(l);
    match v
    case Arr(xs) =>
      forall i | 0 <= i < |xs| { PlainForms(xs[i], w.items[i], Each(l).view); }
      ShapeBuilds(v, w, l);
    case Obj(_, m) =>
      PlainKeys(m.Keys, view);
      PlainKeys(w.at.Keys, view);
      forall k | k in Kept(m.Keys, l) && k in m && k in w.at
        ensures Shape(m[k], Below(l, k)) == Shape(w.at[k], Below(l, k))
      {
        PlainForms(m[k], w.at[k], ViewBelow(view, k));
      }
      ShapeBuilds(v, w, l);
    case _ =>
  }

  lemma PlainLens(l: Lens)
    requires l.drop == ANNOTATION_KEYS
    ensures Each(l) == Lens(Each(l).view, ANNOTATION_KEYS)
    ensures forall k :: Below(l, k) == Lens(ViewBelow(l.view, k), ANNOTATION_KEYS)
  {}

  lemma PlainKeys(keys: set<string>, view: View)
    requires view.OfSchema? || keys !! ANNOTATION_KEYS
    ensures Kept(keys, Lens(view, ANNOTATION_KEYS)) == Kept(keys, STRIPPED)
    ensures forall k :: k in Kept(keys, STRIPPED) <==> k in keys && k !in ANNOTATION_KEYS
  {
    hide ANNOTATION_KEYS;
  }

  lemma PlainChild(v: Json, p: Json)
    requires Plain(v, OfSchema) && Child(v, p)
    ensures Plain(p, OfSchema)
  {
    hide PositionOf, KeywordView, ANNOTATION_KEYS;
    if v.Obj? {
      var k :| k in v.at && ChildAt(PositionOf(k), v.at[k], p);
      PositionViews(k);
      if k in ANNOTATION_KEYS { AnnotationsAreOpaque(k); }
      assert Plain(v.at[k], KeywordView(k));
      if PositionOf(k).Properties? {
        var j :| j in v.at[k].at && v.at[k].at[j] == p;
        assert j !in ANNOTATION_KEYS;
      }
    }
  }

  lemma {:induction false} PlainPart(v: Json, p: Json)
    requires Plain(v, OfSchema) && Part(v, p)
    ensures Plain(p, OfSchema)
    decreases v
  {
    hide Child, Plain;
    var c :| Child(v, c) && c < v && (c == p || Part(c, p));
    PlainChild(v, c);
    if c != p { PlainPart(c, p); }
  }

  // In a closed document without such names, parts of one form always agree.
  lemma PlainAgrees(s: Schemas)
    requires RefClosed(s) && forall x :: x in s ==> Plain(s[x], OfSchema)
    ensures Agrees(s)
  {
    hide Part, Plain, Shape, IsRef, HasRefString, CanonicalForDedup;
    forall x, y, p, q | x in s && y in s && Part(s[x], p) && Part(s[y], q) && p.Obj? && q.Obj? &&
      CanonicalForDedup(p) == CanonicalForDedup(q)
      ensures Shape(p, SENSE) == Shape(q, SENSE)
    {
      assert Body(s[x], s.Keys) && Body(s[y], s.Keys);
      PartOfBody(s[x], p, s.Keys);
      PartOfBody(s[y], q, s.Keys);
      PlainPart(s[x], p);
      PlainPart(s[y], q);
      CanonicalForDedupInjective(p, q);
      PlainForms(p, q, OfSchema);
    }
  }
}
