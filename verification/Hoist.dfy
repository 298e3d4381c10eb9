/** Hoisting: every inline copy of a repeated subschema becomes a reference to one new schema. */
module Hoist {
  import opened Strings
  import opened Json
  import opened Documents

  // ---------- schema positions ----------

  datatype Position = Properties | Schema | SchemaList | Opaque

  /** What the passes walk below a keyword: a map of schemas, a schema, a list of schemas, or nothing. */
  function PositionOf(key: string): Position {
    if key == "properties" then Properties
    else if key == "items" || key == "additionalProperties" || key == "propertyNames" || key == "not" then Schema
    else if key == "oneOf" || key == "anyOf" || key == "allOf" then SchemaList
    else Opaque
  }

  /** rewriteSubschemas, for a hoist map with the one entry canonical -> name. */
  function RewriteSub(v: Json, canonical: string, name: string, isRoot: bool): Json
    decreases v, 0
  {
    match v
    case Arr(xs) => Arr(seq(|xs|, i requires 0 <= i < |xs| => RewriteSub(xs[i], canonical, name, false)))
    case Obj(ks, m) =>
      if "$ref" in m then v
      else if !isRoot && CanonicalForDedup(v) == canonical then MkRef(name)
      else Obj(ks, map k | k in m :: RewriteAt(PositionOf(k), m[k], canonical, name))
    case _ => v
  }

  function RewriteAt(p: Position, v: Json, canonical: string, name: string): Json
    decreases v, 1
  {
    match p
    case Properties =>
      if v.Obj? then Obj(v.keys, map k | k in v.at :: RewriteSub(v.at[k], canonical, name, false)) else v
    case Schema => RewriteSub(v, canonical, name, false)
    case SchemaList => if v.Arr? then RewriteSub(v, canonical, name, false) else v
    case Opaque => v
  }

  /** The document after one hoist: rewritten bodies, and the sample as the body of the new name. */
  function HoistOnce(s: Schemas, canonical: string, name: string, sample: Json): Schemas {
    map x | x in s.Keys + {name} :: if x == name then sample else RewriteSub(s[x], canonical, name, true)
  }

  // ---------- one level at a time ----------

  lemma RewriteSubCases(v: Json, c: string, n: string, isRoot: bool)
    ensures v.Arr? ==> RewriteSub(v, c, n, isRoot).Arr? && |RewriteSub(v, c, n, isRoot).items| == |v.items|
    ensures v.Arr? ==> forall i :: 0 <= i < |v.items| ==>
      RewriteSub(v, c, n, isRoot).items[i] == RewriteSub(v.items[i], c, n, false)
    ensures v.Obj? && "$ref" in v.at ==> RewriteSub(v, c, n, isRoot) == v
    ensures v.Obj? && "$ref" !in v.at && !isRoot && CanonicalForDedup(v) == c ==>
      RewriteSub(v, c, n, isRoot) == MkRef(n)
    ensures v.Obj? && "$ref" !in v.at && (isRoot || CanonicalForDedup(v) != c) ==>
      var w := RewriteSub(v, c, n, isRoot);
      w.Obj? && w.keys == v.keys && w.at.Keys == v.at.Keys && !HasRefString(w) &&
      forall k :: k in v.at ==> w.at[k] == RewriteAt(PositionOf(k), v.at[k], c, n)
    ensures !v.Arr? && !v.Obj? ==> RewriteSub(v, c, n, isRoot) == v
    ensures RewriteSub(v, c, n, isRoot).Str? <==> v.Str?
  {
    hide PositionOf, CanonicalForDedup;
  }

  lemma RewriteAtCases(p: Position, v: Json, c: string, n: string)
    ensures p.Properties? && v.Obj? ==>
      var w := RewriteAt(p, v, c, n);
      w.Obj? && w.keys == v.keys && w.at.Keys == v.at.Keys && HasRefString(w) == HasRefString(v) &&
      (HasRefString(v) ==> w.at["$ref"] == v.at["$ref"]) &&
      forall k :: k in v.at ==> w.at[k] == RewriteSub(v.at[k], c, n, false)
    ensures !(p.Properties? && v.Obj?) ==>
      RewriteAt(p, v, c, n) == v || RewriteAt(p, v, c, n) == RewriteSub(v, c, n, false)
    ensures p.Opaque? || (p.Properties? && !v.Obj?) || (p.SchemaList? && !v.Arr?) ==> RewriteAt(p, v, c, n) == v
    ensures p.Schema? || (p.SchemaList? && v.Arr?) ==> RewriteAt(p, v, c, n) == RewriteSub(v, c, n, false)
  {
    hide CanonicalForDedup;
    if p.Properties? && v.Obj? {
      forall k | k in v.at ensures RewriteSub(v.at[k], c, n, false).Str? <==> v.at[k].Str? {
        RewriteSubCases(v.at[k], c, n, false);
      }
    }
  }

  lemma BareKept(v: Json, c: string, n: string)
    requires v.Obj? && HasRefString(v) && BareIfRef(v)
    ensures RewriteAt(Properties, v, c, n) == v
  {
    hide CanonicalForDedup;
    RewriteAtCases(Properties, v, c, n);
    assert RewriteAt(Properties, v, c, n).at == v.at;
  }

  lemma NoRefKey(v: Json)
    requires v.Obj?
    ensures "$ref" !in v.at ==> !HasRefString(v)
  {}

  lemma MkRefClosed(n: string, names: set<string>)
    requires n in names
    ensures WellFormed(MkRef(n)) && Closed(MkRef(n), names) && BareIfRef(MkRef(n))
  {}

  lemma PropertiesPosition()
    ensures PositionOf("properties") == Properties
    ensures forall k :: PositionOf(k) == Properties ==> k == "properties"
  {}

  // ---------- references still resolve ----------

  lemma {:induction false} ClosedUnder(v: Json, names: set<string>, names': set<string>)
    requires Closed(v, names) && names <= names'
    ensures Closed(v, names')
  {
    hide IsRef, HasRefString, Target, BareProperties;
    match v
    case Arr(xs) => forall i | 0 <= i < |xs| ensures Closed(xs[i], names') { ClosedUnder(xs[i], names, names'); }
    case Obj(_, m) =>
      if !HasRefString(v) {
        forall k | k in m ensures Closed(m[k], names') { ClosedUnder(m[k], names, names'); }
      }
    case _ =>
  }

  // What stands in place of properties stays bare, if it is a reference.
  lemma RewriteBare(v: Json, c: string, n: string)
    requires BareIfRef(v)
    ensures BareIfRef(RewriteSub(v, c, n, false))
  {
    hide CanonicalForDedup, RewriteSub, RewriteAt;
    RewriteSubCases(v, c, n, false);
    if v.Obj? { NoRefKey(v); }
    MkRefClosed(n, {n});
  }

  lemma RewriteBareProperties(v: Json, c: string, n: string, w: Json)
    requires v.Obj? && w.Obj? && BareProperties(v) && w.at.Keys == v.at.Keys
    requires "properties" in v.at ==>
      w.at["properties"] == RewriteAt(Properties, v.at["properties"], c, n) ||
        w.at["properties"] == RewriteSub(v.at["properties"], c, n, false)
    ensures BareProperties(w)
  {
    hide CanonicalForDedup, RewriteSub, RewriteAt, HasRefString;
    if "properties" in v.at {
      RewriteAtCases(Properties, v.at["properties"], c, n);
      RewriteBare(v.at["properties"], c, n);
    }
  }

  lemma {:induction false} RewriteSubClosed(v: Json, c: string, n: string, isRoot: bool, names: set<string>)
    requires WellFormed(v) && Closed(v, names)
    ensures WellFormed(RewriteSub(v, c, n, isRoot)) && Closed(RewriteSub(v, c, n, isRoot), names + {n})
    decreases v, 0
  {
    hide CanonicalForDedup, IsRef, HasRefString, Target, RewriteSub, RewriteAt, PositionOf, Elems, NoDup, NumChar,
      MkRef, BareProperties, BareIfRef;
    RewriteSubCases(v, c, n, isRoot);
    var w := RewriteSub(v, c, n, isRoot);
    ClosedUnder(v, names, names + {n});
    MkRefClosed(n, names + {n});
    match v
    case Arr(xs) =>
      forall i | 0 <= i < |xs| ensures WellFormed(w.items[i]) && Closed(w.items[i], names + {n}) {
        RewriteSubClosed(xs[i], c, n, false, names);
      }
    case Obj(ks, m) =>
      if w != v && w != MkRef(n) {
        NoRefKey(v);
        ClosedNode(v, names);
        PropertiesPosition();
        forall k | k in m ensures WellFormed(w.at[k]) && Closed(w.at[k], names + {n}) {
          if PositionOf(k).Properties? { PropertiesBare(v); }
          RewriteAtClosed(PositionOf(k), m[k], c, n, names);
        }
        RewriteBareProperties(v, c, n, w);
      }
    case _ =>
  }

  lemma PropertiesBare(v: Json)
    requires v.Obj? && BareProperties(v)
    ensures "properties" in v.at ==> BareIfRef(v.at["properties"])
  {}

  lemma {:induction false} RewriteAtClosed(p: Position, v: Json, c: string, n: string, names: set<string>)
    requires WellFormed(v) && Closed(v, names) && (p.Properties? ==> BareIfRef(v))
    ensures WellFormed(RewriteAt(p, v, c, n)) && Closed(RewriteAt(p, v, c, n), names + {n})
    decreases v, 1
  {
    hide CanonicalForDedup, IsRef, HasRefString, Target, RewriteSub, RewriteAt, Elems, NoDup, NumChar, BareProperties,
      BareIfRef;
    RewriteAtCases(p, v, c, n);
    var w := RewriteAt(p, v, c, n);
    ClosedUnder(v, names, names + {n});
    if p.Properties? && v.Obj? {
      if HasRefString(v) {
        BareKept(v, c, n);
      } else {
        ClosedNode(v, names);
        forall k | k in v.at ensures WellFormed(w.at[k]) && Closed(w.at[k], names + {n}) {
          RewriteSubClosed(v.at[k], c, n, false, names);
        }
        RewriteBareProperties(v, c, n, w);
      }
    } else {
      RewriteSubClosed(v, c, n, false, names);
    }
  }

  lemma RewrittenBody(b: Json, c: string, n: string, names: set<string>)
    requires Body(b, names)
    ensures Body(RewriteSub(b, c, n, true), names + {n})
  {
    hide CanonicalForDedup, RewriteSub, RewriteAt, IsRef, HasRefString, MkRef;
    RewriteSubClosed(b, c, n, true, names);
    RewriteSubCases(b, c, n, true);
    NotRefRoot(b, c, n);
  }

  lemma NotRefRoot(b: Json, c: string, n: string)
    requires b.Obj? && !IsRef(b)
    ensures RewriteSub(b, c, n, true).Obj? && !IsRef(RewriteSub(b, c, n, true))
  {
    hide CanonicalForDedup, RewriteAt, RewriteSub;
    RewriteSubCases(b, c, n, true);
  }

  // One hoist keeps a document's references closed.
  lemma HoistCloses(s: Schemas, c: string, n: string, sample: Json)
    requires RefClosed(s) && n !in s && Body(sample, s.Keys)
    ensures RefClosed(HoistOnce(s, c, n, sample)) && HoistOnce(s, c, n, sample).Keys == s.Keys + {n}
  {
    hide RewriteSub, IsRef, HasRefString, WellFormed;
    var t := HoistOnce(s, c, n, sample);
    forall x | x in t ensures Body(t[x], s.Keys + {n}) {
      if x == n { ClosedUnder(sample, s.Keys, s.Keys + {n}); } else { RewrittenBody(s[x], c, n, s.Keys); }
    }
    assert t.Keys == s.Keys + {n};
  }

  // ---------- where added names may be mentioned ----------

  ghost predicate NoneOf(v: Json, added: set<string>) {
    forall a :: a in added ==> !Mentions(v, a)
  }

  /** References to added names are bare, and stand only where schemas do. */
  ghost predicate Placed(v: Json, view: View, added: set<string>)
    decreases v
  {
    if view.OfSchema? || (view.OfSchemas? && v.Obj?) then
      match v
      case Arr(xs) => forall i :: 0 <= i < |xs| ==> Placed(xs[i], view, added)
      case Obj(_, m) =>
        if HasRefString(v) then IsRef(v) && Target(v) in added ==> view.OfSchema? && Bare(v)
        else forall k :: k in m ==> Placed(m[k], ViewBelow(view, k), added)
      case _ => true
    else NoneOf(v, added)
  }

  lemma PlacedNode(v: Json, view: View, added: set<string>)
    requires Placed(v, view, added) && !HasRefString(v) && !view.Flat?
    ensures v.Arr? ==> forall i :: 0 <= i < |v.items| ==>
      Placed(v.items[i], Each(Lens(view, ANNOTATION_KEYS)).view, added)
    ensures v.Obj? ==> forall k :: k in v.at ==> Placed(v.at[k], ViewBelow(view, k), added)
  {
    hide KeywordView, ANNOTATION_KEYS;
    NotRef(v);
    if !(view.OfSchema? || (view.OfSchemas? && v.Obj?)) {
      if v.Arr? {
        forall i, a | 0 <= i < |v.items| && a in added ensures !Mentions(v.items[i], a) { assert !Mentions(v, a); }
      } else if v.Obj? {
        forall k, a | k in v.at && a in added ensures !Mentions(v.at[k], a) { assert !Mentions(v, a); }
      }
    }
  }

  lemma PlacedRef(v: Json, view: View, added: set<string>)
    requires Placed(v, view, added) && IsRef(v) && Target(v) in added && !view.Flat?
    ensures view.OfSchema? && Bare(v)
  {
    assert Mentions(v, Target(v));
  }

  lemma {:induction false} NothingPlaced(v: Json, view: View, names: set<string>, added: set<string>)
    requires Closed(v, names) && names !! added
    ensures Placed(v, view, added)
    decreases v
  {
    hide IsRef, HasRefString, Target, KeywordView, BareProperties;
    MentionsClosed(v, names);
    if view.OfSchema? || (view.OfSchemas? && v.Obj?) {
      match v
      case Arr(xs) => forall i | 0 <= i < |xs| { NothingPlaced(xs[i], view, names, added); }
      case Obj(_, m) =>
        if !HasRefString(v) { forall k | k in m { NothingPlaced(m[k], ViewBelow(view, k), names, added); } }
      case _ =>
    }
  }

  // A name that does not occur may be counted among the added ones, and any may be left out.
  lemma {:induction false} PlacedMore(v: Json, view: View, names: set<string>, n: string, added: set<string>)
    requires Closed(v, names) && n !in names && Placed(v, view, added)
    ensures Placed(v, view, added + {n})
    decreases v
  {
    hide IsRef, HasRefString, Target, KeywordView, BareProperties, Mentions;
    MentionsClosed(v, names);
    if view.OfSchema? || (view.OfSchemas? && v.Obj?) {
      match v
      case Arr(xs) => forall i | 0 <= i < |xs| { PlacedMore(xs[i], view, names, n, added); }
      case Obj(_, m) =>
        if !HasRefString(v) { forall k | k in m { PlacedMore(m[k], ViewBelow(view, k), names, n, added); } }
      case _ =>
    }
  }

  lemma {:induction false} PlacedLess(v: Json, view: View, added: set<string>, fewer: set<string>)
    requires Placed(v, view, added) && fewer <= added
    ensures Placed(v, view, fewer)
    decreases v
  {
    hide KeywordView, Mentions, IsRef, Target;
    if view.OfSchema? || (view.OfSchemas? && v.Obj?) {
      match v
      case Arr(xs) => forall i | 0 <= i < |xs| { PlacedLess(xs[i], view, added, fewer); }
      case Obj(_, m) =>
        if !HasRefString(v) { forall k | k in m { PlacedLess(m[k], ViewBelow(view, k), added, fewer); } }
      case _ =>
    }
  }

  lemma MkRefPlaced(n: string, added: set<string>)
    ensures Placed(MkRef(n), OfSchema, added)
  {}

  /** A position that the pass walks is seen as what it holds. */
  predicate PositionFits(p: Position, view: View) {
    match p
    case Properties => view.OfSchemas?
    case Schema => view.OfSchema?
    case SchemaList => view.OfSchema?
    case Opaque => true
  }

  lemma PositionViews(key: string)
    ensures PositionFits(PositionOf(key), KeywordView(key))
  {}

  lemma AnnotationsAreOpaque(k: string)
    requires k in ANNOTATION_KEYS
    ensures PositionOf(k) == Opaque && k != "$ref" && KeywordView(k) == OfData
  {}

  lemma NotAnAnnotation()
    ensures "$ref" !in ANNOTATION_KEYS
  {}

  // Rewriting puts references to the new name where schemas stand.
  lemma {:induction false} RewriteSubPlaced(v: Json, c: string, n: string, isRoot: bool, names: set<string>,
                                            added: set<string>)
    requires Closed(v, names) && n !in names && Placed(v, OfSchema, added)
    ensures Placed(RewriteSub(v, c, n, isRoot), OfSchema, added + {n})
    decreases v, 0
  {
    hide CanonicalForDedup, RewriteSub, RewriteAt, PositionOf, KeywordView, MkRef, IsRef, HasRefString, Target,
      Mentions, BareProperties;
    RewriteSubCases(v, c, n, isRoot);
    MkRefPlaced(n, added + {n});
    PlacedMore(v, OfSchema, names, n, added);
    var w := RewriteSub(v, c, n, isRoot);
    match v
    case Arr(xs) =>
      forall i | 0 <= i < |xs|
        ensures Placed(w.items[i], OfSchema, added + {n})
      {
        RewriteSubPlaced(xs[i], c, n, false, names, added);
      }
    case Obj(_, m) =>
      if w != v && w != MkRef(n) {
        NoRefKey(v);
        forall k | k in m ensures Placed(w.at[k], KeywordView(k), added + {n}) {
          PositionViews(k);
          RewriteAtPlaced(PositionOf(k), m[k], c, n, KeywordView(k), names, added);
        }
      }
    case _ =>
  }

  lemma SameRefPlaced(v: Json, w: Json, added: set<string>)
    requires HasRefString(v) && HasRefString(w) && v.at["$ref"] == w.at["$ref"] && Placed(v, OfSchemas, added)
    ensures Placed(w, OfSchemas, added)
  {}

  lemma {:induction false} RewriteAtPlaced(p: Position, v: Json, c: string, n: string, view: View, names: set<string>,
                                           added: set<string>)
    requires Closed(v, names) && n !in names && Placed(v, view, added) && PositionFits(p, view)
    ensures Placed(RewriteAt(p, v, c, n), view, added + {n})
    decreases v, 1
  {
    hide CanonicalForDedup, RewriteSub, RewriteAt, KeywordView, IsRef, HasRefString, Target, Mentions, BareProperties;
    RewriteAtCases(p, v, c, n);
    PlacedMore(v, view, names, n, added);
    var w := RewriteAt(p, v, c, n);
    if p.Properties? && v.Obj? {
      if HasRefString(v) {
        SameRefPlaced(v, w, added + {n});
      } else {
        forall k | k in v.at ensures Placed(w.at[k], OfSchema, added + {n}) {
          RewriteSubPlaced(v.at[k], c, n, false, names, added);
        }
      }
    } else if w != v {
      RewriteSubPlaced(v, c, n, false, names, added);
    }
  }
}
