/** The last two passes in a row: hoisting, then compression. */
module Pipeline {
  import opened Strings
  import opened Json
  import opened Documents
  import opened Hoist
  import opened Reversal
  import opened Occurrences
  import opened HoistAgree
  import HoistLoop
  import opened HoistShared
  import Compress

  // ---------- regular schemas ----------

  /** No array stands where a schema does, and properties are always an object. */
  ghost predicate Regular(t: Tree)
    decreases t, 0
  {
    match t
    case List(_) => false
    case Map(at) => ShowsRef(at) || forall k :: k in at ==> RegularAt(PositionOf(k), at[k])
    case _ => true
  }

  ghost predicate RegularAt(p: Position, t: Tree)
    decreases t, 1
  {
    match p
    case Properties => t.Map? && forall k :: k in t.at ==> Regular(t.at[k])
    case Schema => Regular(t)
    case SchemaList => t.List? ==> forall i :: 0 <= i < |t.items| ==> Regular(t.items[i])
    case Opaque => true
  }

  predicate ShowsRef(at: map<string, Tree>) {
    "$ref" in at && at["$ref"].Leaf? && at["$ref"].value.Str?
  }

  ghost predicate RegularDocument(d: Document) {
    forall x :: x in d.schemas ==> Regular(Shape(d.schemas[x], SENSE))
  }

  // Regular, or a list of regular schemas.
  ghost predicate RegularPart(t: Tree) {
    Regular(t) || (t.List? && forall i :: 0 <= i < |t.items| ==> Regular(t.items[i]))
  }

  lemma ShapeAt(v: Json, k: string)
    requires v.Obj? && k in v.at && PositionOf(k) != Opaque
    ensures Shape(v, SENSE).Map? && k in Shape(v, SENSE).at && Shape(v, SENSE).at[k] == Shape(v.at[k], Below(SENSE, k))
    ensures PositionOf(k) == Properties ==> Below(SENSE, k) == Lens(OfSchemas, ANNOTATION_KEYS)
    ensures PositionOf(k) == Schema || PositionOf(k) == SchemaList ==> Below(SENSE, k) == SENSE
  {
    hide Below, Drops, PositionOf;
    PositionLens(k);
  }

  lemma MapShape(v: Json)
    requires v.Obj?
    ensures var t := Shape(v, Lens(OfSchemas, ANNOTATION_KEYS));
      t.Map? && t.at.Keys == v.at.Keys && forall k :: k in v.at ==> t.at[k] == Shape(v.at[k], SENSE)
  {
    hide ANNOTATION_KEYS;
  }

  lemma ListShape(v: Json)
    requires v.Arr?
    ensures var t := Shape(v, SENSE);
      t.List? && |t.items| == |v.items| && forall i :: 0 <= i < |v.items| ==> t.items[i] == Shape(v.items[i], SENSE)
  {
    SenseLens();
  }

  lemma NoRefShape(v: Json)
    requires v.Obj? && !HasRefString(v)
    ensures Shape(v, SENSE).Map? && !ShowsRef(Shape(v, SENSE).at)
  {
    hide Below;
    NotAnAnnotation();
    if "$ref" in v.at { assert Shape(v, SENSE).at["$ref"] == Shape(v.at["$ref"], Below(SENSE, "$ref")); }
  }

  lemma LeafShape(v: Json, l: Lens)
    requires !v.Obj?
    ensures !Shape(v, l).Map?
  {}

  lemma ChildRegular(v: Json, p: Json)
    requires RegularPart(Shape(v, SENSE)) && Child(v, p)
    ensures RegularPart(Shape(p, SENSE))
  {
    hide Shape, SENSE, PositionOf, ANNOTATION_KEYS;
    if v.Arr? {
      ListShape(v);
    } else {
      NoRefKey(v);
      NoRefShape(v);
      var k :| k in v.at && ChildAt(PositionOf(k), v.at[k], p);
      ShapeAt(v, k);
      assert RegularAt(PositionOf(k), Shape(v, SENSE).at[k]);
      if PositionOf(k).Properties? { MapShape(v.at[k]); }
      if PositionOf(k).SchemaList? { ListShape(v.at[k]); }
    }
  }

  lemma {:induction false} PartRegular(v: Json, q: Json)
    requires RegularPart(Shape(v, SENSE)) && Part(v, q)
    ensures RegularPart(Shape(q, SENSE))
    decreases v
  {
    hide Child, Shape, SENSE, RegularPart;
    var c :| Child(v, c) && c < v && (c == q || Part(c, q));
    ChildRegular(v, c);
    if c != q { PartRegular(c, q); }
  }

  // ---------- compression meets nothing irregular ----------

  lemma NestedPositions(key: string)
    ensures Compress.NestedAt(key).Properties? ==> PositionOf(key) == Properties
    ensures Compress.NestedAt(key).Schema? ==> PositionOf(key) == Schema
    ensures Compress.NestedAt(key).SchemaList? ==> PositionOf(key) == SchemaList
  {}

  // Where the compressor meets a value that it would turn into an object, the expansion is irregular.
  lemma {:induction false} TupledIrregular(v: Json, d: Document, top: string, isRoot: bool, names: set<string>,
                                           full: Schemas)
    requires Closed(v, names) && NoStrings(full) && Compress.Tupled(v, d, top, isRoot)
    ensures !Regular(Shape(Subst(v, full), SENSE))
    decreases v, 0
  {
    hide IsRef, HasRefString, Target, Subst, Shape, SENSE, PositionOf, BareProperties, Compress.Match,
      Compress.NestedAt, Compress.TupledAt, Regular, RegularAt;
    var e := Subst(v, full);
    if v.Arr? {
      ArrayIsNoRef(v);
      SubstNode(v, full);
      ListShape(e);
      ListsAreIrregular(Shape(e, SENSE));
    } else {
      Compress.SkippedRefs(v, names);
      var k :| k in v.at && Compress.TupledAt(Compress.NestedAt(k), v.at[k], d, top);
      TupledNode(v, d, top, k, names, full);
    }
  }

  lemma ListsAreIrregular(t: Tree)
    requires t.List?
    ensures !Regular(t)
  {}

  lemma {:induction false} TupledNode(v: Json, d: Document, top: string, k: string, names: set<string>, full: Schemas)
    requires v.Obj? && !HasRefString(v) && Closed(v, names) && NoStrings(full)
    requires k in v.at && Compress.TupledAt(Compress.NestedAt(k), v.at[k], d, top)
    ensures !Regular(Shape(Subst(v, full), SENSE))
    decreases v, 0, 0
  {
    hide IsRef, HasRefString, Target, Subst, Shape, SENSE, PositionOf, BareProperties, BareIfRef, Compress.NestedAt,
      Compress.Tupled, ANNOTATION_KEYS, Closed, NoStrings;
    var e := Subst(v, full);
    SubstMap(v, full);
    SubstKeepsKind(v, full) by { NotRef(v); }
    NoRefShape(e);
    NestedPositions(k);
    ClosedNode(v, names);
    ShapeAt(e, k);
    var w := v.at[k];
    match Compress.NestedAt(k)
    case Properties =>
      if w.Obj? {
        var j :| j in w.at && Compress.Tupled(w.at[j], d, top, false);
        Compress.TupledIsNoString(d, top);
        PropertiesPosition();
        PropertiesBare(v);
        PropertyIsNoRef(w, j);
        SubstMap(w, full);
        ClosedNode(w, names);
        TupledIrregular(w.at[j], d, top, false, names, full);
        MapShape(e.at[k]);
      } else {
        NoObjectExpands(w, full);
        LeafShape(e.at[k], Below(SENSE, k));
      }
    case Schema => TupledIrregular(w, d, top, false, names, full);
    case SchemaList =>
      var i :| 0 <= i < |w.items| && Compress.Tupled(w.items[i], d, top, false);
      ArrayIsNoRef(w);
      ClosedNode(w, names);
      TupledIrregular(w.items[i], d, top, false, names, full);
      SubstNode(w, full);
      ListShape(e.at[k]);
    case Untouched =>
  }

  lemma PropertyIsNoRef(w: Json, j: string)
    requires w.Obj? && BareIfRef(w) && j in w.at && !w.at[j].Str?
    ensures !HasRefString(w)
  {}

  lemma NoObjectExpands(w: Json, full: Schemas)
    requires !w.Obj?
    ensures !Subst(w, full).Obj?
  {}

  // Hoisting a regular document leaves nothing for the compressor to trip over.
  lemma HoistedHasNoTuples(d: Document, out: Document, full: Schemas)
    requires RegularDocument(d) && Reversible(d.schemas, out.schemas, full) && AllTraced(d.schemas, full)
    ensures Compress.NoTuples(out)
  {
    hide Shape, SENSE, Subst, Reversible, Regular, Compress.Tupled, Part;
    ReversibleNames(d.schemas, out.schemas, full);
    forall x | x in out.schemas ensures !Compress.Tupled(out.schemas[x], out, x, true) {
      ReversibleEntry(d.schemas, out.schemas, full, x);
      BodyIsClosed(out.schemas[x], out.schemas.Keys);
      if x in full {
        var y, q := TracedFrom(d.schemas, full, x);
        PartRegular(d.schemas[y], q);
        ObjectRegular(q);
      }
      assert Regular(Shape(Subst(out.schemas[x], full), SENSE));
      if Compress.Tupled(out.schemas[x], out, x, true) {
        TupledIrregular(out.schemas[x], out, x, true, out.schemas.Keys, full);
      }
    }
  }

  lemma BodyIsClosed(b: Json, names: set<string>)
    requires Body(b, names)
    ensures Closed(b, names)
  {}

  lemma ObjectRegular(q: Json)
    requires q.Obj? && RegularPart(Shape(q, SENSE))
    ensures Regular(Shape(q, SENSE))
  {
    hide Regular;
  }

  // ---------- both passes ----------

  lemma MeaningChains(s: Schemas, u: Json, t: Schemas, v: Json, r: Schemas, w: Json, l: Lens)
    requires SameMeaning(s, u, t, v, l) && SameMeaning(t, v, r, w, l)
    ensures SameMeaning(s, u, r, w, l)
  {
    hide Unfold;
  }

  // Compression after hoisting still keeps what hoisting kept.
  lemma CompressAfterHoist(d: Document, mid: Document)
    requires KeepsAll(d, mid) && ClosedDocument(mid) && Compress.NoTuples(mid)
    ensures KeepsAll(d, Document(mid.names, Compress.Compressed(mid), mid.rest))
  {
    hide SameMeaning, ClosedDocument, Compress.Deduplicate, Compress.NoTuples;
    Compress.CompressKeepsRest(mid, ANNOTATION_KEYS);
    var out := Document(mid.names, Compress.Compressed(mid), mid.rest);
    forall x | x in d.schemas ensures Keeps(d, out, map[], x, ANNOTATION_KEYS) {
      assert Keeps(d, mid, map[], x, ANNOTATION_KEYS);
      MeaningChains(d.schemas, d.schemas[x], mid.schemas, mid.schemas[x], out.schemas, out.schemas[x],
        SchemaLens(ANNOTATION_KEYS));
    }
    MeaningChains(d.schemas, d.rest, mid.schemas, mid.rest, out.schemas, out.rest, RestLens(ANNOTATION_KEYS));
  }

  /** hoistSharedSubschemas, then compressOpenApiDocument */
  method HoistAndCompress(d: Document, propertyBase: seq<string> -> string, before: (string, string) -> bool)
    returns (out: Document, ghost run: HoistLoop.Run)
    requires ClosedDocument(d) && HoistLoop.StrictOrder(before)
    ensures ClosedDocument(out) && d.names <= out.names && out.rest == d.rest
    ensures HoistLoop.IsRun(d, run) && (Agrees(d.schemas) ==> HoistLoop.AlwaysAlike(run))
    ensures HoistLoop.AlwaysAlike(run) && RegularDocument(d) ==> KeepsAll(d, out)
  {
    hide SameMeaning, RefClosed, Closed, WellFormed, Compress.Deduplicate, Compress.NoTuples, HoistLoop.StrictOrder,
      NoDup, Agrees, RegularDocument, Reversible, AllTraced, PassesTo,
      HoistLoop.IsRun, HoistLoop.AlwaysAlike, HoistLoop.TurnsTo;
    ghost var full;
    var mid;
    mid, full, run := HoistSharedSubschemas(d, propertyBase, before);
    out := Compress.CompressOpenApiDocument(mid);
    Compress.CompressCloses(mid);
    RunLengths(d, run);
    if HoistLoop.AlwaysAlike(run) && RegularDocument(d) {
      HoistedHasNoTuples(d, mid, full);
      CompressAfterHoist(d, mid);
    }
  }
}
