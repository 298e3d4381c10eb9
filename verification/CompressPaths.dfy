/** Which values compression replaces, told by the path that leads to them. */
module CompressPaths {
  import opened Strings
  import opened Json
  import opened Documents
  import opened Compress
  import opened SchemaPaths

  /** The keywords that deduplicateNestedSchemas follows, beside `properties`. */
  const WALKED := Keywords({"items", "additionalProperties"}, {"oneOf", "anyOf", "allOf"})

  ghost predicate IsReference(v: Json) {
    v.Obj? && "$ref" in v.at && Truthy(v.at["$ref"])
  }

  /** v is an object, no reference, and no copy of another schema that has a name. */
  ghost predicate IsOpen(v: Json, d: Document, top: string, isRoot: bool) {
    v.Obj? && !IsReference(v) && (isRoot || forall n :: n != "" ==> !IsFirstCopy(v, d, top, n))
  }

  /** Every value on the path but the last one is open. */
  ghost predicate IsOpenWay(v: Json, d: Document, top: string, isRoot: bool, path: seq<Turn>)
    decreases |path|
  {
    path != [] ==>
      IsOpen(v, d, top, isRoot) && Take(v, path[0], WALKED).Some? &&
      IsOpenWay(Take(v, path[0], WALKED).value, d, top, false, path[1..])
  }

  // A match is the first copy, if that has a name.
  lemma MatchIff(v: Json, d: Document, top: string, n: string)
    requires WellFormed(v) && ClosedDocument(d)
    ensures Match(v, d, top) == Some(n) <==> n != "" && IsFirstCopy(v, d, top, n)
  {
    hide FindMatchingSchema, IsRef, HasRefString, NoDup, WellFormed, Closed;
    forall x | x in d.schemas ensures WellFormed(d.schemas[x]) { assert Body(d.schemas[x], d.schemas.Keys); }
    FirstFound(v, d.names, d.schemas, top, n);
  }

  lemma OpenIff(v: Json, d: Document, top: string, isRoot: bool)
    requires ClosedDocument(d) && WellFormed(v)
    ensures IsOpen(v, d, top, isRoot) <==> v.Obj? && !Skipped(v) && (isRoot || Match(v, d, top).None?)
  {
    hide ClosedDocument, WellFormed, Match, IsFirstCopy;
    forall n ensures Match(v, d, top) == Some(n) <==> n != "" && IsFirstCopy(v, d, top, n) { MatchIff(v, d, top, n); }
    assert Match(v, d, top).Some? ==> Match(v, d, top) == Some(Match(v, d, top).value);
  }

  lemma WalkedKeys()
    ensures NestedAt("properties") == Properties
    ensures forall k :: k in WALKED.single ==> NestedAt(k) == Schema
    ensures forall k :: k in WALKED.lists ==> NestedAt(k) == SchemaList
    ensures forall k :: k != "properties" && k !in WALKED.single + WALKED.lists ==> NestedAt(k) == Untouched
  {}

  // One turn into an open value leads to what the pass makes of the value there.
  lemma TurnIsKept(v: Json, d: Document, top: string, isRoot: bool, t: Turn)
    requires ClosedDocument(d) && WellFormed(v) && IsOpen(v, d, top, isRoot) && Take(v, t, WALKED).Some?
    ensures Take(Deduplicate(v, d, top, isRoot), t, WALKED) ==
      Some(Deduplicate(Take(v, t, WALKED).value, d, top, false))
  {
    OpenIff(v, d, top, isRoot);
    WalkedKeys();
    DeduplicateCases(v, d, top, isRoot);
    hide Deduplicate, DeduplicateAt, NestedAt, Match, Skipped, WellFormed, ClosedDocument, IsOpen;
    match t
    case Property(_) => DeduplicateAtCases(Properties, v.at["properties"], d, top);
    case Under(key) => DeduplicateAtCases(Schema, v.at[key], d, top);
    case Entry(key, _) => DeduplicateAtCases(SchemaList, v.at[key], d, top);
  }

  lemma {:induction false} WayIsKept(v: Json, d: Document, top: string, isRoot: bool, path: seq<Turn>)
    requires ClosedDocument(d) && WellFormed(v) && IsOpenWay(v, d, top, isRoot, path)
    ensures Follow(v, path, WALKED).Some? && WellFormed(Follow(v, path, WALKED).value)
    ensures Follow(Deduplicate(v, d, top, isRoot), path, WALKED) ==
      Some(Deduplicate(Follow(v, path, WALKED).value, d, top, isRoot && path == []))
    decreases |path|
  {
    hide Deduplicate, ClosedDocument, WellFormed, Take, IsOpen;
    if path != [] {
      TurnIsKept(v, d, top, isRoot, path[0]);
      TakenIsWellFormed(v, path[0], WALKED);
      WayIsKept(Take(v, path[0], WALKED).value, d, top, false, path[1..]);
    }
  }

  // A copy of another schema, wherever properties, items, additionalProperties, oneOf, anyOf and allOf lead
  // without passing a reference or another copy, becomes a reference to the first schema that it copies.
  lemma CopyIsReplaced(d: Document, x: string, path: seq<Turn>, y: string)
    requires ClosedDocument(d) && x in d.schemas && path != [] && IsOpenWay(d.schemas[x], d, x, true, path)
    requires y in d.schemas && y != "" && Follow(d.schemas[x], path, WALKED).Some?
    requires var p := Follow(d.schemas[x], path, WALKED).value;
      p.Obj? && "$ref" !in p.at && IsFirstCopy(p, d, x, y)
    ensures Follow(Compressed(d)[x], path, WALKED) == Some(MkRef(y))
  {
    BodyIsWellFormed(d, x);
    WayIsKept(d.schemas[x], d, x, true, path);
    hide Deduplicate, WellFormed, ClosedDocument, Follow, IsOpenWay, IsFirstCopy, MkRef;
    CopiesAreReplaced(Follow(d.schemas[x], path, WALKED).value, d, x, y);
  }

  lemma BodyIsWellFormed(d: Document, x: string)
    requires ClosedDocument(d) && x in d.schemas
    ensures WellFormed(d.schemas[x])
  {
    hide WellFormed, Closed, IsRef;
    assert Body(d.schemas[x], d.schemas.Keys);
  }

  // An open object there stays an object with the same keys, and what it holds under other keywords stays as it is.
  lemma RestIsKept(d: Document, x: string, path: seq<Turn>, k: string)
    requires ClosedDocument(d) && x in d.schemas && IsOpenWay(d.schemas[x], d, x, true, path)
    requires Follow(d.schemas[x], path, WALKED).Some?
    requires IsOpen(Follow(d.schemas[x], path, WALKED).value, d, x, path == [])
    ensures Follow(Compressed(d)[x], path, WALKED).Some?
    ensures var p, q := Follow(d.schemas[x], path, WALKED).value, Follow(Compressed(d)[x], path, WALKED).value;
      q.Obj? && q.keys == p.keys && q.at.Keys == p.at.Keys &&
      (k in p.at && k != "properties" && k !in WALKED.single + WALKED.lists ==> q.at[k] == p.at[k])
  {
    BodyIsWellFormed(d, x);
    WayIsKept(d.schemas[x], d, x, true, path);
    var p := Follow(d.schemas[x], path, WALKED).value;
    OpenIff(p, d, x, path == []);
    WalkedKeys();
    hide Deduplicate, NestedAt, WellFormed, ClosedDocument, Follow, IsOpenWay, Match, Skipped, DeduplicateAt;
    DeduplicateCases(p, d, x, path == []);
    if k in p.at { DeduplicateAtCases(NestedAt(k), p.at[k], d, x); }
  }

  // ---------- the new references, by path ----------

  /** At the path stands the first copy of y, which the pass replaces. */
  ghost predicate IsReplacedAt(v: Json, d: Document, top: string, isRoot: bool, path: seq<Turn>, y: string) {
    && IsOpenWay(v, d, top, isRoot, path) && (path == [] ==> !isRoot) && Follow(v, path, WALKED).Some?
    && var p := Follow(v, path, WALKED).value;
    (p.Obj? || p.Arr?) && !IsReference(p) && y != "" && IsFirstCopy(p, d, top, y)
  }

  lemma AddsHere(v: Json, d: Document, top: string, y: string)
    requires ClosedDocument(d) && WellFormed(v)
    ensures Match(v, d, top).Some? ==>
      (Adds(v, d, top, false, y) <==> (v.Obj? || v.Arr?) && !IsReference(v) && y != "" && IsFirstCopy(v, d, top, y))
  {
    hide ClosedDocument, WellFormed, Match, IsFirstCopy, NestedAt;
    MatchIff(v, d, top, y);
  }

  // An open value adds what a turn into it adds, and nothing else.
  lemma TurnAdds(v: Json, d: Document, top: string, isRoot: bool, t: Turn, y: string)
    requires ClosedDocument(d) && WellFormed(v) && IsOpen(v, d, top, isRoot) && Take(v, t, WALKED).Some?
    requires Adds(Take(v, t, WALKED).value, d, top, false, y)
    ensures Adds(v, d, top, isRoot, y)
  {
    OpenIff(v, d, top, isRoot);
    WalkedKeys();
    hide NestedAt, Match, Skipped, WellFormed, ClosedDocument, IsOpen;
    match t
    case Property(_) => assert AddsAt(NestedAt("properties"), v.at["properties"], d, top, y);
    case Under(key) => assert AddsAt(NestedAt(key), v.at[key], d, top, y);
    case Entry(key, _) => assert AddsAt(NestedAt(key), v.at[key], d, top, y);
  }

  lemma AddsUnderKey(v: Json, d: Document, top: string, isRoot: bool, y: string) returns (k: string)
    requires v.Obj? && !Skipped(v) && (isRoot || Match(v, d, top).None?) && Adds(v, d, top, isRoot, y)
    requires !Tupled(v, d, top, isRoot)
    ensures k in v.at && AddsAt(NestedAt(k), v.at[k], d, top, y) && !TupledAt(NestedAt(k), v.at[k], d, top)
  {
    hide NestedAt, Match, Skipped, AddsAt, TupledAt;
    k :| k in v.at && AddsAt(NestedAt(k), v.at[k], d, top, y);
  }

  lemma AddsByTurn(v: Json, d: Document, top: string, isRoot: bool, y: string) returns (t: Turn)
    requires ClosedDocument(d) && WellFormed(v) && IsOpen(v, d, top, isRoot) && Adds(v, d, top, isRoot, y)
    requires !Tupled(v, d, top, isRoot)
    ensures Take(v, t, WALKED).Some? && Adds(Take(v, t, WALKED).value, d, top, false, y)
    ensures !Tupled(Take(v, t, WALKED).value, d, top, false) && Take(v, t, WALKED).value < v
  {
    OpenIff(v, d, top, isRoot);
    var k := AddsUnderKey(v, d, top, isRoot, y);
    t := TurnUnder(v, k, d, top, y);
  }

  lemma TurnUnder(v: Json, k: string, d: Document, top: string, y: string) returns (t: Turn)
    requires v.Obj? && k in v.at && AddsAt(NestedAt(k), v.at[k], d, top, y)
    requires !TupledAt(NestedAt(k), v.at[k], d, top)
    ensures Take(v, t, WALKED).Some? && Adds(Take(v, t, WALKED).value, d, top, false, y)
    ensures !Tupled(Take(v, t, WALKED).value, d, top, false) && Take(v, t, WALKED).value < v
  {
    hide NestedAt, Match, Skipped, Adds, Tupled;
    var w := v.at[k];
    assert w < v;
    if NestedAt(k).Properties? {
      PropertiesOnly(k);
      var name :| name in w.at && Adds(w.at[name], d, top, false, y);
      t := Property(name);
    } else if NestedAt(k).Schema? {
      SingleOnly(k);
      t := Under(k);
    } else {
      ListOnly(k);
      var i :| 0 <= i < |w.items| && Adds(w.items[i], d, top, false, y);
      t := Entry(k, i);
    }
  }

  lemma PropertiesOnly(k: string)
    requires NestedAt(k) == Properties
    ensures k == "properties"
  {}

  lemma SingleOnly(k: string)
    requires NestedAt(k) == Schema
    ensures k in WALKED.single
  {}

  lemma ListOnly(k: string)
    requires NestedAt(k) == SchemaList
    ensures k in WALKED.lists
  {}

  lemma {:induction false} PathAdds(v: Json, d: Document, top: string, isRoot: bool, path: seq<Turn>, y: string)
    requires ClosedDocument(d) && WellFormed(v) && IsReplacedAt(v, d, top, isRoot, path, y)
    ensures Adds(v, d, top, isRoot, y)
    decreases |path|
  {
    hide ClosedDocument, WellFormed, Take, IsOpen, IsFirstCopy, Adds, Match;
    if path == [] {
      MatchIff(v, d, top, y);
      AddsHere(v, d, top, y);
    } else {
      TakenIsWellFormed(v, path[0], WALKED);
      PathAdds(Take(v, path[0], WALKED).value, d, top, false, path[1..], y);
      TurnAdds(v, d, top, isRoot, path[0], y);
    }
  }

  lemma {:induction false} AddsHasPath(v: Json, d: Document, top: string, isRoot: bool, y: string)
    returns (path: seq<Turn>)
    requires ClosedDocument(d) && WellFormed(v) && Adds(v, d, top, isRoot, y) && !Tupled(v, d, top, isRoot)
    ensures IsReplacedAt(v, d, top, isRoot, path, y)
    decreases v
  {
    hide ClosedDocument, WellFormed, Take, IsFirstCopy, Match, IsOpen;
    path := [];
    OpenIff(v, d, top, isRoot);
    AddsOnlyThere(v, d, top, isRoot, y);
    if IsOpen(v, d, top, isRoot) {
      var t := AddsByTurn(v, d, top, isRoot, y);
      TakenIsWellFormed(v, t, WALKED);
      var more := AddsHasPath(Take(v, t, WALKED).value, d, top, false, y);
      path := [t] + more;
      assert path[1..] == more;
    } else {
      AddsHere(v, d, top, y);
    }
  }

  lemma AddsOnlyThere(v: Json, d: Document, top: string, isRoot: bool, y: string)
    requires Adds(v, d, top, isRoot, y)
    ensures (v.Obj? || v.Arr?) && !Skipped(v)
    ensures (!isRoot && Match(v, d, top).Some?) || v.Obj?
    ensures !isRoot && Match(v, d, top).Some? ==> Adds(v, d, top, false, y)
  {
    hide Match, NestedAt, Skipped;
  }

  // The pass puts a reference to y into x exactly when some path through open values leads to a first copy of y.
  lemma NewEdgeIff(d: Document, x: string, y: string)
    requires ClosedDocument(d) && NoTuples(d) && x in d.schemas
    ensures NewEdge(d, x, y) <==> exists path :: IsReplacedAt(d.schemas[x], d, x, true, path, y)
  {
    hide ClosedDocument, WellFormed, Adds, IsReplacedAt, Tupled;
    BodyIsWellFormed(d, x);
    if NewEdge(d, x, y) { var path := AddsHasPath(d.schemas[x], d, x, true, y); }
    if path :| IsReplacedAt(d.schemas[x], d, x, true, path, y) { PathAdds(d.schemas[x], d, x, true, path, y); }
  }
}
