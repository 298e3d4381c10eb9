/** The walk that finds repeated subschemas, and the parts of a schema that it visits. */
module Occurrences {
  import opened Strings
  import opened Json
  import opened Documents
  import opened Hoist

  // ---------- which nodes are candidates ----------

  predicate HasKeys(m: map<string, Json>, key: string) {
    key in m && ((m[key].Obj? && m[key].keys != []) || (m[key].Arr? && m[key].items != []))
  }

  predicate HasList(m: map<string, Json>, key: string) {
    key in m && m[key].Arr? && m[key].items != []
  }

  /** isTrivialSchemaShape */
  predicate IsTrivialSchemaShape(m: map<string, Json>) {
    && !HasKeys(m, "properties")
    && !HasList(m, "oneOf") && !HasList(m, "anyOf") && !HasList(m, "allOf")
    && !("items" in m && m["items"].Obj? && m["items"].keys != [])
  }

  predicate IsRefItem(v: Json) {
    v.Obj? && "$ref" in v.at && v.at["$ref"].Str?
  }

  predicate IsNullItem(v: Json) {
    v.Obj? && "type" in v.at && (v.at["type"] == Str("null") || v.at["type"] == Arr([Str("null")]))
  }

  /** isNullableRefWrapper */
  predicate IsNullableRefWrapper(m: map<string, Json>) {
    && m.Keys == {"anyOf"} && m["anyOf"].Arr? && |m["anyOf"].items| == 2
    && var a, b := m["anyOf"].items[0], m["anyOf"].items[1];
    (IsRefItem(a) && !IsRefItem(b) && IsNullItem(b)) || (IsRefItem(b) && !IsRefItem(a) && IsNullItem(a))
  }

  predicate IsPrimitiveType(v: Json) {
    v == Str("string") || v == Str("number") || v == Str("integer") || v == Str("boolean")
  }

  /** isTrivialArrayWrapper */
  predicate IsTrivialArrayWrapper(m: map<string, Json>) {
    && "type" in m && (m["type"] == Str("array") || (m["type"].Arr? && Str("array") in m["type"].items))
    && "items" in m && m["items"].Obj?
    && var item := m["items"];
    item.keys == ["$ref"]
    || ("type" in item.at && IsPrimitiveType(item.at["type"])
        && {"properties", "items", "$ref", "oneOf", "anyOf", "allOf"} !! item.at.Keys)
  }

  predicate IsCandidate(m: map<string, Json>) {
    !IsTrivialSchemaShape(m) && !IsNullableRefWrapper(m) && !IsTrivialArrayWrapper(m)
  }

  // ---------- the walk ----------

  datatype Occurrence = Occurrence(named: bool, prop: string, node: Json)

  /** The keywords that are walked, in order. */
  const WALK_KEYS: seq<string> :=
    ["properties", "items", "additionalProperties", "propertyNames", "oneOf", "anyOf", "allOf", "not"]

  function Flatten(parts: seq<seq<Occurrence>>): seq<Occurrence> {
    if parts == [] then [] else parts[0] + Flatten(parts[1..])
  }

  /** walkForOccurrences: the candidate nodes below v in the order they are visited. */
  function Walk(v: Json, named: bool, prop: string, isRoot: bool): seq<Occurrence>
    decreases v, 3
  {
    match v
    case Arr(xs) => Flatten(seq(|xs|, i requires 0 <= i < |xs| => Walk(xs[i], false, "", false)))
    case Obj(_, m) =>
      if "$ref" in m then []
      else (if !isRoot && IsCandidate(m) then [Occurrence(named, prop, v)] else []) + WalkBelow(v)
    case _ => []
  }

  function WalkBelow(v: Json): seq<Occurrence>
    requires v.Obj?
    decreases v, 2
  {
    Flatten(seq(|WALK_KEYS|, i requires 0 <= i < |WALK_KEYS| => WalkKey(v, WALK_KEYS[i])))
  }

  function WalkKey(v: Json, key: string): seq<Occurrence>
    requires v.Obj?
    decreases v, 1
  {
    if key in v.at then WalkAt(PositionOf(key), v.at[key]) else []
  }

  function WalkAt(p: Position, v: Json): seq<Occurrence>
    decreases v, 4
  {
    match p
    case Properties =>
      if v.Obj? then
        Flatten(seq(|v.keys|, i requires 0 <= i < |v.keys| =>
          if v.keys[i] in v.at then Walk(v.at[v.keys[i]], true, v.keys[i], false) else []))
      else []
    case Schema => Walk(v, false, "", false)
    case SchemaList => if v.Arr? then Walk(v, false, "", false) else []
    case Opaque => []
  }

  // The walked keywords are exactly those that hold schemas.
  lemma WalkKeysArePositions(key: string)
    ensures (exists i :: 0 <= i < |WALK_KEYS| && WALK_KEYS[i] == key) <==> PositionOf(key) != Opaque
  {
    assert WALK_KEYS[0] == "properties" && WALK_KEYS[1] == "items" && WALK_KEYS[2] == "additionalProperties"
      && WALK_KEYS[3] == "propertyNames" && WALK_KEYS[4] == "oneOf" && WALK_KEYS[5] == "anyOf" &&
        WALK_KEYS[6] == "allOf"
      && WALK_KEYS[7] == "not";
  }

  // ---------- schema parts ----------

  /** p is a value that the walk visits next after v. */
  ghost predicate Child(v: Json, p: Json) {
    match v
    case Arr(xs) => p in xs
    case Obj(_, m) => "$ref" !in m && exists k :: k in m && ChildAt(PositionOf(k), m[k], p)
    case _ => false
  }

  ghost predicate ChildAt(p: Position, v: Json, c: Json) {
    match p
    case Properties => v.Obj? && exists k :: k in v.at && v.at[k] == c
    case Schema => v == c
    case SchemaList => v.Arr? && v == c
    case Opaque => false
  }

  lemma ChildIsSmaller(v: Json, p: Json)
    requires Child(v, p)
    ensures p < v
  {
    hide PositionOf;
    if v.Obj? {
      var k :| k in v.at && ChildAt(PositionOf(k), v.at[k], p);
      assert v.at[k] < v;
    }
  }

  // What holds no dangling references and is well formed has such parts.
  lemma ChildClosed(v: Json, p: Json, names: set<string>)
    requires WellFormed(v) && Closed(v, names) && Child(v, p)
    ensures WellFormed(p) && Closed(p, names)
  {
    hide IsRef, PositionOf, Elems, NoDup, NumChar, Target, BareIfRef;
    if v.Obj? {
      NoRefKey(v);
      ClosedNode(v, names);
      var k :| k in v.at && ChildAt(PositionOf(k), v.at[k], p);
      if PositionOf(k).Properties? {
        PropertiesPosition();
        PropertiesBare(v);
        PropertyClosed(v.at[k], p, names);
      }
    }
  }

  lemma PropertyClosed(v: Json, p: Json, names: set<string>)
    requires WellFormed(v) && Closed(v, names) && BareIfRef(v) && ChildAt(Properties, v, p)
    ensures WellFormed(p) && Closed(p, names)
  {
    hide IsRef, Target, Elems, NoDup, NumChar, BareProperties;
    var k :| k in v.at && v.at[k] == p;
    if HasRefString(v) {
      assert k == "$ref" && p.Str?;
    }
  }

  // Added names are mentioned in the parts of a schema only where schemas stand.
  lemma ChildPlaced(v: Json, p: Json, names: set<string>, added: set<string>)
    requires Closed(v, names) && Placed(v, OfSchema, added) && Child(v, p)
    ensures Placed(p, OfSchema, added)
  {
    hide IsRef, PositionOf, KeywordView, Target, Mentions, BareIfRef;
    if v.Obj? {
      NoRefKey(v);
      ClosedNode(v, names);
      PropertiesPosition();
      PropertiesBare(v);
      var k :| k in v.at && ChildAt(PositionOf(k), v.at[k], p);
      PositionViews(k);
      assert Placed(v.at[k], KeywordView(k), added);
      if PositionOf(k).Properties? { PropertyPlaced(v.at[k], p, added); }
    }
  }

  lemma PropertyPlaced(v: Json, p: Json, added: set<string>)
    requires Placed(v, OfSchemas, added) && ChildAt(Properties, v, p) && BareIfRef(v)
    ensures Placed(p, OfSchema, added)
  {}

  // ---------- the walk descends through children ----------

  lemma FlattenIn(parts: seq<seq<Occurrence>>, o: Occurrence) returns (i: nat)
    requires o in Flatten(parts)
    ensures i < |parts| && o in parts[i]
  {
    if o in parts[0] {
      i := 0;
    } else {
      var j := FlattenIn(parts[1..], o);
      i := j + 1;
    }
  }

  /** o comes from the walk of a child of v. */
  ghost predicate FromChild(v: Json, o: Occurrence) {
    exists p, named, prop :: Child(v, p) && o in Walk(p, named, prop, false)
  }

  lemma WalkKeyDescends(v: Json, key: string, o: Occurrence)
    requires v.Obj? && "$ref" !in v.at && o in WalkKey(v, key)
    ensures FromChild(v, o)
  {
    hide PositionOf, Walk;
    var p, q := PositionOf(key), v.at[key];
    if p.Properties? {
      var i := FlattenIn(seq(|q.keys|, i requires 0 <= i < |q.keys| =>
          if q.keys[i] in q.at then Walk(q.at[q.keys[i]], true, q.keys[i], false) else []), o);
      assert ChildAt(p, q, q.at[q.keys[i]]);
      assert Child(v, q.at[q.keys[i]]) && o in Walk(q.at[q.keys[i]], true, q.keys[i], false);
    } else {
      assert ChildAt(p, q, q) && o in Walk(q, false, "", false);
      assert Child(v, q);
    }
  }

  lemma WalkDescends(v: Json, named: bool, prop: string, isRoot: bool, o: Occurrence)
    requires o in Walk(v, named, prop, isRoot)
    ensures FromChild(v, o) ||
      (o == Occurrence(named, prop, v) && !isRoot && v.Obj? && "$ref" !in v.at && IsCandidate(v.at))
  {
    hide WalkBelow, IsCandidate;
    if v.Arr? {
      var i := FlattenIn(seq(|v.items|, i requires 0 <= i < |v.items| => Walk(v.items[i], false, "", false)), o);
      assert Child(v, v.items[i]);
    } else if o in WalkBelow(v) {
      WalkBelowDescends(v, o);
    }
  }

  lemma WalkBelowDescends(v: Json, o: Occurrence)
    requires v.Obj? && "$ref" !in v.at && o in WalkBelow(v)
    ensures FromChild(v, o)
  {
    hide FromChild, WalkKey, WALK_KEYS;
    var i := FlattenIn(seq(|WALK_KEYS|, i requires 0 <= i < |WALK_KEYS| => WalkKey(v, WALK_KEYS[i])), o);
    WalkKeyDescends(v, WALK_KEYS[i], o);
  }

  /** p is v's child, or a child's, and so on. */
  ghost predicate Part(v: Json, p: Json)
    decreases v
  {
    exists c :: Child(v, c) && c < v && (c == p || Part(c, p))
  }

  lemma ChildIsPart(v: Json, p: Json)
    requires Child(v, p)
    ensures Part(v, p)
  {
    ChildIsSmaller(v, p);
    hide Child;
  }

  lemma {:induction false} PartOfPart(v: Json, p: Json, q: Json)
    requires Part(v, p) && Part(p, q)
    ensures Part(v, q)
    decreases v
  {
    hide Child;
    var c :| Child(v, c) && c < v && (c == p || Part(c, p));
    if c != p { PartOfPart(c, p, q); }
  }

  // Every node that the walk reports is a candidate schema object: the walked value itself or a part of it.
  lemma {:induction false} WalkFinds(v: Json, named: bool, prop: string, isRoot: bool, o: Occurrence)
    requires o in Walk(v, named, prop, isRoot)
    ensures o.node.Obj? && "$ref" !in o.node.at && IsCandidate(o.node.at)
    ensures Part(v, o.node) || (o.node == v && !isRoot && v.Obj?)
    decreases v
  {
    hide Walk, IsCandidate, Child, Part;
    WalkDescends(v, named, prop, isRoot, o);
    if FromChild(v, o) {
      var p, named', prop' :| Child(v, p) && o in Walk(p, named', prop', false);
      ChildIsSmaller(v, p);
      ChildIsPart(v, p);
      WalkFinds(p, named', prop', false, o);
      if Part(p, o.node) { PartOfPart(v, p, o.node); }
    }
  }

  // Parts inherit closedness and the places of added names.
  lemma {:induction false} PartClosed(v: Json, p: Json, names: set<string>)
    requires WellFormed(v) && Closed(v, names) && Part(v, p)
    ensures WellFormed(p) && Closed(p, names)
    decreases v
  {
    hide Child, WellFormed, Closed;
    var c :| Child(v, c) && c < v && (c == p || Part(c, p));
    ChildClosed(v, c, names);
    if c != p { PartClosed(c, p, names); }
  }

  lemma {:induction false} PartPlaced(v: Json, p: Json, names: set<string>, added: set<string>)
    requires WellFormed(v) && Closed(v, names) && Placed(v, OfSchema, added) && Part(v, p)
    ensures Placed(p, OfSchema, added)
    decreases v
  {
    hide Child, Placed, WellFormed, Closed;
    var c :| Child(v, c) && c < v && (c == p || Part(c, p));
    ChildClosed(v, c, names);
    ChildPlaced(v, c, names, added);
    if c != p { PartPlaced(c, p, names, added); }
  }
}
