/** What the walk for repeated subschemas reports, told by where values stand in a schema. */
module OccurrenceLaws {
  import opened Strings
  import opened Json
  import opened Hoist
  import opened Occurrences

  // ---------- which objects count ----------

  ghost predicate HasEntries(v: Json) {
    v.Arr? && v.items != []
  }

  ghost predicate HasMembers(v: Json) {
    v.Obj? && exists k :: k in v.at
  }

  /** There is more to the object than a type: properties, alternatives, or items that say something. */
  ghost predicate IsStructured(v: Json) {
    v.Obj? &&
    (|| ("properties" in v.at && (HasEntries(v.at["properties"]) || HasMembers(v.at["properties"])))
     || ("items" in v.at && HasMembers(v.at["items"]))
     || ("oneOf" in v.at && HasEntries(v.at["oneOf"])) || ("anyOf" in v.at && HasEntries(v.at["anyOf"]))
     || ("allOf" in v.at && HasEntries(v.at["allOf"])))
  }

  ghost predicate IsReference(v: Json) {
    v.Obj? && exists s :: "$ref" in v.at && v.at["$ref"] == Str(s)
  }

  ghost predicate IsNullType(v: Json) {
    v.Obj? && "type" in v.at && v.at["type"] in {Str("null"), Arr([Str("null")])}
  }

  /** anyOf a reference and null, in either order, and nothing else. */
  ghost predicate IsNullableReference(v: Json) {
    v.Obj? && exists r, z :: IsReference(r) && IsNullType(z) && !IsReference(z) && IsChoice(v, r, z)
  }

  predicate IsChoice(v: Json, a: Json, b: Json) {
    v.Obj? && (v.at == map["anyOf" := Arr([a, b])] || v.at == map["anyOf" := Arr([b, a])])
  }

  ghost predicate IsScalar(v: Json) {
    && v.Obj? && "type" in v.at && v.at["type"] in {Str("string"), Str("number"), Str("integer"), Str("boolean")}
    && "properties" !in v.at && "items" !in v.at && "$ref" !in v.at
    && "oneOf" !in v.at && "anyOf" !in v.at && "allOf" !in v.at
  }

  /** An array, or an array or something else, whose items are bare references or scalars. */
  ghost predicate IsPlainArray(v: Json) {
    && v.Obj? && "type" in v.at
    && (v.at["type"] == Str("array") || (v.at["type"].Arr? && Str("array") in v.at["type"].items))
    && "items" in v.at && v.at["items"].Obj? && (v.at["items"].at.Keys == {"$ref"} || IsScalar(v.at["items"]))
  }

  /** An object that is worth a name of its own. */
  ghost predicate IsWorthy(v: Json) {
    v.Obj? && "$ref" !in v.at && IsStructured(v) && !IsNullableReference(v) && !IsPlainArray(v)
  }

  lemma KeysOrNone(v: Json)
    requires v.Obj? && WellFormed(v)
    ensures v.keys != [] <==> exists k :: k in v.at
    ensures v.keys == ["$ref"] <==> v.at.Keys == {"$ref"}
  {
    hide WellFormed;
    ObjectLists(v);
    assert v.keys != [] ==> v.keys[0] in Elems(v.keys);
    if v.keys == ["$ref"] { assert Elems(v.keys) == {"$ref"}; }
    if v.at.Keys == {"$ref"} { OnlyOne(v.keys, "$ref"); }
  }

  lemma ObjectLists(v: Json)
    requires v.Obj? && WellFormed(v)
    ensures NoDup(v.keys) && Elems(v.keys) == v.at.Keys
    ensures forall k :: k in v.at ==> WellFormed(v.at[k])
  {}

  lemma OnlyOne(ks: seq<string>, k: string)
    requires NoDup(ks) && Elems(ks) == {k}
    ensures ks == [k]
  {
    assert k in Elems(ks);
    forall i | 0 <= i < |ks| ensures ks[i] == k { assert ks[i] in Elems(ks); }
    NoDupSize(ks);
  }

  lemma StructureIs(v: Json)
    requires v.Obj? && WellFormed(v)
    ensures IsTrivialSchemaShape(v.at) <==> !IsStructured(v)
  {
    ObjectLists(v);
    if "properties" in v.at && v.at["properties"].Obj? { KeysOrNone(v.at["properties"]); }
    if "items" in v.at && v.at["items"].Obj? { KeysOrNone(v.at["items"]); }
    hide WellFormed;
  }

  lemma NullableIs(v: Json)
    requires v.Obj?
    ensures IsNullableRefWrapper(v.at) <==> IsNullableReference(v)
  {
    forall w: Json ensures IsRefItem(w) <==> IsReference(w) {}
    if IsNullableRefWrapper(v.at) {
      var a, b := v.at["anyOf"].items[0], v.at["anyOf"].items[1];
      assert v.at["anyOf"] == Arr([a, b]);
      assert v.at == map["anyOf" := Arr([a, b])];
    }
    if r, z :| IsReference(r) && IsNullType(z) && !IsReference(z) && IsChoice(v, r, z) {
      assert v.at.Keys == {"anyOf"};
    }
  }

  lemma PlainArrayIs(v: Json)
    requires v.Obj? && WellFormed(v)
    ensures IsTrivialArrayWrapper(v.at) <==> IsPlainArray(v)
  {
    ObjectLists(v);
    if "items" in v.at && v.at["items"].Obj? { KeysOrNone(v.at["items"]); }
    hide WellFormed;
  }

  // The three filters let through exactly the objects that are worth a name.
  lemma CandidateIff(v: Json)
    requires v.Obj? && WellFormed(v) && "$ref" !in v.at
    ensures IsCandidate(v.at) <==> IsWorthy(v)
  {
    StructureIs(v);
    NullableIs(v);
    PlainArrayIs(v);
    hide WellFormed, IsTrivialSchemaShape, IsNullableRefWrapper, IsTrivialArrayWrapper;
  }

  // ---------- where the walk goes ----------

  /** c stands in v where a schema can stand: as a property, under its name, or elsewhere, under none. */
  ghost predicate StandsIn(v: Json, c: Json, name: Option<string>) {
    match v
    case Arr(xs) => name.None? && c in xs
    case Obj(_, m) =>
      "$ref" !in m &&
      if name.Some? then
        && "properties" in m && m["properties"].Obj? && name.value in m["properties"].at
        && m["properties"].at[name.value] == c
      else
        || (exists k :: k in {"items", "additionalProperties", "propertyNames", "not"} && k in m && m[k] == c)
        || (exists k :: k in {"oneOf", "anyOf", "allOf"} && k in m && m[k].Arr? && m[k] == c)
    case _ => false
  }

  function Under(name: Option<string>, node: Json): Occurrence {
    Occurrence(name.Some?, if name.Some? then name.value else "", node)
  }

  /** o is v itself, if it is worthy and not at the root, or a worthy object further in, with the name under
      which it stands. */
  ghost predicate IsReported(v: Json, name: Option<string>, isRoot: bool, o: Occurrence)
    decreases v
  {
    || (!isRoot && IsWorthy(v) && o == Under(name, v))
    || exists c, n :: StandsIn(v, c, n) && c < v && IsReported(c, n, false, o)
  }

  lemma StandsIsChild(v: Json, c: Json, name: Option<string>)
    requires StandsIn(v, c, name)
    ensures c < v
  {
    if v.Obj? && name.Some? { assert v.at["properties"] < v; }
  }

  lemma {:induction false} InFlatten(parts: seq<seq<Occurrence>>, i: nat, o: Occurrence)
    requires i < |parts| && o in parts[i]
    ensures o in Flatten(parts)
  {
    if i > 0 { InFlatten(parts[1..], i - 1, o); }
  }

  lemma WalkKeyIn(v: Json, k: nat, o: Occurrence)
    requires v.Obj? && k < |WALK_KEYS| && o in WalkKey(v, WALK_KEYS[k])
    ensures o in WalkBelow(v)
  {
    hide WalkKey, WALK_KEYS;
    InFlatten(seq(|WALK_KEYS|, i requires 0 <= i < |WALK_KEYS| => WalkKey(v, WALK_KEYS[i])), k, o);
  }

  lemma Positions()
    ensures PositionOf("properties") == Properties
    ensures forall k :: k in {"items", "additionalProperties", "propertyNames", "not"} <==> PositionOf(k) == Schema
    ensures forall k :: k in {"oneOf", "anyOf", "allOf"} <==> PositionOf(k) == SchemaList
    ensures forall k :: PositionOf(k) == Properties ==> k == "properties"
  {}

  // The walk goes on into everything that stands there.
  lemma WalkGoesInto(v: Json, c: Json, name: Option<string>, o: Occurrence)
    requires WellFormed(v) && v.Obj? && StandsIn(v, c, name) && o in Walk(c, name.Some?, Under(name, c).prop, false)
    ensures o in WalkBelow(v)
  {
    Positions();
    hide Walk, PositionOf, WALK_KEYS, WellFormed, WalkBelow;
    if name.Some? {
      var q := v.at["properties"];
      ObjectLists(v);
      ObjectLists(q);
      assert name.value in Elems(q.keys);
      var i :| 0 <= i < |q.keys| && q.keys[i] == name.value;
      InFlatten(seq(|q.keys|, i requires 0 <= i < |q.keys| =>
          if q.keys[i] in q.at then Walk(q.at[q.keys[i]], true, q.keys[i], false) else []), i, o);
      assert o in WalkKey(v, "properties");
      KeyIsWalked(v, "properties", o);
    } else {
      var k :| k in v.at && v.at[k] == c && (PositionOf(k) == Schema || (PositionOf(k) == SchemaList && c.Arr?));
      assert o in WalkKey(v, k);
      KeyIsWalked(v, k, o);
    }
  }

  lemma KeyIsWalked(v: Json, key: string, o: Occurrence)
    requires v.Obj? && PositionOf(key) != Opaque && o in WalkKey(v, key)
    ensures o in WalkBelow(v)
  {
    WalkKeysArePositions(key);
    hide WalkKey, WALK_KEYS, PositionOf, WalkBelow;
    var i :| 0 <= i < |WALK_KEYS| && WALK_KEYS[i] == key;
    WalkKeyIn(v, i, o);
  }

  // And into nothing else.
  lemma WalkComesFrom(v: Json, o: Occurrence) returns (c: Json, name: Option<string>)
    requires v.Obj? && "$ref" !in v.at && o in WalkBelow(v)
    ensures StandsIn(v, c, name) && o in Walk(c, name.Some?, Under(name, c).prop, false)
  {
    hide StandsIn, WalkKey, WALK_KEYS, Walk;
    var i := FlattenIn(seq(|WALK_KEYS|, i requires 0 <= i < |WALK_KEYS| => WalkKey(v, WALK_KEYS[i])), o);
    c, name := KeyComesFrom(v, WALK_KEYS[i], o);
  }

  lemma KeyComesFrom(v: Json, key: string, o: Occurrence) returns (c: Json, name: Option<string>)
    requires v.Obj? && "$ref" !in v.at && o in WalkKey(v, key)
    ensures StandsIn(v, c, name) && o in Walk(c, name.Some?, Under(name, c).prop, false)
  {
    Positions();
    hide Walk, PositionOf;
    var q := v.at[key];
    if PositionOf(key).Properties? {
      var j := FlattenIn(seq(|q.keys|, i requires 0 <= i < |q.keys| =>
          if q.keys[i] in q.at then Walk(q.at[q.keys[i]], true, q.keys[i], false) else []), o);
      c, name := q.at[q.keys[j]], Some(q.keys[j]);
    } else {
      c, name := q, None;
    }
  }

  lemma ChildWellFormed(v: Json, c: Json, name: Option<string>)
    requires WellFormed(v) && StandsIn(v, c, name)
    ensures WellFormed(c)
  {
    if v.Obj? {
      ObjectLists(v);
      if name.Some? { ObjectLists(v.at["properties"]); }
    }
  }

  // The walk reports exactly the worthy objects that stand in a schema, each under its property name if it is a
  // property and under none otherwise.
  lemma {:induction false} WalkReportsExactly(v: Json, name: Option<string>, isRoot: bool, o: Occurrence)
    requires WellFormed(v)
    ensures o in Walk(v, name.Some?, Under(name, v).prop, isRoot) <==> IsReported(v, name, isRoot, o)
    decreases v
  {
    hide StandsIn, WellFormed, IsWorthy, IsCandidate, WalkBelow;
    WalkNode(v, name, isRoot, o);
    forall c, n | StandsIn(v, c, n)
      ensures c < v && (o in Walk(c, n.Some?, Under(n, c).prop, false) <==> IsReported(c, n, false, o))
    {
      StandsIsChild(v, c, n);
      ChildWellFormed(v, c, n);
      WalkReportsExactly(c, n, false, o);
    }
    hide Walk;
  }

  lemma WalkNode(v: Json, name: Option<string>, isRoot: bool, o: Occurrence)
    requires WellFormed(v)
    ensures o in Walk(v, name.Some?, Under(name, v).prop, isRoot) <==>
      ((!isRoot && IsWorthy(v) && o == Under(name, v)) ||
        exists c, n :: StandsIn(v, c, n) && o in Walk(c, n.Some?, Under(n, c).prop, false))
  {
    if v.Arr? {
      WalkList(v, name, isRoot, o);
    } else if v.Obj? && "$ref" !in v.at {
      WalkObject(v, name, isRoot, o);
    }
  }

  lemma WalkList(v: Json, name: Option<string>, isRoot: bool, o: Occurrence)
    requires v.Arr?
    ensures o in Walk(v, name.Some?, Under(name, v).prop, isRoot) <==>
      exists c, n :: StandsIn(v, c, n) && o in Walk(c, n.Some?, Under(n, c).prop, false)
  {
    var parts := seq(|v.items|, i requires 0 <= i < |v.items| => Walk(v.items[i], false, "", false));
    assert Walk(v, name.Some?, Under(name, v).prop, isRoot) == Flatten(parts);
    hide Walk;
    if o in Flatten(parts) {
      var i := FlattenIn(parts, o);
      assert StandsIn(v, v.items[i], None) && o in Walk(v.items[i], false, "", false);
    }
    if c, n :| StandsIn(v, c, n) && o in Walk(c, n.Some?, Under(n, c).prop, false) {
      var i :| 0 <= i < |v.items| && v.items[i] == c;
      InFlatten(parts, i, o);
    }
  }

  lemma WalkObject(v: Json, name: Option<string>, isRoot: bool, o: Occurrence)
    requires WellFormed(v) && v.Obj? && "$ref" !in v.at
    ensures o in Walk(v, name.Some?, Under(name, v).prop, isRoot) <==>
      ((!isRoot && IsWorthy(v) && o == Under(name, v)) ||
        exists c, n :: StandsIn(v, c, n) && o in Walk(c, n.Some?, Under(n, c).prop, false))
  {
    CandidateIff(v);
    hide IsWorthy, IsCandidate, WalkBelow, StandsIn, WellFormed;
    if o in WalkBelow(v) { var c, n := WalkComesFrom(v, o); }
    if c, n :| StandsIn(v, c, n) && o in Walk(c, n.Some?, Under(n, c).prop, false) { WalkGoesInto(v, c, n, o); }
  }
}
