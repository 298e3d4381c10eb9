/** compressOpenApiDocument: nested copies of a whole named schema become references to it. */
module Compress {
  import opened Strings
  import opened Json
  import opened Documents

  // ---------- the pass ----------

  function Indices(n: nat): seq<string> {
    seq(n, i requires 0 <= i < n => Numeral(i, 10))
  }

  function Chars(s: string): seq<Json> {
    seq(|s|, i requires 0 <= i < |s| => Str([s[i]]))
  }

  // The i-th value under the key i.
  function ByIndex(xs: seq<Json>): map<string, Json> {
    if xs == [] then map[] else ByIndex(xs[..|xs| - 1])[Numeral(|xs| - 1, 10) := xs[|xs| - 1]]
  }

  /** The object that spreading a value, or rebuilding it from its entries, gives. */
  function AsObject(v: Json): (r: Json)
    ensures r.Obj? && (v.Obj? ==> r == v)
  {
    match v
    case Obj(_, _) => v
    case Arr(xs) => Obj(Indices(|xs|), ByIndex(xs))
    case Str(s) => Obj(Indices(|s|), ByIndex(Chars(s)))
    case _ => Obj([], map[])
  }

  datatype Nested = Properties | Schema | SchemaList | Untouched

  function NestedAt(key: string): Nested {
    if key == "properties" then Properties
    else if key == "items" || key == "additionalProperties" then Schema
    else if key == "oneOf" || key == "anyOf" || key == "allOf" then SchemaList
    else Untouched
  }

  /** findMatchingSchema */
  function FindMatchingSchema(v: Json, names: seq<string>, s: Schemas, excluded: string): Option<string> {
    if names == [] then None
    else if names[0] != excluded && names[0] in s && Stringify(v) == Stringify(s[names[0]]) then Some(names[0])
    else FindMatchingSchema(v, names[1..], s, excluded)
  }

  // The schema that v is replaced by; an empty name counts as none.
  function Match(v: Json, d: Document, top: string): Option<string> {
    var n := FindMatchingSchema(v, d.names, d.schemas, top);
    if n == Some("") then None else n
  }

  predicate Skipped(v: Json) {
    v.Obj? && "$ref" in v.at && Truthy(v.at["$ref"])
  }

  /** deduplicateNestedSchemas */
  function Deduplicate(v: Json, d: Document, top: string, isRoot: bool): Json
    decreases v, 0
  {
    if !(v.Obj? || v.Arr?) || Skipped(v) then v
    else if !isRoot && Match(v, d, top).Some? then MkRef(Match(v, d, top).value)
    else if v.Arr? then AsObject(v)
    else Obj(v.keys, map k | k in v.at :: DeduplicateAt(NestedAt(k), v.at[k], d, top))
  }

  function DeduplicateAt(p: Nested, v: Json, d: Document, top: string): Json
    decreases v, 1
  {
    match p
    case Properties =>
      if !Truthy(v) then v
      else if v.Obj? then Obj(v.keys, map k | k in v.at :: Deduplicate(v.at[k], d, top, false))
      else if v.Arr? then
        AsObject(Arr(seq(|v.items|, i requires 0 <= i < |v.items| => Deduplicate(v.items[i], d, top, false))))
      else AsObject(v)
    case Schema => if Truthy(v) then Deduplicate(v, d, top, false) else v
    case SchemaList =>
      if v.Arr? then Arr(seq(|v.items|, i requires 0 <= i < |v.items| => Deduplicate(v.items[i], d, top, false))) else v
    case Untouched => v
  }

  function Compressed(d: Document): Schemas {
    map x | x in d.schemas :: Deduplicate(d.schemas[x], d, x, true)
  }

  /** compressOpenApiDocument */
  method CompressOpenApiDocument(d: Document) returns (out: Document)
    requires Elems(d.names) == d.schemas.Keys
    ensures out == Document(d.names, Compressed(d), d.rest)
  {
    hide Deduplicate;
    var t: Schemas := map[];
    var i := 0;
    while i < |d.names|
      invariant 0 <= i <= |d.names|
      invariant t.Keys == Elems(d.names[..i])
      invariant forall x :: x in t ==> x in d.schemas && t[x] == Deduplicate(d.schemas[x], d, x, true)
    {
      var x := d.names[i];
      assert x in Elems(d.names);
      assert d.names[..i + 1] == d.names[..i] + [x];
      t := t[x := Deduplicate(d.schemas[x], d, x, true)];
      i := i + 1;
    }
    assert d.names[..i] == d.names;
    out := Document(d.names, t, d.rest);
  }

  // ---------- matches are copies ----------

  lemma {:induction false} FoundIsCopy(v: Json, names: seq<string>, s: Schemas, excluded: string)
    requires WellFormed(v) && forall x :: x in s ==> WellFormed(s[x])
    ensures var r := FindMatchingSchema(v, names, s, excluded);
      r.Some? ==> r.value in s && r.value in names && r.value != excluded && s[r.value] == v
    ensures FindMatchingSchema(v, names, s, excluded).None? ==>
      forall x :: x in names && x in s && x != excluded ==> s[x] != v
  {
    hide Stringify, WellFormed;
    if names != [] {
      if names[0] in s { StringifyInjective(v, s[names[0]]); }
      FoundIsCopy(v, names[1..], s, excluded);
    }
  }

  lemma MatchIsCopy(v: Json, d: Document, top: string)
    requires WellFormed(v) && ClosedDocument(d) && Match(v, d, top).Some?
    ensures Match(v, d, top).value in d.schemas && d.schemas[Match(v, d, top).value] == v
  {
    hide FindMatchingSchema, IsRef, HasRefString, NoDup, WellFormed, Closed;
    forall x | x in d.schemas ensures WellFormed(d.schemas[x]) { assert Body(d.schemas[x], d.schemas.Keys); }
    FoundIsCopy(v, d.names, d.schemas, top);
  }

  // A nested value is replaced exactly when it is a copy of another schema: then by a reference to
  // the first one that it copies, unless that one's name is empty.
  lemma CopiesAreReplaced(v: Json, d: Document, top: string, n: string)
    requires ClosedDocument(d) && WellFormed(v) && v.Obj? && !Skipped(v) && !HasRefString(v) && n in d.schemas
    requires n != ""
    ensures Deduplicate(v, d, top, false) == MkRef(n) <==> IsFirstCopy(v, d, top, n)
  {
    hide FindMatchingSchema, IsRef, HasRefString, NoDup, WellFormed, Closed, Skipped, DeduplicateAt, NestedAt, MkRef;
    forall x | x in d.schemas ensures WellFormed(d.schemas[x]) { assert Body(d.schemas[x], d.schemas.Keys); }
    FirstFound(v, d.names, d.schemas, top, n);
    KeptIsNoRef(v, d, top);
    if Match(v, d, top).Some? {
      SameReference(Match(v, d, top).value, n);
    }
    ListedNames(d, n);
  }

  lemma ListedNames(d: Document, n: string)
    requires ValidDocument(d) && n in d.schemas
    ensures n in d.names
  {
    hide NoDup;
    assert n in Elems(d.names);
  }

  lemma SameReference(a: string, b: string)
    ensures MkRef(a) == MkRef(b) <==> a == b
  {
    assert Target(MkRef(a)) == a && Target(MkRef(b)) == b;
  }

  // A value that stays an object of its own is no reference.
  lemma KeptIsNoRef(v: Json, d: Document, top: string)
    requires v.Obj? && !Skipped(v) && !HasRefString(v)
    ensures Match(v, d, top).None? ==> !HasRefString(Deduplicate(v, d, top, false))
  {
    hide Match, DeduplicateAt;
    DeduplicateCases(v, d, top, false);
    if Match(v, d, top).None? && "$ref" in v.at { RefKeyUntouched(v, d, top, false); }
  }

  /** Schema n is the first of the other schemas that equals v. */
  ghost predicate IsFirstCopy(v: Json, d: Document, top: string, n: string) {
    exists i :: 0 <= i < |d.names| && d.names[i] == n && FirstCopyAt(v, d.names, d.schemas, top, i)
  }

  ghost predicate FirstCopyAt(v: Json, names: seq<string>, s: Schemas, top: string, i: nat)
    requires i < |names|
  {
    && names[i] != top && names[i] in s && s[names[i]] == v
    && forall j :: 0 <= j < i && names[j] != top && names[j] in s ==> s[names[j]] != v
  }

  lemma {:induction false} FirstFound(v: Json, names: seq<string>, s: Schemas, top: string, n: string)
    requires WellFormed(v) && forall x :: x in s ==> WellFormed(s[x])
    ensures FindMatchingSchema(v, names, s, top) == Some(n) <==>
      exists i :: 0 <= i < |names| && names[i] == n && FirstCopyAt(v, names, s, top, i)
  {
    hide Stringify, WellFormed;
    if names != [] {
      if names[0] in s { StringifyInjective(v, s[names[0]]); }
      var rest := names[1..];
      FirstFound(v, rest, s, top, n);
      if names[0] != top && names[0] in s && s[names[0]] == v {
        assert FirstCopyAt(v, names, s, top, 0);
        forall i | 0 < i < |names| ensures !FirstCopyAt(v, names, s, top, i) {}
      } else {
        forall i | 0 <= i < |rest| ensures FirstCopyAt(v, rest, s, top, i) <==> FirstCopyAt(v, names, s, top, i + 1) {
          CopyShifts(v, names, s, top, i);
        }
        if i :| 0 <= i < |names| && names[i] == n && FirstCopyAt(v, names, s, top, i) {
          assert i > 0 && rest[i - 1] == n && FirstCopyAt(v, rest, s, top, i - 1);
        }
        if i :| 0 <= i < |rest| && rest[i] == n && FirstCopyAt(v, rest, s, top, i) {
          assert names[i + 1] == n && FirstCopyAt(v, names, s, top, i + 1);
        }
      }
    }
  }

  lemma CopyShifts(v: Json, names: seq<string>, s: Schemas, top: string, i: nat)
    requires i + 1 < |names| && !(names[0] != top && names[0] in s && s[names[0]] == v)
    ensures FirstCopyAt(v, names[1..], s, top, i) <==> FirstCopyAt(v, names, s, top, i + 1)
  {
    var rest := names[1..];
    assert forall j :: 0 <= j < |rest| ==> rest[j] == names[j + 1];
    assert forall j :: 0 < j < |names| ==> names[j] == rest[j - 1];
  }

  // ---------- when nothing changes its kind ----------

  /** The pass meets a value that it turns into an object: an array where a schema is expected, or
      properties that are no object. */
  predicate Tupled(v: Json, d: Document, top: string, isRoot: bool)
    decreases v, 0
  {
    match v
    case Arr(_) => isRoot || Match(v, d, top).None?
    case Obj(_, m) =>
      && !Skipped(v) && (isRoot || Match(v, d, top).None?)
      && exists k :: k in m && TupledAt(NestedAt(k), m[k], d, top)
    case _ => false
  }

  predicate TupledAt(p: Nested, v: Json, d: Document, top: string)
    decreases v, 1
  {
    match p
    case Properties => Truthy(v) && (v.Obj? ==> exists k :: k in v.at && Tupled(v.at[k], d, top, false))
    case Schema => Tupled(v, d, top, false)
    case SchemaList => v.Arr? && exists i :: 0 <= i < |v.items| && Tupled(v.items[i], d, top, false)
    case Untouched => false
  }

  ghost predicate NoTuples(d: Document) {
    forall x :: x in d.schemas ==> !Tupled(d.schemas[x], d, x, true)
  }

  // ---------- one level at a time ----------

  lemma DeduplicateCases(v: Json, d: Document, top: string, isRoot: bool)
    ensures !(v.Obj? || v.Arr?) || Skipped(v) ==> Deduplicate(v, d, top, isRoot) == v
    ensures (v.Obj? || v.Arr?) && !Skipped(v) && !isRoot && Match(v, d, top).Some? ==>
      Deduplicate(v, d, top, isRoot) == MkRef(Match(v, d, top).value)
    ensures v.Arr? && (isRoot || Match(v, d, top).None?) ==> Deduplicate(v, d, top, isRoot) == AsObject(v)
    ensures v.Obj? && !Skipped(v) && (isRoot || Match(v, d, top).None?) ==>
      var w := Deduplicate(v, d, top, isRoot);
      w.Obj? && w.keys == v.keys && w.at.Keys == v.at.Keys &&
      forall k :: k in v.at ==> w.at[k] == DeduplicateAt(NestedAt(k), v.at[k], d, top)
    ensures Deduplicate(v, d, top, isRoot).Str? <==> v.Str?
  {
    hide Match, NestedAt, MkRef, AsObject, DeduplicateAt, Truthy;
  }

  lemma DeduplicateAtCases(p: Nested, v: Json, d: Document, top: string)
    ensures p.Properties? && v.Obj? ==>
      var w := DeduplicateAt(p, v, d, top);
      w.Obj? && w.keys == v.keys && w.at.Keys == v.at.Keys &&
      forall k :: k in v.at ==> w.at[k] == Deduplicate(v.at[k], d, top, false)
    ensures p.Properties? && !v.Obj? ==> DeduplicateAt(p, v, d, top) == v || DeduplicateAt(p, v, d, top).Obj?
    ensures p.Properties? && !v.Obj? && Truthy(v) ==> DeduplicateAt(p, v, d, top).Obj?
    ensures p.Properties? && !v.Obj? && !Truthy(v) ==> DeduplicateAt(p, v, d, top) == v
    ensures p.SchemaList? && v.Arr? ==>
      var w := DeduplicateAt(p, v, d, top);
      w.Arr? && |w.items| == |v.items| &&
      forall i :: 0 <= i < |v.items| ==> w.items[i] == Deduplicate(v.items[i], d, top, false)
    ensures p.Untouched? || (p.SchemaList? && !v.Arr?) ==> DeduplicateAt(p, v, d, top) == v
    ensures p.Schema? ==> DeduplicateAt(p, v, d, top) == Deduplicate(v, d, top, false)
  {
    hide Match, MkRef, Skipped;
    if p.Schema? && !Truthy(v) { DeduplicateCases(v, d, top, false); }
  }

  lemma SkippedRefs(v: Json, names: set<string>)
    requires Closed(v, names)
    ensures HasRefString(v) ==> Skipped(v)
    ensures HasRefString(v) ==> IsRef(v)
    ensures !HasRefString(v) ==> !IsRef(v)
  {
    if HasRefString(v) {
      assert |v.at["$ref"].s| >= |PREFIX|;
    }
  }

  lemma BarePropertiesKept(v: Json, d: Document, top: string)
    requires v.Obj? && HasRefString(v) && BareIfRef(v)
    ensures DeduplicateAt(Properties, v, d, top) == v
  {
    hide Match, MkRef;
    DeduplicateAtCases(Properties, v, d, top);
    DeduplicateCases(v.at["$ref"], d, top, false);
    assert DeduplicateAt(Properties, v, d, top).at == v.at;
  }

  // A node that is neither a reference nor replaced stays what it is.
  lemma NodeKept(v: Json, d: Document, top: string, isRoot: bool, names: set<string>)
    requires v.Obj? && !Skipped(v) && Closed(v, names) && (isRoot || Match(v, d, top).None?)
    ensures !IsRef(v) && !HasRefString(v)
    ensures !HasRefString(Deduplicate(v, d, top, isRoot)) && !IsRef(Deduplicate(v, d, top, isRoot))
  {
    hide Match, DeduplicateAt, Deduplicate;
    SkippedRefs(v, names);
    DeduplicateCases(v, d, top, isRoot);
    if "$ref" in v.at { RefKeyUntouched(v, d, top, isRoot); }
  }

  lemma RefKeyUntouched(v: Json, d: Document, top: string, isRoot: bool)
    requires v.Obj? && !Skipped(v) && (isRoot || Match(v, d, top).None?) && "$ref" in v.at
    ensures Deduplicate(v, d, top, isRoot).Obj? && "$ref" in Deduplicate(v, d, top, isRoot).at
    ensures Deduplicate(v, d, top, isRoot).at["$ref"] == v.at["$ref"]
  {
    hide Match, DeduplicateAt;
    DeduplicateCases(v, d, top, isRoot);
    DeduplicateAtCases(NestedAt("$ref"), v.at["$ref"], d, top);
  }

  // ---------- references still resolve ----------

  lemma {:induction false} ByIndexKeys(xs: seq<Json>)
    ensures ByIndex(xs).Keys == Elems(Indices(|xs|))
    ensures forall k :: k in ByIndex(xs) ==> ByIndex(xs)[k] in xs
  {
    hide Numeral;
    if xs != [] {
      var ys := xs[..|xs| - 1];
      ByIndexKeys(ys);
      assert Indices(|xs|) == Indices(|ys|) + [Numeral(|xs| - 1, 10)];
      hide Indices;
      assert xs == ys + [xs[|xs| - 1]];
    }
  }

  lemma IndicesDistinct(n: nat)
    ensures NoDup(Indices(n)) && "$ref" !in Elems(Indices(n)) && "properties" !in Elems(Indices(n))
  {
    forall i, j | 0 <= i < j < n ensures Indices(n)[i] != Indices(n)[j] {
      if Indices(n)[i] == Indices(n)[j] { NumeralInjective(i, j, 10); }
    }
    forall i | 0 <= i < n ensures Indices(n)[i] != "$ref" && Indices(n)[i] != "properties" {
      assert Indices(n)[i][0] in DIGITS;
    }
  }

  lemma AsObjectClosed(v: Json, names: set<string>)
    requires WellFormed(v) && Closed(v, names)
    ensures WellFormed(AsObject(v)) && Closed(AsObject(v), names)
    ensures !v.Obj? ==> !IsRef(AsObject(v)) && !HasRefString(AsObject(v))
  {
    hide Elems, NoDup, NumChar, IsRef, BareIfRef;
    IndicesDistinct(if v.Arr? then |v.items| else if v.Str? then |v.s| else 0);
    EmptyKeys();
    match v
    case Arr(xs) => ByIndexKeys(xs);
    case Str(s) => ByIndexKeys(Chars(s));
    case _ =>
  }

  lemma EmptyKeys()
    ensures NoDup<string>([]) && Elems<string>([]) == {}
  {}

  // What stands in place of properties stays a bare reference, if it is one.
  lemma DeduplicateBare(v: Json, d: Document, top: string)
    requires BareIfRef(v) && WellFormed(v) && Closed(v, d.schemas.Keys)
    ensures BareIfRef(Deduplicate(v, d, top, false))
  {
    hide Match, DeduplicateAt, Deduplicate, MkRef, Skipped, AsObject, IsRef, Closed, WellFormed;
    DeduplicateCases(v, d, top, false);
    if !(v.Obj? || v.Arr?) || Skipped(v) || Match(v, d, top).Some? {
    } else if v.Arr? {
      AsObjectClosed(v, d.schemas.Keys);
    } else {
      NodeKept(v, d, top, false, d.schemas.Keys);
    }
  }

  lemma DeduplicateAtBare(p: Nested, v: Json, d: Document, top: string)
    requires BareIfRef(v) && WellFormed(v) && Closed(v, d.schemas.Keys)
    ensures BareIfRef(DeduplicateAt(p, v, d, top))
  {
    hide Match, Deduplicate, MkRef, Skipped, AsObject, IsRef, BareIfRef;
    if p.Properties? {
      if v.Obj? {
        if HasRefString(v) {
          BarePropertiesKept(v, d, top);
        } else {
          PropertiesKept(v, d, top);
          NotRefIsBare(DeduplicateAt(p, v, d, top));
        }
      } else if Truthy(v) {
        PropertiesBecomeObject(v, d, top, d.schemas.Keys);
        NotRefIsBare(DeduplicateAt(p, v, d, top));
      }
    } else if p.Schema? {
      if Truthy(v) { DeduplicateBare(v, d, top); }
    } else if p.SchemaList? && v.Arr? {
      NotRefIsBare(DeduplicateAt(p, v, d, top));
    }
  }

  lemma NotRefIsBare(v: Json)
    requires !HasRefString(v)
    ensures BareIfRef(v)
  {}

  lemma BarePositions(v: Json, key: string)
    requires v.Obj? && BareProperties(v) && key in v.at && NestedAt(key).Properties?
    ensures BareIfRef(v.at[key])
  {}

  lemma {:induction false} DeduplicateClosed(v: Json, d: Document, top: string, isRoot: bool)
    requires ClosedDocument(d) && WellFormed(v) && Closed(v, d.schemas.Keys)
    ensures WellFormed(Deduplicate(v, d, top, isRoot)) && Closed(Deduplicate(v, d, top, isRoot), d.schemas.Keys)
    decreases v, 0
  {
    hide ClosedDocument, Deduplicate, DeduplicateAt, Match, Skipped, NestedAt, IsRef, HasRefString, Target, Elems,
      NoDup, NumChar, MkRef, AsObject, BareProperties, BareIfRef;
    var w := Deduplicate(v, d, top, isRoot);
    DeduplicateCases(v, d, top, isRoot);
    if !(v.Obj? || v.Arr?) || Skipped(v) {
    } else if !isRoot && Match(v, d, top).Some? {
      MatchIsCopy(v, d, top);
      RefClosedTo(Match(v, d, top).value, d.schemas.Keys);
    } else if v.Arr? {
      AsObjectClosed(v, d.schemas.Keys);
    } else {
      NodeKept(v, d, top, isRoot, d.schemas.Keys);
      ClosedNode(v, d.schemas.Keys);
      forall k | k in v.at ensures WellFormed(w.at[k]) && Closed(w.at[k], d.schemas.Keys) {
        if NestedAt(k).Properties? { BarePositions(v, k); }
        DeduplicateAtClosed(NestedAt(k), v.at[k], d, top);
      }
      NodeBare(v, d, top, isRoot);
    }
  }

  lemma NodeBare(v: Json, d: Document, top: string, isRoot: bool)
    requires v.Obj? && !Skipped(v) && (isRoot || Match(v, d, top).None?) && BareProperties(v)
    requires WellFormed(v) && forall k :: k in v.at ==> Closed(v.at[k], d.schemas.Keys)
    ensures BareProperties(Deduplicate(v, d, top, isRoot))
  {
    hide Match, Deduplicate, DeduplicateAt, Skipped, BareIfRef, Closed, NestedAt;
    DeduplicateCases(v, d, top, isRoot);
    if "properties" in v.at { DeduplicateAtBare(NestedAt("properties"), v.at["properties"], d, top); }
  }

  lemma RefClosedTo(n: string, names: set<string>)
    requires n in names
    ensures WellFormed(MkRef(n)) && Closed(MkRef(n), names)
  {}

  lemma {:induction false} DeduplicateAtClosed(p: Nested, v: Json, d: Document, top: string)
    requires ClosedDocument(d) && WellFormed(v) && Closed(v, d.schemas.Keys) && (p.Properties? ==> BareIfRef(v))
    ensures WellFormed(DeduplicateAt(p, v, d, top)) && Closed(DeduplicateAt(p, v, d, top), d.schemas.Keys)
    decreases v, 1
  {
    hide ClosedDocument, Deduplicate, Match, Skipped, IsRef, HasRefString, Target, Elems, NoDup, NumChar, AsObject,
      Truthy, BareProperties, BareIfRef;
    var w := DeduplicateAt(p, v, d, top);
    if p.Properties? {
      if v.Obj? {
        if HasRefString(v) {
          BarePropertiesKept(v, d, top);
        } else {
          DeduplicateAtCases(p, v, d, top);
          ClosedNode(v, d.schemas.Keys);
          forall k | k in v.at ensures WellFormed(w.at[k]) && Closed(w.at[k], d.schemas.Keys) {
            DeduplicateClosed(v.at[k], d, top, false);
          }
          PropertiesKept(v, d, top);
          MapBare(v, d, top);
        }
      } else if v.Arr? {
        var u := Arr(seq(|v.items|, i requires 0 <= i < |v.items| => Deduplicate(v.items[i], d, top, false)));
        forall i | 0 <= i < |v.items| { DeduplicateClosed(v.items[i], d, top, false); }
        AsObjectClosed(u, d.schemas.Keys);
      } else {
        AsObjectClosed(v, d.schemas.Keys);
      }
    } else if p.Schema? {
      DeduplicateClosed(v, d, top, false);
    } else if p.SchemaList? && v.Arr? {
      forall i | 0 <= i < |v.items| { DeduplicateClosed(v.items[i], d, top, false); }
    }
  }

  // A property that is itself named `properties` stays bare, too.
  lemma MapBare(v: Json, d: Document, top: string)
    requires v.Obj? && BareProperties(v) && WellFormed(v) && forall k :: k in v.at ==> Closed(v.at[k], d.schemas.Keys)
    ensures BareProperties(DeduplicateAt(Properties, v, d, top))
  {
    hide Match, Deduplicate, BareIfRef, Closed;
    DeduplicateAtCases(Properties, v, d, top);
    if "properties" in v.at { DeduplicateBare(v.at["properties"], d, top); }
  }

  lemma PropertiesKept(v: Json, d: Document, top: string)
    requires v.Obj? && !HasRefString(v)
    ensures !HasRefString(DeduplicateAt(Properties, v, d, top)) && !IsRef(DeduplicateAt(Properties, v, d, top))
  {
    hide Match, Deduplicate;
    DeduplicateAtCases(Properties, v, d, top);
    if "$ref" in v.at { DeduplicateCases(v.at["$ref"], d, top, false); }
  }

  lemma CompressedBody(d: Document, x: string)
    requires ClosedDocument(d) && x in d.schemas
    ensures Body(Compressed(d)[x], d.schemas.Keys) && Compressed(d)[x] == Deduplicate(d.schemas[x], d, x, true)
    ensures Body(d.schemas[x], d.schemas.Keys)
  {
    hide Deduplicate, NoDup, Elems, Skipped, IsRef, HasRefString;
    var b := d.schemas[x];
    assert Body(b, d.schemas.Keys);
    DeduplicateClosed(b, d, x, true);
    if !Skipped(b) { NodeKept(b, d, x, true, d.schemas.Keys); }
    DeduplicateCases(b, d, x, true);
  }

  // Every reference of the compressed document resolves.
  lemma CompressCloses(d: Document)
    requires ClosedDocument(d)
    ensures ClosedDocument(Document(d.names, Compressed(d), d.rest))
  {
    hide Deduplicate, NoDup, Elems, Body;
    assert Compressed(d).Keys == d.schemas.Keys;
    forall x | x in d.schemas ensures Body(Compressed(d)[x], d.schemas.Keys) { CompressedBody(d, x); }
  }

  // ---------- the meaning is kept ----------

  lemma NotTupledNode(v: Json, d: Document, top: string, isRoot: bool)
    requires v.Obj? && !Skipped(v) && (isRoot || Match(v, d, top).None?) && !Tupled(v, d, top, isRoot)
    ensures forall k :: k in v.at ==> !TupledAt(NestedAt(k), v.at[k], d, top)
  {}

  lemma NotTupledAt(p: Nested, v: Json, d: Document, top: string)
    requires !TupledAt(p, v, d, top)
    ensures p.Properties? ==> !Truthy(v) || v.Obj?
    ensures p.Properties? && v.Obj? ==> forall k :: k in v.at ==> !Tupled(v.at[k], d, top, false)
    ensures p.Schema? ==> !Tupled(v, d, top, false)
    ensures p.SchemaList? && v.Arr? ==> forall i :: 0 <= i < |v.items| ==> !Tupled(v.items[i], d, top, false)
  {}

  // A value that the pass does not touch keeps its meaning, because what it refers to does.
  lemma {:induction false} KeptUnfolds(d: Document, l: Lens, v: Json, k: nat)
    requires ClosedDocument(d) && NoTuples(d) && Closed(v, d.schemas.Keys) && WellFormed(v)
    ensures Unfold(Compressed(d), l, v, k) == Unfold(d.schemas, l, v, k)
    decreases k, if HasRefString(v) then 3 else 0
  {
    hide ClosedDocument, NoTuples, Compressed, IsRef, HasRefString, Target, Unfold, Elems, NoDup, NumChar, Tupled,
      BareProperties, Below, Each;
    var s, t := d.schemas, Compressed(d);
    if HasRefString(v) {
      ClosedRef(v, s.Keys);
      TargetUnfolds(d, l, Target(v), k);
      if k > 0 { TargetUnfolds(d, l, Target(v), k - 1); }
      CarriedRef(t, v, s, v, l, k);
    } else if k == 0 {
      UnfoldCut(s, l, v);
      UnfoldCut(t, l, v);
    } else {
      SkippedRefs(v, s.Keys);
      match v {
        case Arr(xs) => forall i | 0 <= i < |xs| { KeptUnfolds(d, Each(l), xs[i], k - 1); }
        case Obj(_, m) => forall key | key in m { KeptUnfolds(d, Below(l, key), m[key], k - 1); }
        case _ =>
      }
      Congruence(t, v, s, v, l, k);
    }
  }

  // A named schema means what it meant before.
  lemma {:induction false} TargetUnfolds(d: Document, l: Lens, n: string, k: nat)
    requires ClosedDocument(d) && NoTuples(d) && n in d.schemas
    ensures n in Compressed(d) && !IsRef(d.schemas[n]) && !IsRef(Compressed(d)[n])
    ensures Unfold(Compressed(d), AtBody(l), Compressed(d)[n], k) == Unfold(d.schemas, AtBody(l), d.schemas[n], k)
    decreases k, 2
  {
    hide IsRef, HasRefString, Target, Unfold, Deduplicate, Elems, NoDup, Tupled, WellFormed, Closed;
    CompressedBody(d, n);
    assert !Tupled(d.schemas[n], d, n, true);
    DeduplicateUnfolds(d, AtBody(l), d.schemas[n], n, true, k);
  }

  lemma {:induction false} DeduplicateUnfolds(d: Document, l: Lens, v: Json, top: string, isRoot: bool, k: nat)
    requires ClosedDocument(d) && NoTuples(d) && Closed(v, d.schemas.Keys) && WellFormed(v) && l.view.OfSchema?
    requires !Tupled(v, d, top, isRoot) && (isRoot ==> !IsRef(v))
    ensures Unfold(Compressed(d), l, Deduplicate(v, d, top, isRoot), k) == Unfold(d.schemas, l, v, k)
    decreases k, if isRoot then 1 else 4
  {
    hide ClosedDocument, NoTuples, Compressed, Deduplicate, DeduplicateAt, Match, Skipped, NestedAt, IsRef,
      HasRefString, Target, Unfold, Elems, NoDup, NumChar, Truthy, Closed, TupledAt, Below, BareProperties, BareIfRef;
    var s, t, w := d.schemas, Compressed(d), Deduplicate(v, d, top, isRoot);
    SkippedRefs(v, s.Keys);
    DeduplicateCases(v, d, top, isRoot);
    if !(v.Obj? || v.Arr?) || Skipped(v) {
      KeptUnfolds(d, l, v, k);
    } else if !isRoot && Match(v, d, top).Some? {
      var n := Match(v, d, top).value;
      MatchIsCopy(v, d, top);
      assert l == AtBody(l);
      TargetUnfolds(d, l, n, k);
      BareBesides(n, l);
      UnfoldRef(t, l, MkRef(n), k);
    } else if k == 0 {
      UnfoldCut(s, l, v);
      UnfoldCut(t, l, w);
    } else {
      assert v.Obj?;
      NotTupledNode(v, d, top, isRoot);
      NodeKept(v, d, top, isRoot, s.Keys);
      ClosedNode(v, s.Keys);
      forall key | key in v.at
        ensures Unfold(t, Below(l, key), w.at[key], k - 1) == Unfold(s, Below(l, key), v.at[key], k - 1)
      {
        if NestedAt(key).Properties? { BarePositions(v, key); }
        NestedViews(l, key);
        DeduplicateAtUnfolds(d, Below(l, key), NestedAt(key), v.at[key], top, k - 1);
      }
      Congruence(t, w, s, v, l, k);
    }
  }

  lemma BareBesides(n: string, l: Lens)
    ensures Besides(MkRef(n), l) == {}
  {
    assert MkRef(n).at.Keys == {"$ref"};
  }

  /** What the pass rewrites stands where a schema, a list of schemas or a map of schemas does. */
  predicate ViewFits(p: Nested, l: Lens) {
    match p
    case Properties => l.view.OfSchemas?
    case Schema => l.view.OfSchema?
    case SchemaList => l.view.OfSchema?
    case Untouched => true
  }

  lemma NestedViews(l: Lens, key: string)
    requires l.view.OfSchema?
    ensures ViewFits(NestedAt(key), Below(l, key)) && Below(l, key).drop == l.drop
  {}

  lemma {:induction false} DeduplicateAtUnfolds(d: Document, l: Lens, p: Nested, v: Json, top: string, k: nat)
    requires ClosedDocument(d) && NoTuples(d) && Closed(v, d.schemas.Keys) && WellFormed(v) && !TupledAt(p, v, d, top)
    requires ViewFits(p, l) && (p.Properties? ==> BareIfRef(v))
    ensures Unfold(Compressed(d), l, DeduplicateAt(p, v, d, top), k) == Unfold(d.schemas, l, v, k)
    decreases k, 5
  {
    hide ClosedDocument, NoTuples, Compressed, Deduplicate, DeduplicateAt, Skipped, IsRef, HasRefString,
      Target, Unfold, Elems, NoDup, NumChar, Truthy, Tupled, TupledAt, BareProperties, BareIfRef, KeywordView;
    var s, t, w := d.schemas, Compressed(d), DeduplicateAt(p, v, d, top);
    NotTupledAt(p, v, d, top);
    DeduplicateAtCases(p, v, d, top);
    if p.Schema? {
      DeduplicateUnfolds(d, l, v, top, false, k);
    } else if p.Properties? && v.Obj? && HasRefString(v) {
      BarePropertiesKept(v, d, top);
      KeptUnfolds(d, l, v, k);
    } else if (p.Properties? && v.Obj?) || (p.SchemaList? && v.Arr?) {
      if k == 0 {
        UnfoldCut(s, l, v);
        UnfoldCut(t, l, w);
      } else {
        if v.Obj? { PropertiesKept(v, d, top); }
        NotObject(w);
        SkippedRefs(v, s.Keys);
        if v.Obj? {
          forall key | key in v.at { DeduplicateUnfolds(d, Below(l, key), v.at[key], top, false, k - 1); }
        } else {
          forall i | 0 <= i < |v.items| { DeduplicateUnfolds(d, Each(l), v.items[i], top, false, k - 1); }
        }
        Congruence(t, w, s, v, l, k);
      }
    } else {
      KeptUnfolds(d, l, v, k);
    }
  }

  lemma NotObject(v: Json)
    ensures !v.Obj? ==> !IsRef(v)
  {}

  // ---------- and only then ----------

  lemma KindsDiffer(s: Schemas, l: Lens, v: Json, t: Schemas, w: Json)
    requires !v.Obj? && w.Obj? && !IsRef(w)
    ensures Unfold(t, l, w, 1) != Unfold(s, l, v, 1)
  {
    UnfoldIsNode(t, l, w, 1);
    NotObject(v);
    UnfoldIsNode(s, l, v, 1);
    assert UnfoldNode(t, l, w, 1).Map?;
  }

  lemma KeyDiffers(s: Schemas, l: Lens, v: Json, t: Schemas, w: Json, key: string, k: nat)
    requires v.Obj? && w.Obj? && !IsRef(v) && !IsRef(w) && w.at.Keys == v.at.Keys && key in v.at && l.drop == {}
    requires Unfold(t, Below(l, key), w.at[key], k) != Unfold(s, Below(l, key), v.at[key], k)
    ensures Unfold(t, l, w, k + 1) != Unfold(s, l, v, k + 1)
  {
    hide Unfold, IsRef, Below;
    UnfoldObject(s, l, v, k + 1);
    UnfoldObject(t, l, w, k + 1);
    assert key in Kept(v.at.Keys, l) && key in Kept(w.at.Keys, l);
  }

  lemma ItemDiffers(s: Schemas, l: Lens, v: Json, t: Schemas, w: Json, i: nat, k: nat)
    requires v.Arr? && w.Arr? && |w.items| == |v.items| && i < |v.items|
    requires Unfold(t, Each(l), w.items[i], k) != Unfold(s, Each(l), v.items[i], k)
    ensures Unfold(t, l, w, k + 1) != Unfold(s, l, v, k + 1)
  {
    hide Each;
    UnfoldIsNode(t, l, w, k + 1);
    UnfoldIsNode(s, l, v, k + 1);
    assert UnfoldNode(t, l, w, k + 1).items[i] == Unfold(t, Each(l), w.items[i], k);
    assert UnfoldNode(s, l, v, k + 1).items[i] == Unfold(s, Each(l), v.items[i], k);
  }

  // A value that the pass turns into an object no longer unfolds as it did.
  lemma {:induction false} TupledDiffers(d: Document, l: Lens, v: Json, top: string, isRoot: bool) returns (k: nat)
    requires Closed(v, d.schemas.Keys) && WellFormed(v) && Tupled(v, d, top, isRoot) && l.drop == {}
    ensures Unfold(Compressed(d), l, Deduplicate(v, d, top, isRoot), k) != Unfold(d.schemas, l, v, k)
    decreases v, 0
  {
    hide Compressed, Deduplicate, DeduplicateAt, Match, Skipped, NestedAt, IsRef, HasRefString,
      Target, Unfold, Elems, NoDup, NumChar, Truthy, Closed, TupledAt, KeywordView;
    var s, t, w := d.schemas, Compressed(d), Deduplicate(v, d, top, isRoot);
    DeduplicateCases(v, d, top, isRoot);
    if v.Arr? {
      AsObjectClosed(v, s.Keys);
      KindsDiffer(s, l, v, t, w);
      k := 1;
    } else {
      var key :| key in v.at && TupledAt(NestedAt(key), v.at[key], d, top);
      NodeKept(v, d, top, isRoot, s.Keys);
      ClosedNode(v, s.Keys);
      if NestedAt(key).Properties? { BarePositions(v, key); }
      k := TupledAtDiffers(d, Below(l, key), NestedAt(key), v.at[key], top);
      KeyDiffers(s, l, v, t, w, key, k);
      k := k + 1;
    }
  }

  lemma {:induction false} TupledAtDiffers(d: Document, l: Lens, p: Nested, v: Json, top: string) returns (k: nat)
    requires Closed(v, d.schemas.Keys) && WellFormed(v) && TupledAt(p, v, d, top) && l.drop == {}
    requires p.Properties? ==> BareIfRef(v)
    ensures Unfold(Compressed(d), l, DeduplicateAt(p, v, d, top), k) != Unfold(d.schemas, l, v, k)
    decreases v, 1
  {
    hide Compressed, Deduplicate, DeduplicateAt, Skipped, IsRef, HasRefString, Target, Unfold, Elems, NoDup, NumChar,
      Truthy, Tupled, KeywordView, BareIfRef;
    var s, t, w := d.schemas, Compressed(d), DeduplicateAt(p, v, d, top);
    DeduplicateAtCases(p, v, d, top);
    TupledIsNoString(d, top);
    if p.Schema? {
      k := TupledDiffers(d, l, v, top, false);
    } else if p.SchemaList? {
      var i :| 0 <= i < |v.items| && Tupled(v.items[i], d, top, false);
      k := TupledDiffers(d, Each(l), v.items[i], top, false);
      ItemDiffers(s, l, v, t, w, i, k);
      k := k + 1;
    } else if v.Obj? {
      var key :| key in v.at && Tupled(v.at[key], d, top, false);
      NotBare(v, s.Keys, key);
      SkippedRefs(v, s.Keys);
      PropertiesKept(v, d, top);
      k := TupledDiffers(d, Below(l, key), v.at[key], top, false);
      KeyDiffers(s, l, v, t, w, key, k);
      k := k + 1;
    } else {
      PropertiesBecomeObject(v, d, top, s.Keys);
      KindsDiffer(s, l, v, t, w);
      k := 1;
    }
  }

  lemma TupledIsNoString(d: Document, top: string)
    ensures forall v :: Tupled(v, d, top, false) ==> !v.Str?
  {}

  lemma NotBare(v: Json, names: set<string>, key: string)
    requires v.Obj? && Closed(v, names) && BareIfRef(v) && key in v.at && !v.at[key].Str?
    ensures !HasRefString(v) && Closed(v.at[key], names)
  {}

  lemma PropertiesBecomeObject(v: Json, d: Document, top: string, names: set<string>)
    requires !v.Obj? && Truthy(v) && Closed(v, names) && WellFormed(v)
    ensures DeduplicateAt(Properties, v, d, top).Obj? && !IsRef(DeduplicateAt(Properties, v, d, top))
    ensures !HasRefString(DeduplicateAt(Properties, v, d, top))
  {
    hide Deduplicate, IsRef, HasRefString, AsObject;
    if v.Arr? {
      var u := Arr(seq(|v.items|, i requires 0 <= i < |v.items| => Deduplicate(v.items[i], d, top, false)));
      IndexedIsNoRef(|u.items|, u.items);
    } else {
      AsObjectClosed(v, names);
    }
  }

  lemma IndexedIsNoRef(n: nat, xs: seq<Json>)
    requires n == |xs|
    ensures !IsRef(AsObject(Arr(xs))) && !HasRefString(AsObject(Arr(xs)))
  {
    ByIndexKeys(xs);
    IndicesDistinct(n);
  }

  // Compressing keeps the meaning of every schema exactly when it meets no array in place of a
  // schema and no properties that are no object.
  lemma CompressKeepsMeaningIffNoTuples(d: Document)
    requires ClosedDocument(d)
    ensures NoTuples(d) <==>
      forall x :: x in d.schemas ==>
        SameMeaning(d.schemas, d.schemas[x], Compressed(d), Compressed(d)[x], SchemaLens({}))
  {
    hide Unfold, Deduplicate, ClosedDocument, Tupled, IsRef, WellFormed, Closed;
    var l := SchemaLens({});
    forall x | x in d.schemas
      ensures NoTuples(d) ==> SameMeaning(d.schemas, d.schemas[x], Compressed(d), Compressed(d)[x], l)
      ensures Tupled(d.schemas[x], d, x, true) ==>
        !SameMeaning(d.schemas, d.schemas[x], Compressed(d), Compressed(d)[x], l)
    {
      CompressedBody(d, x);
      if NoTuples(d) {
        forall k: nat ensures Unfold(d.schemas, l, d.schemas[x], k) == Unfold(Compressed(d), l, Compressed(d)[x], k) {
          DeduplicateUnfolds(d, l, d.schemas[x], x, true, k);
        }
      }
      if Tupled(d.schemas[x], d, x, true) {
        var k := TupledDiffers(d, l, d.schemas[x], x, true);
      }
    }
  }

  // Then everything outside the schemas keeps its meaning too, whatever keywords are disregarded.
  lemma CompressKeepsRest(d: Document, drop: set<string>)
    requires ClosedDocument(d) && NoTuples(d)
    ensures SameMeaning(d.schemas, d.rest, Compressed(d), d.rest, RestLens(drop))
    ensures forall x :: x in d.schemas ==>
      SameMeaning(d.schemas, d.schemas[x], Compressed(d), Compressed(d)[x], SchemaLens(drop))
  {
    hide Unfold, Deduplicate, Tupled, IsRef, RefClosed, NoDup;
    forall k: nat
      ensures Unfold(d.schemas, RestLens(drop), d.rest, k) == Unfold(Compressed(d), RestLens(drop), d.rest, k)
    {
      KeptUnfolds(d, RestLens(drop), d.rest, k);
    }
    hide WellFormed, Closed;
    forall x | x in d.schemas
      ensures SameMeaning(d.schemas, d.schemas[x], Compressed(d), Compressed(d)[x], SchemaLens(drop))
    {
      CompressedBody(d, x);
      forall k: nat
        ensures Unfold(d.schemas, SchemaLens(drop), d.schemas[x], k) ==
          Unfold(Compressed(d), SchemaLens(drop), Compressed(d)[x], k)
      {
        DeduplicateUnfolds(d, SchemaLens(drop), d.schemas[x], x, true, k);
      }
    }
  }

  // ---------- the new references descend ----------

  /** Somewhere in v the pass puts a reference to y. */
  predicate Adds(v: Json, d: Document, top: string, isRoot: bool, y: string)
    decreases v, 0
  {
    if !(v.Obj? || v.Arr?) || Skipped(v) then false
    else if !isRoot && Match(v, d, top).Some? then Match(v, d, top).value == y
    else v.Obj? && exists k :: k in v.at && AddsAt(NestedAt(k), v.at[k], d, top, y)
  }

  predicate AddsAt(p: Nested, v: Json, d: Document, top: string, y: string)
    decreases v, 1
  {
    match p
    case Properties =>
      (v.Obj? && exists k :: k in v.at && Adds(v.at[k], d, top, false, y)) ||
      (v.Arr? && exists i :: 0 <= i < |v.items| && Adds(v.items[i], d, top, false, y))
    case Schema => Adds(v, d, top, false, y)
    case SchemaList => v.Arr? && exists i :: 0 <= i < |v.items| && Adds(v.items[i], d, top, false, y)
    case Untouched => false
  }

  // An added reference goes to a copy of the part that it replaces.
  lemma {:induction false} AddsDescend(v: Json, d: Document, top: string, isRoot: bool, y: string)
    requires ClosedDocument(d) && WellFormed(v) && Adds(v, d, top, isRoot, y)
    ensures y in d.schemas && (d.schemas[y] < v || (!isRoot && d.schemas[y] == v))
    decreases v, 0
  {
    hide ClosedDocument, Match, Skipped, NestedAt, Elems, NoDup, NumChar, AddsAt;
    if !isRoot && Match(v, d, top).Some? {
      MatchIsCopy(v, d, top);
    } else {
      var k :| k in v.at && AddsAt(NestedAt(k), v.at[k], d, top, y);
      AddsAtDescend(NestedAt(k), v.at[k], d, top, y);
    }
  }

  lemma {:induction false} AddsAtDescend(p: Nested, v: Json, d: Document, top: string, y: string)
    requires ClosedDocument(d) && WellFormed(v) && AddsAt(p, v, d, top, y)
    ensures y in d.schemas && (d.schemas[y] < v || d.schemas[y] == v)
    decreases v, 1
  {
    hide ClosedDocument, Elems, NoDup, NumChar, Adds;
    if p.Schema? {
      AddsDescend(v, d, top, false, y);
    } else if v.Obj? {
      var k :| k in v.at && Adds(v.at[k], d, top, false, y);
      AddsDescend(v.at[k], d, top, false, y);
    } else {
      var i :| 0 <= i < |v.items| && Adds(v.items[i], d, top, false, y);
      AddsDescend(v.items[i], d, top, false, y);
    }
  }

  // Every reference of the result was there before or was added.
  lemma {:induction false} MentionedOrAdded(d: Document, v: Json, top: string, isRoot: bool, y: string)
    requires ClosedDocument(d) && WellFormed(v) && Closed(v, d.schemas.Keys)
    requires Mentions(Deduplicate(v, d, top, isRoot), y)
    ensures Mentions(v, y) || Adds(v, d, top, isRoot, y)
    decreases v, 0
  {
    hide ClosedDocument, Deduplicate, DeduplicateAt, Match, Skipped, NestedAt, IsRef, HasRefString, Target, Elems,
      NoDup, NumChar, AsObject, BareProperties, BareIfRef, AddsAt;
    var w := Deduplicate(v, d, top, isRoot);
    DeduplicateCases(v, d, top, isRoot);
    if !(v.Obj? || v.Arr?) || Skipped(v) {
    } else if !isRoot && Match(v, d, top).Some? {
    } else if v.Arr? {
      AsObjectMentions(v, d.schemas.Keys, y);
    } else {
      NodeKept(v, d, top, isRoot, d.schemas.Keys);
      ClosedNode(v, d.schemas.Keys);
      var k :| k in w.at && Mentions(w.at[k], y);
      if NestedAt(k).Properties? { BarePositions(v, k); }
      MentionedOrAddedAt(d, NestedAt(k), v.at[k], top, y);
    }
  }

  lemma AsObjectMentions(v: Json, names: set<string>, y: string)
    requires WellFormed(v) && Closed(v, names) && !v.Obj? && Mentions(AsObject(v), y)
    ensures v.Arr? && Mentions(v, y)
  {
    AsObjectClosed(v, names);
    hide IsRef, HasRefString, NoDup, NumChar, BareIfRef;
    match v
    case Arr(xs) => ByIndexKeys(xs);
    case Str(s) => ByIndexKeys(Chars(s));
    case _ =>
  }

  lemma {:induction false} MentionedOrAddedAt(d: Document, p: Nested, v: Json, top: string, y: string)
    requires ClosedDocument(d) && WellFormed(v) && Closed(v, d.schemas.Keys) && (p.Properties? ==> BareIfRef(v))
    requires Mentions(DeduplicateAt(p, v, d, top), y)
    ensures Mentions(v, y) || AddsAt(p, v, d, top, y)
    decreases v, 1
  {
    hide ClosedDocument, Deduplicate, Skipped, IsRef, HasRefString, Target, Elems, NoDup, NumChar, Truthy, AsObject,
      Adds, BareIfRef, BareProperties;
    var w := DeduplicateAt(p, v, d, top);
    DeduplicateAtCases(p, v, d, top);
    if p.Schema? {
      MentionedOrAdded(d, v, top, false, y);
    } else if p.Properties? && v.Obj? {
      if HasRefString(v) {
        BarePropertiesKept(v, d, top);
      } else {
        PropertiesKept(v, d, top);
        ClosedNode(v, d.schemas.Keys);
        var k :| k in w.at && Mentions(w.at[k], y);
        MentionedOrAdded(d, v.at[k], top, false, y);
      }
    } else if p.SchemaList? && v.Arr? {
      var i :| 0 <= i < |w.items| && Mentions(w.items[i], y);
      MentionedOrAdded(d, v.items[i], top, false, y);
    } else if w != v {
      PropertiesMention(d, v, top, y);
      if v.Arr? {
        var i :| 0 <= i < |v.items| && Mentions(Deduplicate(v.items[i], d, top, false), y);
        MentionedOrAdded(d, v.items[i], top, false, y);
      }
    }
  }

  lemma PropertiesMention(d: Document, v: Json, top: string, y: string)
    requires ClosedDocument(d) && WellFormed(v) && Closed(v, d.schemas.Keys) && !v.Obj? && Truthy(v)
    requires Mentions(DeduplicateAt(Properties, v, d, top), y)
    ensures v.Arr? && exists i :: 0 <= i < |v.items| && Mentions(Deduplicate(v.items[i], d, top, false), y)
  {
    hide ClosedDocument, Deduplicate, AsObject;
    if v.Arr? {
      var u := Arr(seq(|v.items|, i requires 0 <= i < |v.items| => Deduplicate(v.items[i], d, top, false)));
      forall i | 0 <= i < |v.items| { DeduplicateClosed(v.items[i], d, top, false); }
      AsObjectMentions(u, d.schemas.Keys, y);
    } else {
      AsObjectMentions(v, d.schemas.Keys, y);
    }
  }

  /** The pass puts a reference to y into x. */
  predicate NewEdge(d: Document, x: string, y: string) {
    x in d.schemas && Adds(d.schemas[x], d, x, true, y)
  }

  // A new reference goes to a schema that was a proper part of the one that now refers to it, and what
  // a compressed schema refers to without a new reference it referred to before.
  lemma NewEdgeDescends(d: Document, x: string, y: string)
    requires ClosedDocument(d) && x in d.schemas
    ensures NewEdge(d, x, y) ==> y in d.schemas && d.schemas[y] < d.schemas[x]
    ensures Mentions(Compressed(d)[x], y) ==> Mentions(d.schemas[x], y) || NewEdge(d, x, y)
  {
    hide Deduplicate, Mentions, NoDup, Elems, Adds;
    CompressedBody(d, x);
    if NewEdge(d, x, y) { AddsDescend(d.schemas[x], d, x, true, y); }
    if Mentions(Compressed(d)[x], y) { MentionedOrAdded(d, d.schemas[x], x, true, y); }
  }

  // So the new references form no cycle among themselves.
  lemma {:induction false} NewEdgesAcyclic(d: Document, path: seq<string>)
    requires ClosedDocument(d) && |path| >= 2
    requires forall i :: 0 <= i < |path| - 1 ==> NewEdge(d, path[i], path[i + 1])
    ensures path[|path| - 1] in d.schemas && path[0] in d.schemas && path[0] != path[|path| - 1]
    ensures d.schemas[path[|path| - 1]] < d.schemas[path[0]]
  {
    hide *;
    assert NewEdge(d, path[0], path[0 + 1]);
    NewEdgeFrom(d, path[0], path[1]);
    NewEdgeDescends(d, path[0], path[1]);
    if |path| > 2 {
      var rest := path[1..];
      forall i | 0 <= i < |rest| - 1 ensures NewEdge(d, rest[i], rest[i + 1]) {
        assert NewEdge(d, path[i + 1], path[i + 1 + 1]);
      }
      NewEdgesAcyclic(d, rest);
    }
  }

  lemma NewEdgeFrom(d: Document, x: string, y: string)
    requires NewEdge(d, x, y)
    ensures x in d.schemas
  {}
}
