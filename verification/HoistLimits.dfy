/** A document that hoisting changes: schemas that differ only in a property named like an annotation. */
module HoistLimits {
  import opened Strings
  import opened Json
  import opened Documents
  import opened Fnv
  import opened Sums
  import opened Hoist
  import opened Reversal
  import opened Occurrences
  import opened HoistMeasure
  import opened HoistLoop
  import opened InlineBack
  import opened HoistShared

  // ---------- the document ----------

  function Typed(t: string): Json {
    Obj(["type"], map["type" := Str(t)])
  }

  function DescribedMap(t: string): Json {
    Obj(["description"], map["description" := Typed(t)])
  }

  /** A schema with the one property `description`, of type t. */
  function Described(t: string, pad: string): Json {
    Obj(["properties", "pattern"], map["properties" := DescribedMap(t), "pattern" := Str(pad)])
  }

  function Twice(v: Json): Json {
    Obj(["anyOf"], map["anyOf" := Arr([v, v])])
  }

  function Once(v: Json): Json {
    Obj(["items"], map["items" := v])
  }

  function TwoKinds(pad: string): Schemas {
    map["X" := Twice(Described("string", pad)), "Y" := Once(Described("number", pad))]
  }

  function TwoKindsDocument(pad: string): Document {
    Document(["X", "Y"], TwoKinds(pad), Null)
  }

  lemma TypedParts(t: string)
    ensures var v := Typed(t);
      WellFormed(v) && Closed(v, {}) && !HasRefString(v) && !IsRef(v) && "$ref" !in v.at && v.at.Keys == {"type"}
  {
    var v := Typed(t);
    assert Elems(v.keys) == {"type"} == v.at.Keys;
    assert "type" != "$ref" && "type" != "properties";
  }

  lemma DescribedMapParts(t: string)
    ensures var v := DescribedMap(t);
      WellFormed(v) && Closed(v, {}) && !HasRefString(v) && !IsRef(v) && v.at.Keys == {"description"}
  {
    hide Typed;
    TypedParts(t);
    var v := DescribedMap(t);
    assert Elems(v.keys) == {"description"} == v.at.Keys;
    assert "description" != "$ref" && "description" != "properties";
  }

  lemma DescribedParts(t: string, pad: string)
    ensures var v := Described(t, pad);
      WellFormed(v) && Closed(v, {}) && !HasRefString(v) && !IsRef(v) && "$ref" !in v.at &&
        v.at.Keys == {"properties", "pattern"}
  {
    DescribedMapParts(t);
    hide DescribedMap;
    var v := Described(t, pad);
    assert Elems(v.keys) == {"properties", "pattern"} == v.at.Keys;
    assert v.keys[0] != v.keys[1] by { assert "properties"[1] != "pattern"[1]; }
    assert "$ref" != "properties" && "$ref" != "pattern";
    assert BareProperties(v);
  }

  lemma TwiceParts(v: Json, names: set<string>)
    requires WellFormed(v) && Closed(v, names)
    ensures Body(Twice(v), names) && "$ref" !in Twice(v).at && !HasRefString(Twice(v))
  {
    PlainHolders(v);
    hide HasRefString, IsRef, BareProperties;
    var a := Twice(v);
    assert Elems(a.keys) == {"anyOf"} == a.at.Keys && "$ref" != "anyOf";
    assert WellFormed(Arr([v, v])) && Closed(Arr([v, v]), names);
  }

  lemma OnceParts(v: Json, names: set<string>)
    requires WellFormed(v) && Closed(v, names)
    ensures Body(Once(v), names) && "$ref" !in Once(v).at && !HasRefString(Once(v))
  {
    PlainHolders(v);
    hide HasRefString, IsRef, BareProperties;
    var a := Once(v);
    assert Elems(a.keys) == {"items"} == a.at.Keys && "$ref" != "items";
  }

  lemma PlainHolders(v: Json)
    ensures !HasRefString(Twice(v)) && !IsRef(Twice(v)) && BareProperties(Twice(v))
    ensures !HasRefString(Once(v)) && !IsRef(Once(v)) && BareProperties(Once(v))
  {
    assert Twice(v).at.Keys == {"anyOf"} && Once(v).at.Keys == {"items"};
    assert "$ref" != "anyOf" && "$ref" != "items" && "properties" != "anyOf" && "properties" != "items";
  }

  lemma TwoKindsClosed(pad: string)
    ensures ClosedDocument(TwoKindsDocument(pad))
    ensures TwoKinds(pad).Keys == {"X", "Y"} && "X" != "Y"
  {
    hide Described, Twice, Once, HasRefString, IsRef;
    var s := TwoKinds(pad);
    assert "X"[0] != "Y"[0];
    DescribedParts("string", pad);
    DescribedParts("number", pad);
    ClosedUnder(Described("string", pad), {}, s.Keys);
    ClosedUnder(Described("number", pad), {}, s.Keys);
    TwiceParts(Described("string", pad), s.Keys);
    OnceParts(Described("number", pad), s.Keys);
    assert Elems(["X", "Y"]) == {"X", "Y"};
  }

  // ---------- the two kinds have one form ----------

  function Form(pad: string): string {
    CanonicalForDedup(Described("string", pad))
  }

  lemma OneForm(t: string, pad: string)
    ensures CanonicalForDedup(Described(t, pad)) == Form(pad)
  {
    hide Described, CanonicalForDedup;
    DescribedParts(t, pad);
    DescribedParts("string", pad);
    DescribedShape(t, pad);
    DescribedShape("string", pad);
    CanonicalForDedupInjective(Described(t, pad), Described("string", pad));
  }

  lemma StrippedAt(v: Json, k: string)
    requires v.Obj? && k in v.at && k !in ANNOTATION_KEYS
    ensures Shape(v, STRIPPED).Map? && k in Shape(v, STRIPPED).at
    ensures Shape(v, STRIPPED).at[k] == Shape(v.at[k], STRIPPED)
  {
    hide KeywordView, ANNOTATION_KEYS;
  }

  lemma DescribedShape(t: string, pad: string)
    ensures Shape(Described(t, pad), STRIPPED) == Map(map["properties" := Map(map[]), "pattern" := Leaf(Str(pad))])
  {
    var v, p := Described(t, pad), DescribedMap(t);
    DescribedParts(t, pad);
    DescribedNames();
    NothingShown(p);
    hide ANNOTATION_KEYS, DescribedMap;
    StrippedAt(v, "properties");
    StrippedAt(v, "pattern");
    hide Shape;
    var at := Shape(v, STRIPPED).at;
    assert at.Keys == {"properties", "pattern"} by { StrippedKeysOf(v); }
    assert at["pattern"] == Leaf(Str(pad)) by { StringShape(pad); }
    assert at == map["properties" := Map(map[]), "pattern" := Leaf(Str(pad))];
  }

  lemma StringShape(pad: string)
    ensures Shape(Str(pad), STRIPPED) == Leaf(Str(pad))
  {}

  lemma DescribedNames()
    ensures "description" in ANNOTATION_KEYS && "properties" !in ANNOTATION_KEYS && "pattern" !in ANNOTATION_KEYS
  {}

  lemma NothingShown(p: Json)
    requires p.Obj? && p.at.Keys == {"description"}
    ensures Shape(p, STRIPPED) == Map(map[])
  {
    DescribedNames();
    hide ANNOTATION_KEYS, KeywordView;
    assert Shape(p, STRIPPED).at == map[];
  }

  lemma StrippedKeysOf(v: Json)
    requires v.Obj? && v.at.Keys == {"properties", "pattern"}
    ensures Shape(v, STRIPPED).Map? && Shape(v, STRIPPED).at.Keys == {"properties", "pattern"}
  {
    DescribedNames();
    hide ANNOTATION_KEYS, KeywordView;
  }

  lemma {:induction false} JoinIsLonger(parts: seq<string>, i: nat)
    requires i < |parts|
    ensures |Join(parts)| >= |parts[i]|
  {
    if |parts| > 1 && i > 0 { JoinIsLonger(parts[1..], i - 1); }
  }

  lemma {:induction false} EscapedIsLonger(s: string)
    ensures |EscapeAll(s)| >= |s|
  {
    hide Escape;
    if s != [] {
      EscapeLength(s[0]);
      EscapedIsLonger(s[1..]);
    }
  }

  // The text of an object is at least as long as that of each of its values.
  lemma ValueTextIsShorter(v: Json, k: string)
    requires v.Obj? && WellFormed(v) && k in v.at
    ensures |CanonicalJSON(v)| >= |CanonicalJSON(v.at[k])|
  {
    hide SortKeys, NoDup, Quote;
    SortKeysSorts(v.keys);
    var sorted := SortKeys(v.keys);
    assert k in Elems(sorted);
    var i :| 0 <= i < |sorted| && sorted[i] == k;
    var parts := seq(|sorted|, i requires 0 <= i < |sorted| =>
        if sorted[i] in v.at then Quote(sorted[i]) + [':'] + CanonicalJSON(v.at[sorted[i]]) else []);
    JoinIsLonger(parts, i);
    assert parts[i] == Quote(k) + [':'] + CanonicalJSON(v.at[k]);
    assert CanonicalJSON(v) == ['{'] + Join(parts) + ['}'];
  }

  lemma FormIsLong(pad: string)
    ensures |Form(pad)| >= |pad|
  {
    var v := Described("string", pad);
    DescribedParts("string", pad);
    hide Described;
    StripShape(v);
    var w := StripAnnotations(v);
    assert "pattern" in w.at && w.at["pattern"] == Str(pad) by { StrippedPattern(pad); }
    hide StripAnnotations;
    ValueTextIsShorter(w, "pattern");
    EscapedIsLonger(pad);
  }

  lemma StrippedPattern(pad: string)
    ensures var w := StripAnnotations(Described("string", pad));
      w.Obj? && "pattern" in w.at && w.at["pattern"] == Str(pad)
  {
    assert "pattern" !in ANNOTATION_KEYS;
    hide DescribedMap;
  }

  // ---------- what the scan finds ----------

  lemma TrivialMap(t: string, named: bool, prop: string)
    ensures Walk(Typed(t), named, prop, false) == []
  {
    var v := Typed(t);
    assert v.at.Keys == {"type"};
    assert !IsCandidate(v.at) by { TypedIsTrivial(t); }
    assert "$ref" != "type";
    NoWalkKeys(v);
    hide IsCandidate, WalkBelow;
  }

  lemma TypedIsTrivial(t: string)
    ensures IsTrivialSchemaShape(Typed(t).at)
  {
    assert Typed(t).at.Keys == {"type"};
    assert "type" != "properties" && "type" != "oneOf" && "type" != "anyOf" && "type" != "allOf" && "type" != "items";
  }

  lemma {:induction false} FlattenEmpty(parts: seq<seq<Occurrence>>)
    requires forall i :: 0 <= i < |parts| ==> parts[i] == []
    ensures Flatten(parts) == []
  {
    if parts != [] { FlattenEmpty(parts[1..]); }
  }

  // One walked key is all that the walk sees.
  lemma {:induction false} FlattenOne(parts: seq<seq<Occurrence>>, j: nat)
    requires j < |parts| && forall i :: 0 <= i < |parts| && i != j ==> parts[i] == []
    ensures Flatten(parts) == parts[j]
  {
    if j == 0 {
      FlattenEmpty(parts[1..]);
    } else {
      FlattenOne(parts[1..], j - 1);
    }
  }

  lemma NoWalkKeys(v: Json)
    requires v.Obj? && v.at.Keys == {"type"}
    ensures WalkBelow(v) == []
  {
    hide Walk;
    assert PositionOf("type") == Opaque;
    forall i | 0 <= i < |WALK_KEYS| ensures WalkKey(v, WALK_KEYS[i]) == [] { WalkKeysArePositions(WALK_KEYS[i]); }
    FlattenEmpty(seq(|WALK_KEYS|, i requires 0 <= i < |WALK_KEYS| => WalkKey(v, WALK_KEYS[i])));
  }

  // The walk of an object below one walked keyword.
  lemma OneWalkKey(v: Json, key: string)
    requires v.Obj? && key in v.at && PositionOf(key) != Opaque
    requires forall k :: k in v.at && k != key ==> PositionOf(k) == Opaque
    ensures WalkBelow(v) == WalkAt(PositionOf(key), v.at[key])
  {
    hide Walk, PositionOf, WalkAt;
    WalkKeysArePositions(key);
    var j :| 0 <= j < |WALK_KEYS| && WALK_KEYS[j] == key;
    WalkKeysDiffer();
    forall i | 0 <= i < |WALK_KEYS| && i != j ensures WalkKey(v, WALK_KEYS[i]) == [] {
      WalkKeysArePositions(WALK_KEYS[i]);
      assert WALK_KEYS[i] != key;
    }
    hide WALK_KEYS;
    FlattenOne(seq(|WALK_KEYS|, i requires 0 <= i < |WALK_KEYS| => WalkKey(v, WALK_KEYS[i])), j);
  }

  lemma WalkKeysDiffer()
    ensures forall i, j :: 0 <= i < j < |WALK_KEYS| ==> WALK_KEYS[i] != WALK_KEYS[j]
  {
    assert |WALK_KEYS[0]| == 10 && |WALK_KEYS[1]| == 5 && |WALK_KEYS[2]| == 20 && |WALK_KEYS[3]| == 13 &&
      |WALK_KEYS[4]| == 5
      && |WALK_KEYS[5]| == 5 && |WALK_KEYS[6]| == 5 && |WALK_KEYS[7]| == 3;
    assert WALK_KEYS[1][0] == 'i' && WALK_KEYS[4][0] == 'o' && WALK_KEYS[5][1] == 'n' && WALK_KEYS[6][1] == 'l';
    assert WALK_KEYS[5][0] == 'a' && WALK_KEYS[6][0] == 'a';
  }

  lemma DescribedBelow(t: string, pad: string)
    ensures WalkBelow(Described(t, pad)) == []
  {
    var v := Described(t, pad);
    assert v.at.Keys == {"properties", "pattern"};
    assert PositionOf("properties") == Properties && PositionOf("pattern") == Opaque;
    OneWalkKey(v, "properties");
    TrivialMap(t, true, "description");
    var w := DescribedMap(t);
    var parts := seq(|w.keys|, i requires 0 <= i < |w.keys| =>
          if w.keys[i] in w.at then Walk(w.at[w.keys[i]], true, w.keys[i], false) else []);
    assert parts == [[]];
    FlattenEmpty(parts);
    hide WalkBelow;
  }

  lemma DescribedWalk(t: string, pad: string)
    ensures Walk(Described(t, pad), false, "", false) == [Occurrence(false, "", Described(t, pad))]
    ensures Walk(Described(t, pad), false, "", true) == []
  {
    DescribedParts(t, pad);
    DescribedBelow(t, pad);
    DescribedIsCandidate(t, pad);
    assert Described(t, pad).Obj?;
    CandidateWalk(Described(t, pad));
  }

  lemma CandidateWalk(v: Json)
    requires v.Obj? && "$ref" !in v.at && IsCandidate(v.at) && WalkBelow(v) == []
    ensures Walk(v, false, "", false) == [Occurrence(false, "", v)] && Walk(v, false, "", true) == []
  {
    hide IsCandidate, WalkBelow;
  }

  lemma DescribedIsCandidate(t: string, pad: string)
    ensures IsCandidate(Described(t, pad).at)
  {
    var m := Described(t, pad).at;
    assert m.Keys == {"properties", "pattern"};
    assert "type" != "properties" && "type" != "pattern" && "anyOf" != "properties" && "anyOf" != "pattern";
    assert HasKeys(m, "properties");
    assert m.Keys != {"anyOf"} by { assert "properties" in m.Keys; }
  }

  lemma TwiceWalk(v: Json)
    ensures Walk(Twice(v), false, "", true) == Walk(v, false, "", false) + Walk(v, false, "", false)
  {
    var a := Twice(v);
    assert a.at.Keys == {"anyOf"} && "$ref" != "anyOf" && PositionOf("anyOf") == SchemaList;
    OneWalkKey(a, "anyOf");
    RootWalk(a);
    PairWalk(v);
    hide *;
  }

  lemma RootWalk(v: Json)
    requires v.Obj? && "$ref" !in v.at
    ensures Walk(v, false, "", true) == WalkBelow(v)
  {
    hide WalkBelow, IsCandidate;
    assert [] + WalkBelow(v) == WalkBelow(v);
  }

  lemma PairWalk(v: Json)
    ensures WalkAt(SchemaList, Arr([v, v])) == Walk(v, false, "", false) + Walk(v, false, "", false)
  {
    var xs := [v, v];
    var parts := seq(|xs|, i requires 0 <= i < |xs| => Walk(xs[i], false, "", false));
    assert parts == [Walk(v, false, "", false), Walk(v, false, "", false)];
    hide WalkBelow, IsCandidate;
    assert WalkAt(SchemaList, Arr(xs)) == Walk(Arr(xs), false, "", false) == Flatten(parts);
    hide *;
    TwoParts(Walk(v, false, "", false), Walk(v, false, "", false));
  }

  lemma TwoParts(a: seq<Occurrence>, b: seq<Occurrence>)
    ensures Flatten([a, b]) == a + b
  {
    assert [a, b][1..] == [b] && [b][1..] == [];
    assert Flatten([b]) == b + [];
  }

  lemma OnceWalk(v: Json)
    ensures Walk(Once(v), false, "", true) == Walk(v, false, "", false)
  {
    var a := Once(v);
    assert a.at.Keys == {"items"} && "$ref" != "items" && PositionOf("items") == Schema;
    OneWalkKey(a, "items");
    hide WalkBelow, IsCandidate;
    assert [] + Walk(v, false, "", false) == Walk(v, false, "", false);
  }

  lemma RefWalk(n: string)
    ensures Walk(MkRef(n), false, "", false) == []
  {}

  // All that the scan of the document reports.
  lemma TwoKindsScan(pad: string)
    ensures var a, b := Described("string", pad), Described("number", pad);
      Scan(["X", "Y"], TwoKinds(pad)) == [Occurrence(false, "", a), Occurrence(false, "", a), Occurrence(false, "", b)]
  {
    var a, b := Described("string", pad), Described("number", pad);
    TwoKindsClosed(pad);
    DescribedWalk("string", pad);
    DescribedWalk("number", pad);
    TwiceWalk(a);
    OnceWalk(b);
    hide Walk, Described, Twice, Once;
    var names, s := ["X", "Y"], TwoKinds(pad);
    var parts := seq(|names|,
      i requires 0 <= i < |names| => if names[i] in s then Walk(s[names[i]], false, "", true) else []);
    assert parts == [Walk(Twice(a), false, "", true), Walk(Once(b), false, "", true)];
    TwoParts(Walk(Twice(a), false, "", true), Walk(Once(b), false, "", true));
  }

  lemma TallyOfThree(o: Occurrence, p: Occurrence, c: string)
    requires CanonicalForDedup(o.node) == c && CanonicalForDedup(p.node) == c && !o.named && !p.named
    ensures TallyOf([o, o, p]) == map[c := Info(3, [], o.node)]
  {
    hide CanonicalForDedup;
    assert TallyOf([]) == map[];
    assert [o][..0] == [] && [o, o][..1] == [o] && [o, o, p][..2] == [o, o];
    assert TallyOf([o]) == map[c := Info(1, [], o.node)];
    assert TallyOf([o, o]) == map[c := Info(2, [], o.node)];
  }

  lemma TwoKindsTally(pad: string)
    ensures TallyOf(Scan(["X", "Y"], TwoKinds(pad))) == map[Form(pad) := Info(3, [], Described("string", pad))]
  {
    TwoKindsScan(pad);
    OneForm("string", pad);
    OneForm("number", pad);
    hide CanonicalForDedup, Scan, Described, Form;
    TallyOfThree(Occurrence(false, "", Described("string", pad)), Occurrence(false, "", Described("number", pad)),
      Form(pad));
  }

  // ---------- the one turn that the loop takes ----------

  lemma FormIsEligible(pad: string, propertyBase: seq<string> -> string, taken: set<string>)
    requires |pad| >= MIN_ANONYMOUS_HOIST_LENGTH
    ensures forall c :: Eligible(TallyOf(Scan(["X", "Y"], TwoKinds(pad))), c, taken, propertyBase) <==> c == Form(pad)
  {
    TwoKindsTally(pad);
    FormIsLong(pad);
    hide Scan, TallyOf, Form, Hash, TwoKinds;
    assert "Schema_" + Hash(Form(pad)) != "" by { assert |"Schema_" + Hash(Form(pad))| >= 7; }
  }

  /** The document after its one hoist. */
  function Merged(pad: string, n: string): Schemas {
    HoistOnce(TwoKinds(pad), Form(pad), n, Described("string", pad))
  }

  lemma MergedParts(pad: string, n: string)
    requires n !in TwoKinds(pad)
    ensures Merged(pad, n) == map["X" := Twice(MkRef(n)), "Y" := Once(MkRef(n)), n := Described("string", pad)]
  {
    TwoKindsClosed(pad);
    OneForm("number", pad);
    OneForm("string", pad);
    DescribedParts("string", pad);
    DescribedParts("number", pad);
    HolderRewrites(Described("string", pad), Form(pad), n);
    HolderRewrites(Described("number", pad), Form(pad), n);
    hide *;
    TwoHolders(pad);
    HoistTwo(Twice(Described("string", pad)), Once(Described("number", pad)), Form(pad), n, Described("string", pad));
    MergedIs(pad, n);
  }

  lemma TwoHolders(pad: string)
    ensures TwoKinds(pad) == map["X" := Twice(Described("string", pad)), "Y" := Once(Described("number", pad))]
  {}

  lemma MergedIs(pad: string, n: string)
    ensures Merged(pad, n) == HoistOnce(TwoKinds(pad), Form(pad), n, Described("string", pad))
  {}

  lemma HoistTwo(a: Json, b: Json, c: string, n: string, sample: Json)
    requires n != "X" && n != "Y" && "X" != "Y"
    ensures HoistOnce(map["X" := a, "Y" := b], c, n, sample) ==
      map["X" := RewriteSub(a, c, n, true), "Y" := RewriteSub(b, c, n, true), n := sample]
  {
    hide RewriteSub;
  }

  lemma HolderRewrites(v: Json, c: string, n: string)
    requires v.Obj? && "$ref" !in v.at && CanonicalForDedup(v) == c
    ensures RewriteSub(Twice(v), c, n, true) == Twice(MkRef(n)) && RewriteSub(Once(v), c, n, true) == Once(MkRef(n))
  {
    hide CanonicalForDedup, MkRef;
    assert PositionOf("anyOf") == SchemaList && PositionOf("items") == Schema && "$ref" != "anyOf" && "$ref" != "items";
    assert RewriteSub(v, c, n, false) == MkRef(n);
    assert RewriteSub(Arr([v, v]), c, n, false) == Arr([MkRef(n), MkRef(n)]);
    assert RewriteSub(Twice(v), c, n, true).at == Twice(MkRef(n)).at;
    assert RewriteSub(Once(v), c, n, true).at == Once(MkRef(n)).at;
  }

  lemma MergedScan(pad: string, n: string)
    requires n !in TwoKinds(pad)
    ensures Scan(["X", "Y", n], Merged(pad, n)) == []
  {
    MergedParts(pad, n);
    TwoKindsClosed(pad);
    DescribedWalk("string", pad);
    TwiceWalk(MkRef(n));
    OnceWalk(MkRef(n));
    RefWalk(n);
    hide *;
    ScanThree(Twice(MkRef(n)), Once(MkRef(n)), n, Described("string", pad));
  }

  lemma ScanThree(a: Json, b: Json, n: string, sample: Json)
    requires n != "X" && n != "Y" && "X" != "Y"
    requires Walk(a, false, "", true) == [] && Walk(b, false, "", true) == [] && Walk(sample, false, "", true) == []
    ensures Scan(["X", "Y", n], map["X" := a, "Y" := b, n := sample]) == []
  {
    hide Walk;
    var names, s := ["X", "Y", n], map["X" := a, "Y" := b, n := sample];
    FlattenEmpty(seq(|names|,
      i requires 0 <= i < |names| => if names[i] in s then Walk(s[names[i]], false, "", true) else []));
  }

  // A first turn hoists the form.
  lemma FirstTurn(pad: string, n: string, t: Schemas, propertyBase: seq<string> -> string, before: (string,
                  string) -> bool)
    requires |pad| >= MIN_ANONYMOUS_HOIST_LENGTH && Turn(["X", "Y"], TwoKinds(pad), n, t, propertyBase, before)
    ensures n !in TwoKinds(pad) && t == Merged(pad, n)
  {
    hide Scan, TallyOf, TwoKinds, HoistOnce, Eligible, Described, Form;
    FormIsEligible(pad, propertyBase, TwoKinds(pad).Keys);
    TwoKindsTally(pad);
  }

  // And a second turn there is not.
  lemma NoSecondTurn(pad: string, n: string, m: string, t: Schemas, propertyBase: seq<string> -> string,
                     before: (string, string) -> bool)
    requires n !in TwoKinds(pad)
    ensures !Turn(["X", "Y", n], Merged(pad, n), m, t, propertyBase, before)
  {
    MergedScan(pad, n);
    assert TallyOf([]) == map[];
    hide Scan, Merged;
  }

  // The state after the first of several turns.
  lemma {:induction false} TurnsBegin(d: Document, added: seq<string>, s: Schemas, propertyBase: seq<string> -> string,
                                      before: (string, string) -> bool) returns (r: Schemas, t: Schemas)
    requires TurnsTo(d, added, s, propertyBase, before) && |added| >= 2
    ensures TurnsTo(d, added[..1], r, propertyBase, before)
    ensures Turn(d.names + added[..1], r, added[1], t, propertyBase, before)
    decreases |added|
  {
    hide Turn;
    var earlier := added[..|added| - 1];
    var q :| TurnsTo(d, earlier, q, propertyBase, before) &&
      Turn(d.names + earlier, q, added[|added| - 1], s, propertyBase, before);
    if |added| == 2 {
      r, t := q, s;
    } else {
      r, t := TurnsBegin(d, earlier, q, propertyBase, before);
      assert earlier[..1] == added[..1];
    }
  }

  lemma OneTurn(d: Document, n: string, s: Schemas, propertyBase: seq<string> -> string, before: (string,
                string) -> bool)
    requires TurnsTo(d, [n], s, propertyBase, before)
    ensures Turn(d.names, d.schemas, n, s, propertyBase, before)
  {
    hide Turn;
    var added := [n];
    assert added[..|added| - 1] == [];
    assert d.names + [] == d.names;
  }

  // The loop takes exactly one turn.
  lemma TurnsOnce(pad: string, added: seq<string>, s: Schemas, propertyBase: seq<string> -> string, before: (string,
                  string) -> bool)
    requires |pad| >= MIN_ANONYMOUS_HOIST_LENGTH
    requires TurnsTo(TwoKindsDocument(pad), added, s, propertyBase, before)
    requires |added| == MAX_HOISTS || Settled(["X", "Y"] + added, s, propertyBase)
    ensures |added| == 1 && added[0] !in TwoKinds(pad) && s == Merged(pad, added[0])
  {
    assert MAX_HOISTS > 0;
    hide *;
    if added == [] {
      NoneTaken(pad, s, propertyBase, before);
      assert ["X", "Y"] + added == ["X", "Y"];
      StartsUnsettled(pad, propertyBase);
      assert false;
    } else if |added| == 1 {
      assert added == [added[0]];
      FirstOfTurns(pad, added[0], s, propertyBase, before);
    } else {
      TwoTaken(pad, added, s, propertyBase, before);
      assert false;
    }
  }

  lemma NoneTaken(pad: string, s: Schemas, propertyBase: seq<string> -> string, before: (string, string) -> bool)
    requires TurnsTo(TwoKindsDocument(pad), [], s, propertyBase, before)
    ensures s == TwoKinds(pad)
  {
    hide TwoKinds;
  }

  lemma FirstOfTurns(pad: string, n: string, s: Schemas, propertyBase: seq<string> -> string, before: (string,
                     string) -> bool)
    requires |pad| >= MIN_ANONYMOUS_HOIST_LENGTH
    requires TurnsTo(TwoKindsDocument(pad), [n], s, propertyBase, before)
    ensures n !in TwoKinds(pad) && s == Merged(pad, n)
  {
    hide TurnsTo, Turn, Merged, TwoKinds;
    OneTurn(TwoKindsDocument(pad), n, s, propertyBase, before);
    FirstTurn(pad, n, s, propertyBase, before);
  }

  lemma TwoTaken(pad: string, added: seq<string>, s: Schemas, propertyBase: seq<string> -> string, before: (string,
                 string) -> bool)
    requires |pad| >= MIN_ANONYMOUS_HOIST_LENGTH && |added| >= 2
    ensures !TurnsTo(TwoKindsDocument(pad), added, s, propertyBase, before)
  {
    hide TurnsTo, Turn, Merged, TwoKinds;
    var d := TwoKindsDocument(pad);
    if TurnsTo(d, added, s, propertyBase, before) {
      var r, t := TurnsBegin(d, added, s, propertyBase, before);
      assert added[..1] == [added[0]];
      FirstOfTurns(pad, added[0], r, propertyBase, before);
      assert d.names + [added[0]] == ["X", "Y", added[0]];
      NoSecondTurn(pad, added[0], added[1], t, propertyBase, before);
      assert false;
    }
  }

  lemma StartsUnsettled(pad: string, propertyBase: seq<string> -> string)
    requires |pad| >= MIN_ANONYMOUS_HOIST_LENGTH
    ensures !Settled(["X", "Y"], TwoKinds(pad), propertyBase)
  {
    hide Scan, TallyOf, TwoKinds, Eligible, Form;
    FormIsEligible(pad, propertyBase, TwoKinds(pad).Keys);
    assert Eligible(TallyOf(Scan(["X", "Y"], TwoKinds(pad))), Form(pad), TwoKinds(pad).Keys, propertyBase);
  }

  // ---------- what it does to the meaning ----------

  lemma MergedRefCount(pad: string, n: string)
    requires n !in TwoKinds(pad)
    ensures RefCount(Merged(pad, n), Null, n) >= 2
  {
    MergedParts(pad, n);
    TwoKindsClosed(pad);
    TwiceCounts(n);
    hide Merged, CountRefs, Twice, Once, Described;
    assert "X" in Merged(pad, n) && Merged(pad, n)["X"] == Twice(MkRef(n));
    HoistMeasure.TotalHas(BodyCounts(Merged(pad, n), n), "X");
  }

  lemma TwiceCounts(n: string)
    ensures CountRefs(Twice(MkRef(n)), n) == 2
  {
    var v := Twice(MkRef(n));
    PlainHolders(MkRef(n));
    var xs := Arr([MkRef(n), MkRef(n)]);
    hide IsRef, HasRefString;
    NodeCounts(v, n);
    RefCounts(MkRef(n), n);
    ArrayCounts(n);
    hide CountRefs;
    var m := KeyCounts(v, n);
    assert m.Keys == {"anyOf"} && m["anyOf"] == 2;
    TotalWithout(m, "anyOf");
    assert (m - {"anyOf"}).Keys == {};
  }

  lemma ArrayCounts(n: string)
    ensures CountRefs(Arr([MkRef(n), MkRef(n)]), n) == 2
  {
    var v := Arr([MkRef(n), MkRef(n)]);
    ArrayIsNoRef(v);
    NotRef(v);
    NodeCounts(v, n);
    RefCounts(MkRef(n), n);
    hide CountRefs, MkRef;
    var s := ItemCounts(v, n);
    assert s == [1, 1];
    assert s[1..] == [1] && s[1..][1..] == [];
    assert SumSeq(s[1..]) == 1;
  }

  // Schemas whose property `description` has different types mean different things.
  lemma DescribedDiffer(s: Schemas, t: Schemas, pad: string)
    ensures !SameMeaning(s, Described("number", pad), t, Described("string", pad), SENSE)
  {
    var v, w := Described("number", pad), Described("string", pad);
    assert "number"[0] != "string"[0];
    if SameMeaning(s, v, t, w, SENSE) {
      DescribedParts("number", pad);
      DescribedParts("string", pad);
      DescribedMapParts("number");
      DescribedMapParts("string");
      TypedParts("number");
      TypedParts("string");
      DescribedLenses();
      DescribedEntry("number", pad);
      DescribedEntry("string", pad);
      hide *;
      var l := Lens(OfSchemas, ANNOTATION_KEYS);
      EntryMeansAlike(s, v, t, w, SENSE, "properties");
      EntryMeansAlike(s, DescribedMap("number"), t, DescribedMap("string"), l, "description");
      EntryMeansAlike(s, Typed("number"), t, Typed("string"), SENSE, "type");
      TextsMeanAlike(s, "number", t, "string", Below(SENSE, "type"));
      assert false;
    }
  }

  lemma DescribedEntry(t: string, pad: string)
    ensures Described(t, pad).at["properties"] == DescribedMap(t) && DescribedMap(t).at["description"] == Typed(t)
    ensures Typed(t).at["type"] == Str(t)
    ensures Described(t, pad).Obj? && DescribedMap(t).Obj? && Typed(t).Obj?
  {}

  lemma EntryMeansAlike(s: Schemas, v: Json, t: Schemas, w: Json, l: Lens, k: string)
    requires v.Obj? && w.Obj? && !IsRef(v) && !IsRef(w) && SameMeaning(s, v, t, w, l)
    requires k in v.at && k in w.at && !Drops(l, k)
    ensures SameMeaning(s, v.at[k], t, w.at[k], Below(l, k))
  {
    hide IsRef, SameMeaning, Below, Drops;
    UnfoldInverts(s, v, t, w, l);
  }

  lemma TextsMeanAlike(s: Schemas, a: string, t: Schemas, b: string, l: Lens)
    requires SameMeaning(s, Str(a), t, Str(b), l)
    ensures a == b
  {
    hide SameMeaning;
    UnfoldInverts(s, Str(a), t, Str(b), l);
  }

  lemma DescribedLenses()
    ensures Below(SENSE, "properties") == Lens(OfSchemas, ANNOTATION_KEYS) && !Drops(SENSE, "properties")
    ensures Below(Lens(OfSchemas, ANNOTATION_KEYS), "description") == SENSE
    ensures !Drops(Lens(OfSchemas, ANNOTATION_KEYS), "description")
    ensures !Drops(SENSE, "type")
  {
    DescribedNames();
    assert "type" !in ANNOTATION_KEYS;
  }

  lemma MergedDiffers(pad: string, n: string)
    requires n !in TwoKinds(pad)
    ensures "Y" in Merged(pad, n) && "Y" in TwoKinds(pad)
    ensures !SameMeaning(TwoKinds(pad), TwoKinds(pad)["Y"], Merged(pad, n), Merged(pad, n)["Y"], SENSE)
  {
    MergedParts(pad, n);
    TwoKindsClosed(pad);
    var s, t := TwoKinds(pad), Merged(pad, n);
    assert s["Y"] == Once(Described("number", pad)) && t["Y"] == Once(MkRef(n));
    if SameMeaning(s, s["Y"], t, t["Y"], SENSE) {
      hide Described, Merged, TwoKinds;
      ItemsMeanAlike(s, Described("number", pad), t, MkRef(n));
      assert n in t && t[n] == Described("string", pad);
      DescribedParts("string", pad);
      RefMeansTarget(s, Described("number", pad), t, n);
      DescribedDiffer(s, t, pad);
    }
  }

  lemma ItemsMeanAlike(s: Schemas, v: Json, t: Schemas, w: Json)
    requires SameMeaning(s, Once(v), t, Once(w), SENSE)
    ensures SameMeaning(s, v, t, w, SENSE)
  {
    PlainHolders(v);
    PlainHolders(w);
    assert !Drops(SENSE, "items") &&
      Below(SENSE, "items") == SENSE by { PositionLens("items"); assert PositionOf("items") == Schema; }
    hide IsRef, HasRefString, SameMeaning, SENSE;
    UnfoldInverts(s, Once(v), t, Once(w), SENSE);
    assert "items" in Kept(Once(v).at.Keys, SENSE);
  }

  lemma RefMeansTarget(s: Schemas, v: Json, t: Schemas, n: string)
    requires n in t && !IsRef(t[n]) && SameMeaning(s, v, t, MkRef(n), SENSE)
    ensures SameMeaning(s, v, t, t[n], SENSE)
  {
    SenseLens();
    BareBesides(n);
    hide IsRef, Unfold, SENSE, Besides;
    forall k: nat ensures Unfold(s, SENSE, v, k) == Unfold(t, SENSE, t[n], k) { UnfoldRef(t, SENSE, MkRef(n), k); }
  }

  lemma BareBesides(n: string)
    ensures Besides(MkRef(n), SENSE) == {}
  {
    assert MkRef(n).at.Keys == {"$ref"};
  }

  lemma KeptMeaning(d: Document, out: Document, x: string)
    requires KeepsAll(d, out) && x in d.schemas
    ensures x in out.schemas && SameMeaning(d.schemas, d.schemas[x], out.schemas, out.schemas[x], SENSE)
  {
    SenseLens();
    hide SameMeaning;
    assert Keeps(d, out, map[], x, ANNOTATION_KEYS);
  }

  // Whatever the pass makes of this document, it does not keep all meaning: Y's items had a property
  // `description` of type number, and now it is of type string.
  lemma HoistingLosesMeaning(pad: string, out: Document, propertyBase: seq<string> -> string, before: (string,
                             string) -> bool)
    requires |pad| >= MIN_ANONYMOUS_HOIST_LENGTH && PassesTo(TwoKindsDocument(pad), out, propertyBase, before)
    ensures ClosedDocument(TwoKindsDocument(pad)) && !KeepsAll(TwoKindsDocument(pad), out)
  {
    TwoKindsClosed(pad);
    hide TurnsTo, Settled, Merged, RefCount, ClosedDocument, SameMeaning, TwoKinds;
    var d := TwoKindsDocument(pad);
    var added, s :| TurnsTo(d, added, s, propertyBase, before) &&
      (|added| == MAX_HOISTS || Settled(d.names + added, s, propertyBase)) &&
      ((forall x :: x in added ==> RefCount(s, d.rest, x) >= 2) ==> out == Document(d.names + added, s, d.rest));
    TurnsOnce(pad, added, s, propertyBase, before);
    MergedRefCount(pad, added[0]);
    MergedDiffers(pad, added[0]);
    if KeepsAll(d, out) {
      KeptMeaning(d, out, "Y");
      assert false;
    }
  }
}
