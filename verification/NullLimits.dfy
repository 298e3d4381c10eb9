/** Schemas that the rewrite of null entries changes. */
module NullLimits {
  import opened Json
  import opened Documents
  import opened Acceptance
  import opened NullTypes
  import opened NullVerdicts

  function NullEntry(): (r: Json)
    ensures IsNullEntry(r)
  {
    Obj(["type"], map["type" := Str("null")])
  }

  function OneKey(key: string, w: Json): (r: Json)
    ensures r.Obj?
  {
    Obj([key], map[key := w])
  }

  // A null entry beside one entry of a plain type dissolves into that entry.
  lemma PairDissolves(obj: Json, key: string, e: Json)
    requires obj.Obj? && key in obj.at && obj.at[key] == Arr([NullEntry(), e]) && HasStringType(e) && "$ref" !in e.at
    ensures HasNullEntry(obj, key) && Merged(obj.at[key].items) == [WithNull(e)]
    ensures Convert(obj, key) == Assign(Delete(obj, key), WithNull(e))
  {
    hide Assign, Delete, IsNullEntry, HasStringType;
    var arr := [NullEntry(), e];
    assert NullIndex(arr) == 0;
    assert Spliced(arr) == [e];
    assert [e][0 := WithNull(e)] == [WithNull(e)];
  }

  lemma PairAccepting(s: Schemas, r: Rules, f: nat, e: Json, x: Json)
    ensures Accepting(s, r, f, [NullEntry(), e], x) == (if x.Null? then 1 else 0) + if Accepts(s, r, f, e, x) then
      1 else 0
  {
    hide Accepts, Accepting, IsNullEntry;
    NullEntryAccepts(s, r, f, NullEntry(), x);
    AcceptingAt(s, r, f, [], NullEntry(), [e], x);
    assert [NullEntry(), e] == [] + [NullEntry()] + [e] && [] + [e] == [e];
    OneEntry(s, r, f, e, x);
  }

  // Two standalone nulls under oneOf reject null; afterwards null is accepted.
  lemma TwoNullsUnderOneOf(s: Schemas, r: Rules, f: nat)
    ensures var v := OneKey("oneOf", Arr([NullEntry(), NullEntry()]));
      !Accepts(s, r, f, v, Null) && Accepts(s, r, f, Convert(v, "oneOf"), Null)
  {
    hide Accepts, Holds, Accepting, KeywordOf, Assign, Delete, Convert;
    var v := OneKey("oneOf", Arr([NullEntry(), NullEntry()]));
    PairDissolves(v, "oneOf", NullEntry());
    PairAccepting(s, r, f, NullEntry(), Null);
    NullEntryAccepts(s, r, f, NullEntry(), Null);
    WithNullAccepts(s, r, f, NullEntry(), Null);
    ListKeyword(s, r, f, v, "oneOf", Null);
    Rejecting(s, r, f, v, "oneOf", Null);
    UnwrappedAlone(s, r, f, "oneOf", WithNull(NullEntry()), Null);
  }

  lemma SameEntries(v: Json, w: Json)
    requires v.Obj? && w.Obj? && v.at == w.at
    ensures forall k :: k in v.at ==> Alike(v, w, k)
  {
    hide KeywordOf, KeywordView;
  }

  // Dissolving an entry into an object without other keys leaves the entry.
  lemma UnwrappedAlone(s: Schemas, r: Rules, f: nat, key: string, e: Json, x: Json)
    requires e.Obj?
    ensures forall w :: Accepts(s, r, f, Assign(Delete(OneKey(key, w), key), e), x) == Accepts(s, r, f, e, x)
  {
    hide Holds, Without;
    forall w ensures Accepts(s, r, f, Assign(Delete(OneKey(key, w), key), e), x) == Accepts(s, r, f, e, x) {
      var u := Assign(Delete(OneKey(key, w), key), e);
      assert u.at == e.at;
      SameEntries(u, e);
      AlikeHolds(s, r, f, u, e, x);
    }
  }

  // An entry that lists its values rejects null by that list too: the rewritten schema loses null
  // exactly when null is not on the list.
  lemma EnumeratedTargetLosesNull(s: Schemas, r: Rules, f: nat, values: seq<Json>)
    ensures var e := Obj(["type", "enum"], map["type" := Str("string"), "enum" := Arr(values)]);
      var v := OneKey("anyOf", Arr([NullEntry(), e]));
      Accepts(s, r, f, v, Null) && (Accepts(s, r, f, Convert(v, "anyOf"), Null) <==> Null in values)
  {
    var e := Obj(["type", "enum"], map["type" := Str("string"), "enum" := Arr(values)]);
    EnumDecides(s, r, f, WithNull(e), values);
    hide Accepts, Holds, Accepting, KeywordOf, Assign, Delete, Convert;
    var v := OneKey("anyOf", Arr([NullEntry(), e]));
    PairDissolves(v, "anyOf", e);
    PairAccepting(s, r, f, e, Null);
    ListKeyword(s, r, f, v, "anyOf", Null);
    OnlyKeyword(s, r, f, v, "anyOf", Null);
    UnwrappedAlone(s, r, f, "anyOf", WithNull(e), Null);
  }

  lemma EnumDecides(s: Schemas, r: Rules, f: nat, v: Json, values: seq<Json>)
    requires v.Obj? && v.at.Keys == {"type", "enum"} && v.at["type"] == Arr([Str("string"), Str("null")])
    requires v.at["enum"] == Arr(values)
    ensures Accepts(s, r, f, v, Null) <==> Null in values
  {
    TypeKeyword(s, r, f, v, Null);
    MergedType(r, "string", Null);
    assert KeywordOf("enum") == Enum;
    hide KeywordOf, TypeHolds, SameValue;
    forall w ensures SameValue(w, Null) <==> w == Null { NullIsAlone(w); }
    assert Holds(s, r, f, v, "enum", Null) <==> Null in values;
  }

  lemma NullIsAlone(w: Json)
    ensures SameValue(w, Null) <==> w == Null
  {}

  // A dissolved entry overwrites the type beside the list: a schema for strings turns into one for
  // numbers and null.
  lemma DissolvedTypeOverwrites(s: Schemas, r: Rules, f: nat, x: Json)
    requires x.Num?
    ensures var v := Wrapped("type", Str("string"), OneKey("type", Str("number")));
      !Accepts(s, r, f, v, x) && Accepts(s, r, f, Convert(v, "anyOf"), x)
  {
    hide *;
    TypeDissolves();
    StringsOnly(s, r, f, Wrapped("type", Str("string"), OneKey("type", Str("number"))), x);
    NumbersPass(s, r, f, Convert(Wrapped("type", Str("string"), OneKey("type", Str("number"))), "anyOf"), x);
  }

  lemma TypeDissolves()
    ensures var v := Wrapped("type", Str("string"), OneKey("type", Str("number")));
      "type" in v.at && v.at["type"] == Str("string") &&
      Convert(v, "anyOf").at == map["type" := Arr([Str("number"), Str("null")])]
  {
    var e := OneKey("type", Str("number"));
    var v := Wrapped("type", Str("string"), e);
    assert v.at.Keys == {"type", "anyOf"} && "type" != "anyOf" && "type" != "$ref";
    hide Convert, Without;
    PairDissolves(v, "anyOf", e);
  }

  lemma StringsOnly(s: Schemas, r: Rules, f: nat, v: Json, x: Json)
    requires x.Num? && v.Obj? && "type" in v.at && v.at["type"] == Str("string")
    ensures !Accepts(s, r, f, v, x)
  {
    TypeKeyword(s, r, f, v, x);
    assert "number" != "string" && "integer" != "string";
    hide Holds;
  }

  lemma NumbersPass(s: Schemas, r: Rules, f: nat, u: Json, x: Json)
    requires x.Num? && u.Obj? && u.at == map["type" := Arr([Str("number"), Str("null")])]
    ensures Accepts(s, r, f, u, x)
  {
    TypeKeyword(s, r, f, u, x);
    MergedType(r, "number", x);
    hide Holds, TypeHolds;
    assert u.at.Keys == {"type"};
    OnlyKeyword(s, r, f, u, "type", x);
  }

  /** A schema of type t with one more keyword. */
  function Entry(t: string, k: string, w: Json): (e: Json)
    ensures e.Obj?
  {
    Obj(["type", k], map["type" := Str(t), k := w])
  }

  /** A keyword beside a choice between null and an entry. */
  function Wrapped(k: string, w: Json, e: Json): (v: Json)
    ensures v.Obj?
  {
    Obj([k, "anyOf"], map[k := w, "anyOf" := Arr([NullEntry(), e])])
  }

  lemma WrappedDissolves(k: string, w: Json, t: string, b: string, c: Json)
    requires k != b && k != "type" && k != "anyOf" && b != "type" && b != "anyOf" && b != "$ref" && "type" != "$ref"
    ensures var u := Convert(Wrapped(k, w, Entry(t, b, c)), "anyOf");
      u.at == map[k := w, "type" := Arr([Str(t), Str("null")]), b := c] && u.at.Keys == {k, "type", b}
  {
    hide Convert, Without;
    var e := Entry(t, b, c);
    var v := Wrapped(k, w, e);
    assert v.at.Keys == {k, "anyOf"} && e.at.Keys == {"type", b};
    PairDissolves(v, "anyOf", e);
    var u := Convert(v, "anyOf");
    assert u.at.Keys == {k, "type", b};
    assert u.at == map[k := w, "type" := Arr([Str(t), Str("null")]), b := c];
  }

  // Dissolved properties change what additionalProperties beside the list rules out.
  lemma DissolvedPropertiesOpen(s: Schemas, r: Rules, f: nat, p: string)
    ensures var v := Wrapped("additionalProperties", Bool(false), Entry("object", "properties", OneKey(p, Bool(true))));
      !Accepts(s, r, f, v, OneKey(p, Null)) && Accepts(s, r, f, Convert(v, "anyOf"), OneKey(p, Null))
  {
    WrappedDissolves("additionalProperties", Bool(false), "object", "properties", OneKey(p, Bool(true)));
    var v := Wrapped("additionalProperties", Bool(false), Entry("object", "properties", OneKey(p, Bool(true))));
    hide Convert, Accepts;
    ClosedRejects(s, r, f, v, p);
    OpenAccepts(s, r, f, Convert(v, "anyOf"), p);
  }

  lemma ClosedRejects(s: Schemas, r: Rules, f: nat, v: Json, p: string)
    requires v.Obj? && "additionalProperties" in v.at && v.at["additionalProperties"] == Bool(false)
    requires "properties" !in v.at && "patternProperties" !in v.at
    ensures !Accepts(s, r, f, v, OneKey(p, Null))
  {
    var x := OneKey(p, Null);
    assert KeywordOf("additionalProperties") == AdditionalProperties;
    assert p in x.at && !IsNamed(r, v, p);
    hide KeywordOf, IsNamed;
    assert !Accepts(s, r, f, Bool(false), Null);
    assert !Holds(s, r, f, v, "additionalProperties", x);
  }

  // An object with the three keywords a, b and c.
  lemma ThreeKeywords(s: Schemas, r: Rules, f: nat, u: Json, a: string, b: string, c: string, x: Json)
    requires u.Obj? && u.at.Keys == {a, b, c} && Holds(s, r, f, u, a, x) && Holds(s, r, f, u, b, x)
    requires Holds(s, r, f, u, c, x)
    ensures Accepts(s, r, f, u, x)
  {
    hide Holds;
  }

  lemma PropertyPasses(s: Schemas, r: Rules, f: nat, u: Json, p: string, x: Json)
    requires u.Obj? && "properties" in u.at && u.at["properties"] == OneKey(p, Bool(true))
    ensures Holds(s, r, f, u, "properties", x)
  {
    assert KeywordOf("properties") == Properties;
    hide KeywordOf;
  }

  lemma OpenAccepts(s: Schemas, r: Rules, f: nat, u: Json, p: string)
    requires u.Obj? && u.at.Keys == {"type", "properties", "additionalProperties"}
    requires u.at["properties"] == OneKey(p, Bool(true)) && u.at["type"] == Arr([Str("object"), Str("null")])
    ensures Accepts(s, r, f, u, OneKey(p, Null))
  {
    var x := OneKey(p, Null);
    TypeKeyword(s, r, f, u, x);
    MergedType(r, "object", x);
    NamedAreSkipped(s, r, f, u, x);
    hide KeywordOf, TypeHolds, Holds;
    PropertyPasses(s, r, f, u, p, x);
    ThreeKeywords(s, r, f, u, "type", "properties", "additionalProperties", x);
  }

  // additionalProperties says nothing of an object whose names the properties and patterns beside it cover.
  lemma NamedAreSkipped(s: Schemas, r: Rules, f: nat, u: Json, x: Json)
    requires u.Obj? && x.Obj? && "additionalProperties" in u.at && forall p :: p in x.at ==> IsNamed(r, u, p)
    ensures Holds(s, r, f, u, "additionalProperties", x)
  {
    assert KeywordOf("additionalProperties") == AdditionalProperties;
    hide KeywordOf, IsNamed, Accepts;
  }

  // Where a schema asks for more beside the list, and an entry beside null rejects x, x is rejected.
  lemma EntryRejects(s: Schemas, r: Rules, f: nat, v: Json, e: Json, x: Json)
    requires v.Obj? && "anyOf" in v.at && v.at["anyOf"] == Arr([NullEntry(), e]) && !x.Null? && !Accepts(s, r, f, e, x)
    ensures !Accepts(s, r, f, v, x)
  {
    hide Holds, Accepting;
    PairAccepting(s, r, f, e, x);
    ListKeyword(s, r, f, v, "anyOf", x);
  }

  // A dissolved `items` no longer applies to the items that prefixItems beside the list takes care of.
  lemma DissolvedItemsSkipPrefix(s: Schemas, r: Rules, f: nat, a: string)
    ensures var e := Entry("array", "items", OneKey("type", Str("number")));
      var v := Wrapped("prefixItems", Arr([OneKey("type", Str("string"))]), e);
      !Accepts(s, r, f, v, Arr([Str(a)])) && Accepts(s, r, f, Convert(v, "anyOf"), Arr([Str(a)]))
  {
    WrappedDissolves("prefixItems", Arr([OneKey("type", Str("string"))]), "array", "items",
      OneKey("type", Str("number")));
    var e := Entry("array", "items", OneKey("type", Str("number")));
    var v := Wrapped("prefixItems", Arr([OneKey("type", Str("string"))]), e);
    hide Convert, Accepts;
    NumbersOnly(s, r, f, e, a);
    EntryRejects(s, r, f, v, e, Arr([Str(a)]));
    TupleAccepts(s, r, f, Convert(v, "anyOf"), a);
  }

  lemma NumbersOnly(s: Schemas, r: Rules, f: nat, e: Json, a: string)
    requires e.Obj? && "items" in e.at && e.at["items"] == OneKey("type", Str("number")) && "prefixItems" !in e.at
    ensures !Accepts(s, r, f, e, Arr([Str(a)]))
  {
    var x := Arr([Str(a)]);
    PrefixKeywords();
    NoText(s, r, f, a);
    hide KeywordOf, Accepts;
    assert x.items[0] == Str(a);
    assert !Holds(s, r, f, e, "items", x);
    Rejecting(s, r, f, e, "items", x);
  }

  lemma NoText(s: Schemas, r: Rules, f: nat, a: string)
    ensures !Accepts(s, r, f, OneKey("type", Str("number")), Str(a))
  {
    assert "number" != "string";
    TypeKeyword(s, r, f, OneKey("type", Str("number")), Str(a));
    hide Holds;
  }

  lemma PrefixKeywords()
    ensures KeywordOf("items") == Items && KeywordOf("prefixItems") == PrefixItems
  {}

  lemma TupleAccepts(s: Schemas, r: Rules, f: nat, u: Json, a: string)
    requires u.Obj? && u.at.Keys == {"prefixItems", "type", "items"} && u.at["type"] == Arr([Str("array"), Str("null")])
    requires u.at["prefixItems"] == Arr([OneKey("type", Str("string"))])
    ensures Accepts(s, r, f, u, Arr([Str(a)]))
  {
    var x, t := Arr([Str(a)]), OneKey("type", Str("string"));
    PrefixKeywords();
    TypeKeyword(s, r, f, u, x);
    MergedType(r, "array", x);
    TypeKeyword(s, r, f, t, Str(a));
    OnlyKeyword(s, r, f, t, "type", Str(a));
    hide KeywordOf, TypeHolds, Accepts;
    assert Holds(s, r, f, u, "items", x);
    assert Holds(s, r, f, u, "prefixItems", x);
    ThreeKeywords(s, r, f, u, "prefixItems", "type", "items", x);
  }

  // A dissolved additionalProperties no longer applies to what patternProperties beside the list matches.
  lemma DissolvedClosureSkipsPatterns(s: Schemas, r: Rules, f: nat, q: string, p: string)
    requires r.matches(q, p)
    ensures var e := Entry("object", "additionalProperties", Bool(false));
      var v := Wrapped("patternProperties", OneKey(q, Bool(true)), e);
      !Accepts(s, r, f, v, OneKey(p, Null)) && Accepts(s, r, f, Convert(v, "anyOf"), OneKey(p, Null))
  {
    WrappedDissolves("patternProperties", OneKey(q, Bool(true)), "object", "additionalProperties", Bool(false));
    var e := Entry("object", "additionalProperties", Bool(false));
    var v := Wrapped("patternProperties", OneKey(q, Bool(true)), e);
    hide Convert, Accepts;
    ClosedRejects(s, r, f, e, p);
    EntryRejects(s, r, f, v, e, OneKey(p, Null));
    MatchedAccepts(s, r, f, Convert(v, "anyOf"), q, p);
  }

  lemma PatternsPass(s: Schemas, r: Rules, f: nat, u: Json, q: string, x: Json)
    requires u.Obj? && "patternProperties" in u.at && u.at["patternProperties"] == OneKey(q, Bool(true))
    ensures Holds(s, r, f, u, "patternProperties", x)
  {
    assert KeywordOf("patternProperties") == PatternProperties;
    hide KeywordOf;
  }

  lemma MatchedAccepts(s: Schemas, r: Rules, f: nat, u: Json, q: string, p: string)
    requires r.matches(q, p) && u.Obj? && u.at.Keys == {"patternProperties", "type", "additionalProperties"}
    requires u.at["patternProperties"] == OneKey(q, Bool(true)) && u.at["type"] == Arr([Str("object"), Str("null")])
    ensures Accepts(s, r, f, u, OneKey(p, Null))
  {
    var x := OneKey(p, Null);
    TypeKeyword(s, r, f, u, x);
    MergedType(r, "object", x);
    assert q in Patterns(u) && IsNamed(r, u, p);
    NamedAreSkipped(s, r, f, u, x);
    hide KeywordOf, TypeHolds, Holds;
    PatternsPass(s, r, f, u, q, x);
    ThreeKeywords(s, r, f, u, "patternProperties", "type", "additionalProperties", x);
  }

  // A dissolved unevaluatedProperties no longer applies to what properties beside the list has evaluated.
  lemma DissolvedRestSeesBeside(s: Schemas, r: Rules, f: nat, p: string)
    ensures var e := Entry("object", "unevaluatedProperties", Bool(false));
      var v := Wrapped("properties", OneKey(p, Bool(true)), e);
      !Accepts(s, r, f, v, OneKey(p, Null)) && Accepts(s, r, f, Convert(v, "anyOf"), OneKey(p, Null))
  {
    WrappedDissolves("properties", OneKey(p, Bool(true)), "object", "unevaluatedProperties", Bool(false));
    var e := Entry("object", "unevaluatedProperties", Bool(false));
    var v := Wrapped("properties", OneKey(p, Bool(true)), e);
    hide Convert, Accepts;
    UnseenRejects(s, r, f, e, p);
    EntryRejects(s, r, f, v, e, OneKey(p, Null));
    SeenAccepts(s, r, f, Convert(v, "anyOf"), p);
  }

  lemma RestKeywords()
    ensures KeywordOf("unevaluatedProperties") == Unevaluated && KeywordOf("properties") == Properties
    ensures KeywordOf("type") == Type
  {
    KeywordsOf();
    assert KeywordOf("unevaluatedProperties") == Unevaluated;
    KeywordNames();
    hide KeywordOf;
  }

  lemma UnseenRejects(s: Schemas, r: Rules, f: nat, e: Json, p: string)
    requires e.Obj? && e.at.Keys == {"type", "unevaluatedProperties"} && e.at["unevaluatedProperties"] == Bool(false)
    ensures !Accepts(s, r, f, e, OneKey(p, Null))
  {
    var x := OneKey(p, Null);
    RestKeywords();
    assert !Accepts(s, r, f, Bool(false), Null);
    hide KeywordOf, Accepts, Sees;
    assert InPlace(x, Name(p)) && ValueAt(x, Name(p)) == Null && IsFor("unevaluatedProperties", Name(p));
    assert !Visible(s, r, f, e, x, Name(p));
    assert !Holds(s, r, f, e, "unevaluatedProperties", x);
    Rejecting(s, r, f, e, "unevaluatedProperties", x);
  }

  lemma SeenAccepts(s: Schemas, r: Rules, f: nat, u: Json, p: string)
    requires u.Obj? && u.at.Keys == {"properties", "type", "unevaluatedProperties"}
    requires u.at["properties"] == OneKey(p, Bool(true)) && u.at["type"] == Arr([Str("object"), Str("null")])
    ensures Accepts(s, r, f, u, OneKey(p, Null))
  {
    var x := OneKey(p, Null);
    TypeKeyword(s, r, f, u, x);
    MergedType(r, "object", x);
    PropertyPasses(s, r, f, u, p, x);
    RestHolds(s, r, f, u, p);
    hide *;
    ThreeKeywords(s, r, f, u, "properties", "type", "unevaluatedProperties", x);
  }

  lemma RestHolds(s: Schemas, r: Rules, f: nat, u: Json, p: string)
    requires u.Obj? && "unevaluatedProperties" in u.at && "properties" in u.at
    requires u.at["properties"] == OneKey(p, Bool(true))
    ensures Holds(s, r, f, u, "unevaluatedProperties", OneKey(p, Null))
  {
    var x := OneKey(p, Null);
    RestKeywords();
    hide KeywordOf, Accepts, Sees;
    forall q | InPlace(x, q) ensures Visible(s, r, f, u, x, q) || !IsFor("unevaluatedProperties", q) {
      if q.Name? { assert SeesBy(s, r, f, u, "properties", x, q); }
    }
  }

  lemma OnlyKeyword(s: Schemas, r: Rules, f: nat, v: Json, key: string, x: Json)
    requires v.Obj? && v.at.Keys == {key} && Holds(s, r, f, v, key, x)
    ensures Accepts(s, r, f, v, x)
  {
    hide Holds;
  }
}
