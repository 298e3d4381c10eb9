/** What a schema accepts: JSON Schema 2020-12, keyword by keyword. */
module Acceptance {
  import opened Strings
  import opened Json
  import opened Documents

  datatype Keyword =
    | Type | Enum | Const | Annotation | Definitions | Ref
    // schemas for the value itself
    | AnyOf | OneOf | AllOf | Not | If | Then | Else | DependentSchemas
    // schemas for its properties and items
    | Properties | PatternProperties | AdditionalProperties | PropertyNames
    | PrefixItems | Items | Contains | ContainsBound
    | Unevaluated | Other

  function KeywordOf(k: string): Keyword {
    if k == "type" then Type
    else if k == "enum" then Enum
    else if k == "const" then Const
    else if k in ANNOTATION_KEYS then Annotation
    else if k == "$defs" || k == "definitions" || k == "contentSchema" then Definitions
    else if k == "$ref" then Ref
    else if k == "anyOf" then AnyOf
    else if k == "oneOf" then OneOf
    else if k == "allOf" then AllOf
    else if k == "not" then Not
    else if k == "if" then If
    else if k == "then" then Then
    else if k == "else" then Else
    else if k == "dependentSchemas" then DependentSchemas
    else if k == "properties" then Properties
    else if k == "patternProperties" then PatternProperties
    else if k == "additionalProperties" then AdditionalProperties
    else if k == "propertyNames" then PropertyNames
    else if k == "prefixItems" then PrefixItems
    else if k == "items" then Items
    else if k == "contains" then Contains
    else if k == "minContains" || k == "maxContains" then ContainsBound
    else if k == "unevaluatedItems" || k == "unevaluatedProperties" then Unevaluated
    else Other
  }

  /** What is left open: which numbers are integers, which names match a pattern, what the bounds of
      `contains` admit, and the verdict of every other keyword on its own value. */
  datatype Rules = Rules(
    integral: string -> bool,
    matches: (string, string) -> bool,
    atLeast: (Json, nat) -> bool,
    atMost: (Json, nat) -> bool,
    other: (string, Json, Json) -> bool)

  predicate HasType(r: Rules, t: string, x: Json) {
    match x
    case Null => t == "null"
    case Bool(_) => t == "boolean"
    case Num(l) => t == "number" || (t == "integer" && r.integral(l))
    case Str(_) => t == "string"
    case Arr(_) => t == "array"
    case Obj(_, _) => t == "object"
  }

  predicate TypeHolds(r: Rules, w: Json, x: Json) {
    match w
    case Str(t) => HasType(r, t, x)
    case Arr(ts) => exists i :: 0 <= i < |ts| && ts[i].Str? && HasType(r, ts[i].s, x)
    case _ => false
  }

  /** Equality of JSON values, in which the order of keys does not matter. */
  ghost predicate SameValue(v: Json, x: Json) {
    Shape(v, EXACT) == Shape(x, EXACT)
  }

  // ---------- neighbours: keywords that another keyword's verdict depends on ----------

  function At(v: Json, k: string): Option<Json>
    requires v.Obj?
  {
    if k in v.at then Some(v.at[k]) else None
  }

  // The keys of the object under k.
  function KeysAt(v: Json, k: string): set<string>
    requires v.Obj?
  {
    if k in v.at && v.at[k].Obj? then v.at[k].at.Keys else {}
  }

  function PropertyKeys(v: Json): set<string>
    requires v.Obj?
  {
    KeysAt(v, "properties")
  }

  function Patterns(v: Json): set<string>
    requires v.Obj?
  {
    KeysAt(v, "patternProperties")
  }

  /** A property name that additionalProperties passes over. */
  predicate IsNamed(r: Rules, v: Json, p: string)
    requires v.Obj?
  {
    p in PropertyKeys(v) || exists q :: q in Patterns(v) && r.matches(q, p)
  }

  /** How many items prefixItems takes care of. */
  function PrefixLength(v: Json): nat
    requires v.Obj?
  {
    if "prefixItems" in v.at && v.at["prefixItems"].Arr? then |v.at["prefixItems"].items| else 0
  }

  /** n items are as many as `contains` asks for. */
  predicate Enough(r: Rules, v: Json, n: nat)
    requires v.Obj?
  {
    && (if "minContains" in v.at then r.atLeast(v.at["minContains"], n) else n >= 1)
    && ("maxContains" in v.at ==> r.atMost(v.at["maxContains"], n))
  }

  /** The applicators of v. */
  function Applied(v: Json): map<string, Json>
    requires v.Obj?
  {
    map k | k in v.at && (k == "$ref" || !KeywordView(k).OfData?) :: v.at[k]
  }

  /** A keyword of kind k has the same neighbours in v and in w. */
  predicate SameNeighbours(k: Keyword, v: Json, w: Json)
    requires v.Obj? && w.Obj?
  {
    match k
    case AdditionalProperties => PropertyKeys(v) == PropertyKeys(w) && Patterns(v) == Patterns(w)
    case Items => PrefixLength(v) == PrefixLength(w)
    case Contains => At(v, "minContains") == At(w, "minContains") && At(v, "maxContains") == At(w, "maxContains")
    case Then => At(v, "if") == At(w, "if")
    case Else => At(v, "if") == At(w, "if")
    case Unevaluated => Applied(v) == Applied(w)
    case _ => true
  }

  // ---------- verdicts ----------

  /** A property or an item of a value. */
  datatype Place = Name(name: string) | Index(i: nat)

  predicate InPlace(x: Json, p: Place) {
    match p
    case Name(n) => x.Obj? && n in x.at
    case Index(i) => x.Arr? && i < |x.items|
  }

  function ValueAt(x: Json, p: Place): Json
    requires InPlace(x, p)
  {
    match p
    case Name(n) => x.at[n]
    case Index(i) => x.items[i]
  }

  /** The places that unevaluatedProperties and unevaluatedItems are for. */
  predicate IsFor(k: string, p: Place) {
    k == "unevaluatedProperties" <==> p.Name?
  }

  /** The value x is valid against the schema v, following at most f references in a row. */
  ghost predicate Accepts(s: Schemas, r: Rules, f: nat, v: Json, x: Json)
    decreases f, v, 4
  {
    match v
    case Bool(b) => b
    case Obj(_, m) => forall k :: k in m ==> Holds(s, r, f, v, k, x)
    case _ => false
  }

  /** The schema v accepts x and has evaluated what is at p. */
  ghost predicate Sees(s: Schemas, r: Rules, f: nat, v: Json, x: Json, p: Place)
    decreases f, v, 5
  {
    && InPlace(x, p) && v.Obj? && Accepts(s, r, f, v, x)
    && (Visible(s, r, f, v, x, p) || exists k :: k in v.at && KeywordOf(k) == Unevaluated && IsFor(k, p))
  }

  /** Some keyword of v, other than those for what is unevaluated, has evaluated what is at p. */
  ghost predicate Visible(s: Schemas, r: Rules, f: nat, v: Json, x: Json, p: Place)
    requires v.Obj? && InPlace(x, p)
    decreases f, v, 2
  {
    exists k :: k in v.at && SeesBy(s, r, f, v, k, x, p)
  }

  /** The keyword k of v has evaluated what is at p. */
  ghost predicate SeesBy(s: Schemas, r: Rules, f: nat, v: Json, k: string, x: Json, p: Place)
    requires v.Obj? && k in v.at && InPlace(x, p)
    decreases f, v, 1
  {
    var w := v.at[k];
    match KeywordOf(k)
    case Ref => IsRef(v) && Target(v) in s && f > 0 && Sees(s, r, f - 1, s[Target(v)], x, p)
    case AnyOf => w.Arr? && SomeSees(s, r, f, w, x, p)
    case OneOf => w.Arr? && SomeSees(s, r, f, w, x, p)
    case AllOf => w.Arr? && SomeSees(s, r, f, w, x, p)
    case If => Sees(s, r, f, w, x, p)
    case Then => "if" in v.at && Accepts(s, r, f, v.at["if"], x) && Sees(s, r, f, w, x, p)
    case Else => "if" in v.at && !Accepts(s, r, f, v.at["if"], x) && Sees(s, r, f, w, x, p)
    case DependentSchemas => w.Obj? && x.Obj? && exists q :: q in w.at && q in x.at && Sees(s, r, f, w.at[q], x, p)
    case Properties => p.Name? && w.Obj? && p.name in w.at
    case PatternProperties => p.Name? && w.Obj? && exists q :: q in w.at && r.matches(q, p.name)
    case AdditionalProperties => p.Name? && !IsNamed(r, v, p.name)
    case PrefixItems => p.Index? && w.Arr? && p.i < |w.items|
    case Items => p.Index? && PrefixLength(v) <= p.i
    case Contains => p.Index? && Accepts(s, r, f, w, ValueAt(x, p))
    case _ => false
  }

  // Some entry of a list has.
  ghost predicate SomeSees(s: Schemas, r: Rules, f: nat, w: Json, x: Json, p: Place)
    requires w.Arr?
    decreases f, w, 0
  {
    exists i :: 0 <= i < |w.items| && Sees(s, r, f, w.items[i], x, p)
  }

  /** The keyword k of v has nothing against x. */
  ghost predicate Holds(s: Schemas, r: Rules, f: nat, v: Json, k: string, x: Json)
    requires v.Obj? && k in v.at
    decreases f, v, 3
  {
    var w := v.at[k];
    match KeywordOf(k)
    case Type => TypeHolds(r, w, x)
    case Enum => if w.Arr? then exists i :: 0 <= i < |w.items| && SameValue(w.items[i], x) else r.other(k, w, x)
    case Const => SameValue(w, x)
    case Ref => if IsRef(v) && Target(v) in s then f > 0 && Accepts(s, r, f - 1, s[Target(v)], x) else r.other(k, w, x)
    case AnyOf => if w.Arr? then Count(Hits(s, r, f, w, x)) >= 1 else r.other(k, w, x)
    case OneOf => if w.Arr? then Count(Hits(s, r, f, w, x)) == 1 else r.other(k, w, x)
    case AllOf => if w.Arr? then Count(Hits(s, r, f, w, x)) == |w.items| else r.other(k, w, x)
    case Not => !Accepts(s, r, f, w, x)
    case Then => "if" in v.at && Accepts(s, r, f, v.at["if"], x) ==> Accepts(s, r, f, w, x)
    case Else => "if" in v.at && !Accepts(s, r, f, v.at["if"], x) ==> Accepts(s, r, f, w, x)
    case DependentSchemas =>
      if w.Obj? then x.Obj? ==> forall p :: p in w.at && p in x.at ==> Accepts(s, r, f, w.at[p], x)
      else r.other(k, w, x)
    case Properties =>
      if w.Obj? then x.Obj? ==> forall p :: p in w.at && p in x.at ==> Accepts(s, r, f, w.at[p], x.at[p])
      else r.other(k, w, x)
    case PatternProperties =>
      if w.Obj? then
        x.Obj? ==> forall q, p :: q in w.at && p in x.at && r.matches(q, p) ==> Accepts(s, r, f, w.at[q], x.at[p])
      else r.other(k, w, x)
    case AdditionalProperties =>
      x.Obj? ==> forall p :: p in x.at && !IsNamed(r, v, p) ==> Accepts(s, r, f, w, x.at[p])
    case PropertyNames => x.Obj? ==> forall p :: p in x.at ==> Accepts(s, r, f, w, Str(p))
    case PrefixItems =>
      if w.Arr? then x.Arr? ==> forall i :: 0 <= i < |w.items| && i < |x.items| ==>
        Accepts(s, r, f, w.items[i], x.items[i])
      else r.other(k, w, x)
    case Items => x.Arr? ==> forall i :: PrefixLength(v) <= i < |x.items| ==> Accepts(s, r, f, w, x.items[i])
    case Contains => x.Arr? ==> Enough(r, v, Count(ItemHits(s, r, f, w, x)))
    case Unevaluated =>
      forall p :: InPlace(x, p) && IsFor(k, p) && !Visible(s, r, f, v, x, p) ==> Accepts(s, r, f, w, ValueAt(x, p))
    case Other => r.other(k, w, x)
    case _ => true
  }

  // Which items of an array w accepts.
  ghost function ItemHits(s: Schemas, r: Rules, f: nat, w: Json, x: Json): seq<bool>
    requires x.Arr?
    decreases f, w, 5
  {
    seq(|x.items|, i requires 0 <= i < |x.items| => Accepts(s, r, f, w, x.items[i]))
  }

  // Which entries of a list accept x.
  ghost function Hits(s: Schemas, r: Rules, f: nat, w: Json, x: Json): seq<bool>
    requires w.Arr?
    decreases f, w, 0
  {
    seq(|w.items|, i requires 0 <= i < |w.items| => Accepts(s, r, f, w.items[i], x))
  }

  ghost function Count(hits: seq<bool>): nat {
    multiset(hits)[true]
  }

  lemma KeywordNames()
    ensures KeywordOf("if") == If
    ensures KeywordOf("properties") == Properties && KeywordOf("patternProperties") == PatternProperties
    ensures KeywordOf("minContains") == ContainsBound && KeywordOf("maxContains") == ContainsBound
  {
    MapNames();
    BoundNames();
    hide KeywordOf;
  }

  lemma MapNames()
    ensures KeywordOf("properties") == Properties && KeywordOf("patternProperties") == PatternProperties
  {}

  lemma BoundNames()
    ensures KeywordOf("if") == If && KeywordOf("minContains") == ContainsBound
    ensures KeywordOf("maxContains") == ContainsBound
  {}

  lemma KeywordsOf()
    ensures KeywordOf("type") == Type && KeywordOf("anyOf") == AnyOf && KeywordOf("oneOf") == OneOf
    ensures forall k :: KeywordOf(k) == Type ==> k == "type"
    ensures forall k :: KeywordOf(k) == Ref ==> k == "$ref"
  {
    ListNames();
    OnlyType();
    OnlyRef();
    hide KeywordOf;
  }

  lemma ListNames()
    ensures KeywordOf("type") == Type && KeywordOf("anyOf") == AnyOf && KeywordOf("oneOf") == OneOf
  {}

  lemma OnlyType()
    ensures forall k :: KeywordOf(k) == Type ==> k == "type"
  {}

  lemma OnlyRef()
    ensures forall k :: KeywordOf(k) == Ref ==> k == "$ref"
  {}

  // ---------- what a verdict depends on ----------

  lemma RefAlike(v: Json, w: Json, k: string)
    requires v.Obj? && w.Obj? && k in v.at && k in w.at && v.at[k] == w.at[k] && KeywordOf(k) == Ref
    ensures IsRef(v) == IsRef(w) && (IsRef(v) ==> Target(v) == Target(w))
  {
    OnlyRef();
    hide KeywordOf;
  }

  /** The keyword k of v stands in w too, with the same value and the same neighbours. */
  predicate Alike(v: Json, w: Json, k: string)
    requires v.Obj? && w.Obj?
  {
    k in v.at && k in w.at && v.at[k] == w.at[k] && SameNeighbours(KeywordOf(k), v, w)
  }

  // The keyword holds one schema, for the value or for what is in it.
  predicate HoldsPart(k: Keyword) {
    k.Not? || k.PropertyNames? || k.Items? || k.AdditionalProperties? || k.Contains?
  }

  predicate HoldsMap(k: Keyword) {
    k.DependentSchemas? || k.Properties? || k.PatternProperties?
  }

  predicate HoldsList(k: Keyword) {
    k.AnyOf? || k.OneOf? || k.AllOf? || k.PrefixItems?
  }

  predicate IsBranch(k: Keyword) {
    k.If? || k.Then? || k.Else?
  }

  predicate IsSilent(k: Keyword) {
    k.Annotation? || k.Definitions? || k.ContainsBound?
  }

  predicate HoldsData(k: Keyword) {
    k.Type? || k.Enum? || k.Const? || k.Other?
  }

  lemma KindsOf(k: Keyword)
    ensures HoldsPart(k) || HoldsMap(k) || HoldsList(k) || IsBranch(k) || IsSilent(k) || HoldsData(k)
      || k.Ref? || k.Unevaluated?
  {}

  // ---------- interchangeable schemas ----------

  /** v under s and w under t say the same of x. */
  ghost predicate SameOn(s: Schemas, t: Schemas, r: Rules, f: nat, v: Json, w: Json, x: Json) {
    Accepts(s, r, f, v, x) == Accepts(t, r, f, w, x) && forall p :: Sees(s, r, f, v, x, p) == Sees(t, r, f, w, x, p)
  }

  ghost predicate Same(s: Schemas, t: Schemas, r: Rules, f: nat, v: Json, w: Json) {
    forall x: Json :: SameOn(s, t, r, f, v, w, x)
  }

  /** Their keywords k have the same verdict on x and evaluate the same of it. */
  ghost predicate SameKeyword(s: Schemas, t: Schemas, r: Rules, f: nat, v: Json, w: Json, k: string, x: Json)
    requires v.Obj? && w.Obj? && k in v.at && k in w.at
  {
    && Holds(s, r, f, v, k, x) == Holds(t, r, f, w, k, x)
    && forall p :: InPlace(x, p) ==> SeesBy(s, r, f, v, k, x, p) == SeesBy(t, r, f, w, k, x, p)
  }

  lemma SameAccepts(s: Schemas, t: Schemas, r: Rules, f: nat, v: Json, w: Json)
    requires Same(s, t, r, f, v, w)
    ensures forall x: Json :: Accepts(s, r, f, v, x) == Accepts(t, r, f, w, x)
    ensures forall x: Json, p: Place :: Sees(s, r, f, v, x, p) == Sees(t, r, f, w, x, p)
  {
    hide Accepts, Sees;
    forall x: Json ensures Accepts(s, r, f, v, x) == Accepts(t, r, f, w, x) { assert SameOn(s, t, r, f, v, w, x); }
    forall x: Json, p: Place ensures Sees(s, r, f, v, x, p) == Sees(t, r, f, w, x, p) {
      assert SameOn(s, t, r, f, v, w, x);
    }
  }

  // A keyword that holds one schema says the same with an interchangeable one and the same neighbours.
  lemma PartDepends(s: Schemas, t: Schemas, r: Rules, f: nat, v: Json, w: Json, k: string, x: Json)
    requires v.Obj? && w.Obj? && k in v.at && k in w.at && SameNeighbours(KeywordOf(k), v, w) && HoldsPart(KeywordOf(k))
    requires Same(s, t, r, f, v.at[k], w.at[k])
    ensures SameKeyword(s, t, r, f, v, w, k, x)
  {
    SameAccepts(s, t, r, f, v.at[k], w.at[k]);
    hide *;
    forall p | InPlace(x, p) ensures SeesBy(s, r, f, v, k, x, p) == SeesBy(t, r, f, w, k, x, p) {
      PartSees(s, t, r, f, v, w, k, x, p);
    }
    PartHolding(s, t, r, f, v, w, k, x);
    ThenSame(s, t, r, f, v, w, k, x);
  }

  lemma ThenSame(s: Schemas, t: Schemas, r: Rules, f: nat, v: Json, w: Json, k: string, x: Json)
    requires v.Obj? && w.Obj? && k in v.at && k in w.at && Holds(s, r, f, v, k, x) == Holds(t, r, f, w, k, x)
    requires forall p :: InPlace(x, p) ==> SeesBy(s, r, f, v, k, x, p) == SeesBy(t, r, f, w, k, x, p)
    ensures SameKeyword(s, t, r, f, v, w, k, x)
  {
    hide Holds, SeesBy;
  }

  lemma PartHolding(s: Schemas, t: Schemas, r: Rules, f: nat, v: Json, w: Json, k: string, x: Json)
    requires v.Obj? && w.Obj? && k in v.at && k in w.at && SameNeighbours(KeywordOf(k), v, w) && HoldsPart(KeywordOf(k))
    requires forall y: Json :: Accepts(s, r, f, v.at[k], y) == Accepts(t, r, f, w.at[k], y)
    ensures Holds(s, r, f, v, k, x) == Holds(t, r, f, w, k, x)
  {
    hide Accepts, Holds, KeywordOf;
    if KeywordOf(k).Contains? {
      ContainsDepends(s, t, r, f, v, w, k, x);
    } else if KeywordOf(k).Items? {
      ItemsDepends(s, t, r, f, v, w, k, x);
    } else if KeywordOf(k).AdditionalProperties? {
      ClosureDepends(s, t, r, f, v, w, k, x);
    } else {
      PlainDepends(s, t, r, f, v, w, k, x);
    }
  }

  lemma PartSees(s: Schemas, t: Schemas, r: Rules, f: nat, v: Json, w: Json, k: string, x: Json, p: Place)
    requires v.Obj? && w.Obj? && k in v.at && k in w.at && InPlace(x, p) && HoldsPart(KeywordOf(k))
    requires SameNeighbours(KeywordOf(k), v, w) || KeywordOf(k).Contains?
    requires forall y: Json :: Accepts(s, r, f, v.at[k], y) == Accepts(t, r, f, w.at[k], y)
    ensures SeesBy(s, r, f, v, k, x, p) == SeesBy(t, r, f, w, k, x, p)
  {
    hide Accepts, KeywordOf, Sees, PrefixLength, PropertyKeys, Patterns;
  }

  lemma ContainsDepends(s: Schemas, t: Schemas, r: Rules, f: nat, v: Json, w: Json, k: string, x: Json)
    requires v.Obj? && w.Obj? && k in v.at && k in w.at && KeywordOf(k).Contains? && SameNeighbours(Contains, v, w)
    requires forall y: Json :: Accepts(s, r, f, v.at[k], y) == Accepts(t, r, f, w.at[k], y)
    ensures Holds(s, r, f, v, k, x) == Holds(t, r, f, w, k, x)
  {
    if x.Arr? { ItemHitsDepend(s, t, r, f, v.at[k], w.at[k], x); }
    hide Accepts, KeywordOf, ItemHits, Count;
  }

  lemma ItemsDepends(s: Schemas, t: Schemas, r: Rules, f: nat, v: Json, w: Json, k: string, x: Json)
    requires v.Obj? && w.Obj? && k in v.at && k in w.at && KeywordOf(k).Items? && PrefixLength(v) == PrefixLength(w)
    requires forall y: Json :: Accepts(s, r, f, v.at[k], y) == Accepts(t, r, f, w.at[k], y)
    ensures Holds(s, r, f, v, k, x) == Holds(t, r, f, w, k, x)
  {
    hide Accepts, KeywordOf, PrefixLength;
  }

  lemma ClosureDepends(s: Schemas, t: Schemas, r: Rules, f: nat, v: Json, w: Json, k: string, x: Json)
    requires v.Obj? && w.Obj? && k in v.at && k in w.at && KeywordOf(k).AdditionalProperties?
    requires PropertyKeys(v) == PropertyKeys(w) && Patterns(v) == Patterns(w)
    requires forall y: Json :: Accepts(s, r, f, v.at[k], y) == Accepts(t, r, f, w.at[k], y)
    ensures Holds(s, r, f, v, k, x) == Holds(t, r, f, w, k, x)
  {
    hide Accepts, KeywordOf, PropertyKeys, Patterns;
  }

  lemma PlainDepends(s: Schemas, t: Schemas, r: Rules, f: nat, v: Json, w: Json, k: string, x: Json)
    requires v.Obj? && w.Obj? && k in v.at && k in w.at && (KeywordOf(k).Not? || KeywordOf(k).PropertyNames?)
    requires forall y: Json :: Accepts(s, r, f, v.at[k], y) == Accepts(t, r, f, w.at[k], y)
    ensures Holds(s, r, f, v, k, x) == Holds(t, r, f, w, k, x)
  {
    hide Accepts, KeywordOf;
  }

  lemma ItemHitsDepend(s: Schemas, t: Schemas, r: Rules, f: nat, v: Json, w: Json, x: Json)
    requires x.Arr? && forall y: Json :: Accepts(s, r, f, v, y) == Accepts(t, r, f, w, y)
    ensures ItemHits(s, r, f, v, x) == ItemHits(t, r, f, w, x)
  {
    hide Accepts;
  }

  // So does a condition and what stands beside it.
  lemma BranchDepends(s: Schemas, t: Schemas, r: Rules, f: nat, v: Json, w: Json, k: string, x: Json)
    requires v.Obj? && w.Obj? && k in v.at && k in w.at && IsBranch(KeywordOf(k))
    requires SameOn(s, t, r, f, v.at[k], w.at[k], x)
    requires "if" in v.at <==> "if" in w.at
    requires "if" in v.at ==> Accepts(s, r, f, v.at["if"], x) == Accepts(t, r, f, w.at["if"], x)
    ensures SameKeyword(s, t, r, f, v, w, k, x)
  {
    BranchHolding(s, t, r, f, v, w, k, x);
    hide Accepts, Holds, Sees, SeesBy, KeywordOf;
    forall p | InPlace(x, p) ensures SeesBy(s, r, f, v, k, x, p) == SeesBy(t, r, f, w, k, x, p) {
      BranchSees(s, t, r, f, v, w, k, x, p);
    }
  }

  lemma BranchHolding(s: Schemas, t: Schemas, r: Rules, f: nat, v: Json, w: Json, k: string, x: Json)
    requires v.Obj? && w.Obj? && k in v.at && k in w.at && IsBranch(KeywordOf(k))
    requires Accepts(s, r, f, v.at[k], x) == Accepts(t, r, f, w.at[k], x)
    requires "if" in v.at <==> "if" in w.at
    requires "if" in v.at ==> Accepts(s, r, f, v.at["if"], x) == Accepts(t, r, f, w.at["if"], x)
    ensures Holds(s, r, f, v, k, x) == Holds(t, r, f, w, k, x)
  {
    hide Accepts, KeywordOf;
  }

  lemma BranchSees(s: Schemas, t: Schemas, r: Rules, f: nat, v: Json, w: Json, k: string, x: Json, p: Place)
    requires v.Obj? && w.Obj? && k in v.at && k in w.at && IsBranch(KeywordOf(k))
    requires InPlace(x, p) && Sees(s, r, f, v.at[k], x, p) == Sees(t, r, f, w.at[k], x, p)
    requires "if" in v.at <==> "if" in w.at
    requires "if" in v.at ==> Accepts(s, r, f, v.at["if"], x) == Accepts(t, r, f, w.at["if"], x)
    ensures SeesBy(s, r, f, v, k, x, p) == SeesBy(t, r, f, w, k, x, p)
  {
    hide Accepts, Sees, KeywordOf;
  }

  // And so do maps and lists of schemas.
  lemma MapDepends(s: Schemas, t: Schemas, r: Rules, f: nat, v: Json, w: Json, k: string, x: Json)
    requires v.Obj? && w.Obj? && k in v.at && k in w.at && v.at[k].Obj? && w.at[k].Obj?
    requires HoldsMap(KeywordOf(k)) && v.at[k].at.Keys == w.at[k].at.Keys
    requires forall q :: q in v.at[k].at ==> Same(s, t, r, f, v.at[k].at[q], w.at[k].at[q])
    ensures SameKeyword(s, t, r, f, v, w, k, x)
  {
    hide Accepts, Sees, Holds, SeesBy, KeywordOf, Same;
    forall q | q in v.at[k].at
      ensures forall y: Json :: Accepts(s, r, f, v.at[k].at[q], y) == Accepts(t, r, f, w.at[k].at[q], y)
      ensures forall y: Json, p: Place :: Sees(s, r, f, v.at[k].at[q], y, p) == Sees(t, r, f, w.at[k].at[q], y, p)
    {
      SameAccepts(s, t, r, f, v.at[k].at[q], w.at[k].at[q]);
    }
    MapHolding(s, t, r, f, v, w, k, x);
    forall p | InPlace(x, p) ensures SeesBy(s, r, f, v, k, x, p) == SeesBy(t, r, f, w, k, x, p) {
      MapSees(s, t, r, f, v, w, k, x, p);
    }
  }

  lemma MapHolding(s: Schemas, t: Schemas, r: Rules, f: nat, v: Json, w: Json, k: string, x: Json)
    requires v.Obj? && w.Obj? && k in v.at && k in w.at && v.at[k].Obj? && w.at[k].Obj?
    requires HoldsMap(KeywordOf(k)) && v.at[k].at.Keys == w.at[k].at.Keys
    requires forall q, y: Json :: q in v.at[k].at ==>
      Accepts(s, r, f, v.at[k].at[q], y) == Accepts(t, r, f, w.at[k].at[q], y)
    ensures Holds(s, r, f, v, k, x) == Holds(t, r, f, w, k, x)
  {
    hide Accepts, KeywordOf;
  }

  lemma MapSees(s: Schemas, t: Schemas, r: Rules, f: nat, v: Json, w: Json, k: string, x: Json, p: Place)
    requires v.Obj? && w.Obj? && k in v.at && k in w.at && v.at[k].Obj? && w.at[k].Obj? && InPlace(x, p)
    requires HoldsMap(KeywordOf(k)) && v.at[k].at.Keys == w.at[k].at.Keys
    requires forall q :: q in v.at[k].at ==> Sees(s, r, f, v.at[k].at[q], x, p) == Sees(t, r, f, w.at[k].at[q], x, p)
    ensures SeesBy(s, r, f, v, k, x, p) == SeesBy(t, r, f, w, k, x, p)
  {
    hide Accepts, KeywordOf, Sees;
  }

  lemma ListDepends(s: Schemas, t: Schemas, r: Rules, f: nat, v: Json, w: Json, k: string, x: Json)
    requires v.Obj? && w.Obj? && k in v.at && k in w.at && v.at[k].Arr? && w.at[k].Arr?
    requires HoldsList(KeywordOf(k)) && |v.at[k].items| == |w.at[k].items|
    requires forall i :: 0 <= i < |v.at[k].items| ==> Same(s, t, r, f, v.at[k].items[i], w.at[k].items[i])
    ensures SameKeyword(s, t, r, f, v, w, k, x)
  {
    hide Accepts, Sees, Holds, SeesBy, KeywordOf, Same;
    forall i | 0 <= i < |v.at[k].items|
      ensures forall y: Json :: Accepts(s, r, f, v.at[k].items[i], y) == Accepts(t, r, f, w.at[k].items[i], y)
      ensures forall y: Json, p: Place :: Sees(s, r, f, v.at[k].items[i], y, p) == Sees(t, r, f, w.at[k].items[i], y, p)
    {
      SameAccepts(s, t, r, f, v.at[k].items[i], w.at[k].items[i]);
    }
    forall p | InPlace(x, p) ensures SeesBy(s, r, f, v, k, x, p) == SeesBy(t, r, f, w, k, x, p) {
      ListSees(s, t, r, f, v, w, k, x, p);
    }
    if KeywordOf(k).PrefixItems? {
      PrefixDepends(s, t, r, f, v, w, k, x);
    } else {
      HitsDepend(s, t, r, f, v.at[k], w.at[k], x);
      ChoiceDepends(s, t, r, f, v, w, k, x);
    }
  }

  lemma ListSees(s: Schemas, t: Schemas, r: Rules, f: nat, v: Json, w: Json, k: string, x: Json, p: Place)
    requires v.Obj? && w.Obj? && k in v.at && k in w.at && v.at[k].Arr? && w.at[k].Arr? && InPlace(x, p)
    requires HoldsList(KeywordOf(k)) && |v.at[k].items| == |w.at[k].items|
    requires forall i :: 0 <= i < |v.at[k].items| ==>
      Sees(s, r, f, v.at[k].items[i], x, p) == Sees(t, r, f, w.at[k].items[i], x, p)
    ensures SeesBy(s, r, f, v, k, x, p) == SeesBy(t, r, f, w, k, x, p)
  {
    hide Accepts, KeywordOf, Sees;
  }

  lemma PrefixDepends(s: Schemas, t: Schemas, r: Rules, f: nat, v: Json, w: Json, k: string, x: Json)
    requires v.Obj? && w.Obj? && k in v.at && k in w.at && v.at[k].Arr? && w.at[k].Arr?
    requires KeywordOf(k).PrefixItems? && |v.at[k].items| == |w.at[k].items|
    requires forall i, y: Json :: 0 <= i < |v.at[k].items| ==>
      Accepts(s, r, f, v.at[k].items[i], y) == Accepts(t, r, f, w.at[k].items[i], y)
    ensures Holds(s, r, f, v, k, x) == Holds(t, r, f, w, k, x)
  {
    hide Accepts, KeywordOf;
  }

  lemma ChoiceDepends(s: Schemas, t: Schemas, r: Rules, f: nat, v: Json, w: Json, k: string, x: Json)
    requires v.Obj? && w.Obj? && k in v.at && k in w.at && v.at[k].Arr? && w.at[k].Arr?
    requires KeywordOf(k).AnyOf? || KeywordOf(k).OneOf? || KeywordOf(k).AllOf?
    requires |v.at[k].items| == |w.at[k].items| && Hits(s, r, f, v.at[k], x) == Hits(t, r, f, w.at[k], x)
    ensures Holds(s, r, f, v, k, x) == Holds(t, r, f, w, k, x)
  {
    hide Accepts, KeywordOf, Hits, Count;
  }

  lemma HitsDepend(s: Schemas, t: Schemas, r: Rules, f: nat, v: Json, w: Json, x: Json)
    requires v.Arr? && w.Arr? && |v.items| == |w.items|
    requires forall i :: 0 <= i < |v.items| ==> Accepts(s, r, f, v.items[i], x) == Accepts(t, r, f, w.items[i], x)
    ensures Hits(s, r, f, v, x) == Hits(t, r, f, w, x)
  {
    hide Accepts;
  }

  // Keywords that evaluate nothing.
  lemma SeesNothing(s: Schemas, r: Rules, f: nat, v: Json, k: string, x: Json, p: Place)
    requires v.Obj? && k in v.at && InPlace(x, p)
    requires HoldsData(KeywordOf(k)) || IsSilent(KeywordOf(k)) || KeywordOf(k).Unevaluated?
      || (HoldsList(KeywordOf(k)) && !v.at[k].Arr?) || (HoldsMap(KeywordOf(k)) && !v.at[k].Obj?)
    ensures !SeesBy(s, r, f, v, k, x, p)
  {
    hide Accepts, Sees, KeywordOf;
  }

  lemma SilentHolds(s: Schemas, r: Rules, f: nat, v: Json, k: string, x: Json)
    requires v.Obj? && k in v.at && IsSilent(KeywordOf(k))
    ensures Holds(s, r, f, v, k, x)
  {
    hide Accepts, KeywordOf;
  }

  // Some keywords say nothing on their own.
  lemma SilentDepends(s: Schemas, t: Schemas, r: Rules, f: nat, v: Json, w: Json, k: string, x: Json)
    requires v.Obj? && w.Obj? && k in v.at && k in w.at && IsSilent(KeywordOf(k))
    ensures SameKeyword(s, t, r, f, v, w, k, x)
  {
    hide *;
    SilentHolds(s, r, f, v, k, x);
    SilentHolds(t, r, f, w, k, x);
    forall p | InPlace(x, p) ensures SeesBy(s, r, f, v, k, x, p) == SeesBy(t, r, f, w, k, x, p) {
      SeesNothing(s, r, f, v, k, x, p);
      SeesNothing(t, r, f, w, k, x, p);
    }
    ThenSame(s, t, r, f, v, w, k, x);
  }

  // Other values count as they are.
  lemma DataDepends(s: Schemas, t: Schemas, r: Rules, f: nat, v: Json, w: Json, k: string, x: Json)
    requires v.Obj? && w.Obj? && k in v.at && k in w.at && v.at[k] == w.at[k]
    requires HoldsData(KeywordOf(k)) || (HoldsList(KeywordOf(k)) && !v.at[k].Arr?)
      || (HoldsMap(KeywordOf(k)) && !v.at[k].Obj?)
    ensures SameKeyword(s, t, r, f, v, w, k, x)
  {
    hide *;
    DataHolding(s, t, r, f, v, w, k, x);
    forall p | InPlace(x, p) ensures SeesBy(s, r, f, v, k, x, p) == SeesBy(t, r, f, w, k, x, p) {
      SeesNothing(s, r, f, v, k, x, p);
      SeesNothing(t, r, f, w, k, x, p);
    }
    ThenSame(s, t, r, f, v, w, k, x);
  }

  lemma DataHolding(s: Schemas, t: Schemas, r: Rules, f: nat, v: Json, w: Json, k: string, x: Json)
    requires v.Obj? && w.Obj? && k in v.at && k in w.at && v.at[k] == w.at[k]
    requires HoldsData(KeywordOf(k)) || (HoldsList(KeywordOf(k)) && !v.at[k].Arr?)
      || (HoldsMap(KeywordOf(k)) && !v.at[k].Obj?)
    ensures Holds(s, r, f, v, k, x) == Holds(t, r, f, w, k, x)
  {
    hide Accepts, KeywordOf, TypeHolds, SameValue;
  }

  lemma RefDepends(s: Schemas, t: Schemas, r: Rules, f: nat, v: Json, w: Json, k: string, x: Json)
    requires v.Obj? && w.Obj? && k in v.at && k in w.at && v.at[k] == w.at[k] && KeywordOf(k) == Ref && s.Keys == t.Keys
    requires IsRef(v) && Target(v) in s && f > 0 ==> SameOn(s, t, r, f - 1, s[Target(v)], t[Target(v)], x)
    ensures SameKeyword(s, t, r, f, v, w, k, x)
  {
    RefAlike(v, w, k);
    RefHolding(s, t, r, f, v, w, k, x);
    hide Accepts, Holds, Sees, SeesBy, KeywordOf, IsRef, Target;
    forall p | InPlace(x, p) ensures SeesBy(s, r, f, v, k, x, p) == SeesBy(t, r, f, w, k, x, p) {
      RefSees(s, t, r, f, v, w, k, x, p);
    }
  }

  lemma RefHolding(s: Schemas, t: Schemas, r: Rules, f: nat, v: Json, w: Json, k: string, x: Json)
    requires v.Obj? && w.Obj? && k in v.at && k in w.at && v.at[k] == w.at[k] && KeywordOf(k) == Ref && s.Keys == t.Keys
    requires IsRef(v) && Target(v) in s && f > 0 ==>
      Accepts(s, r, f - 1, s[Target(v)], x) == Accepts(t, r, f - 1, t[Target(v)], x)
    ensures Holds(s, r, f, v, k, x) == Holds(t, r, f, w, k, x)
  {
    RefAlike(v, w, k);
    hide Accepts, KeywordOf, IsRef, Target;
  }

  lemma RefSees(s: Schemas, t: Schemas, r: Rules, f: nat, v: Json, w: Json, k: string, x: Json, p: Place)
    requires v.Obj? && w.Obj? && k in v.at && k in w.at && KeywordOf(k) == Ref && s.Keys == t.Keys && InPlace(x, p)
    requires IsRef(v) == IsRef(w) && (IsRef(v) ==> Target(v) == Target(w))
    requires IsRef(v) && Target(v) in s && f > 0 ==>
      Sees(s, r, f - 1, s[Target(v)], x, p) == Sees(t, r, f - 1, t[Target(v)], x, p)
    ensures SeesBy(s, r, f, v, k, x, p) == SeesBy(t, r, f, w, k, x, p)
  {
    hide Accepts, Sees, KeywordOf, IsRef, Target;
  }

  // ---------- what is unevaluated ----------

  lemma VisibleDepends(s: Schemas, t: Schemas, r: Rules, f: nat, v: Json, w: Json, x: Json, p: Place)
    requires v.Obj? && w.Obj? && InPlace(x, p)
    requires forall k :: k in v.at && SeesBy(s, r, f, v, k, x, p) ==> k in w.at && SeesBy(t, r, f, w, k, x, p)
    ensures Visible(s, r, f, v, x, p) ==> Visible(t, r, f, w, x, p)
  {
    hide SeesBy;
  }

  // What is left for a keyword depends on what all the others have evaluated.
  lemma UnevaluatedDepends(s: Schemas, t: Schemas, r: Rules, f: nat, v: Json, w: Json, k: string, x: Json)
    requires v.Obj? && w.Obj? && k in v.at && k in w.at && KeywordOf(k).Unevaluated?
    requires forall p :: InPlace(x, p) ==> Visible(s, r, f, v, x, p) == Visible(t, r, f, w, x, p)
    requires forall y: Json :: Accepts(s, r, f, v.at[k], y) == Accepts(t, r, f, w.at[k], y)
    ensures SameKeyword(s, t, r, f, v, w, k, x)
  {
    hide *;
    UnevaluatedHolding(s, t, r, f, v, w, k, x);
    forall p | InPlace(x, p) ensures SeesBy(s, r, f, v, k, x, p) == SeesBy(t, r, f, w, k, x, p) {
      SeesNothing(s, r, f, v, k, x, p);
      SeesNothing(t, r, f, w, k, x, p);
    }
    ThenSame(s, t, r, f, v, w, k, x);
  }

  lemma UnevaluatedHolding(s: Schemas, t: Schemas, r: Rules, f: nat, v: Json, w: Json, k: string, x: Json)
    requires v.Obj? && w.Obj? && k in v.at && k in w.at && KeywordOf(k).Unevaluated?
    requires forall p :: InPlace(x, p) ==> Visible(s, r, f, v, x, p) == Visible(t, r, f, w, x, p)
    requires forall y: Json :: Accepts(s, r, f, v.at[k], y) == Accepts(t, r, f, w.at[k], y)
    ensures Holds(s, r, f, v, k, x) == Holds(t, r, f, w, k, x)
  {
    hide Accepts, KeywordOf, Visible;
  }

  /** Only applicators evaluate anything. */
  lemma AppliedSees(s: Schemas, r: Rules, f: nat, v: Json, k: string, x: Json, p: Place)
    requires v.Obj? && k in v.at && InPlace(x, p) && SeesBy(s, r, f, v, k, x, p)
    ensures k in Applied(v)
  {
    SeersAreApplied(k);
    hide Accepts, Sees, KeywordOf, KeywordView;
  }

  lemma SeersAreApplied(k: string)
    requires HoldsPart(KeywordOf(k)) || HoldsMap(KeywordOf(k)) || HoldsList(KeywordOf(k)) || IsBranch(KeywordOf(k))
      || KeywordOf(k).Ref?
    ensures k == "$ref" || !KeywordView(k).OfData?
  {}

  // Objects with the same applicators evaluate the same.
  lemma AppliedVisible(s: Schemas, r: Rules, f: nat, v: Json, w: Json, x: Json, p: Place)
    requires v.Obj? && w.Obj? && InPlace(x, p) && Applied(v) == Applied(w)
    ensures Visible(s, r, f, v, x, p) ==> Visible(s, r, f, w, x, p)
  {
    hide SeesBy, Applied, KeywordOf;
    forall k | k in v.at && SeesBy(s, r, f, v, k, x, p) ensures k in w.at && SeesBy(s, r, f, w, k, x, p) {
      AppliedSees(s, r, f, v, k, x, p);
      AppliedAt(v, w, k);
      AppliedNeighbours(v, w);
      SeesLocal(s, r, f, v, w, k, x, p);
    }
    VisibleDepends(s, s, r, f, v, w, x, p);
  }

  lemma AppliedAt(v: Json, w: Json, k: string)
    requires v.Obj? && w.Obj? && Applied(v) == Applied(w) && k in Applied(v)
    ensures k in v.at && k in w.at && v.at[k] == w.at[k]
  {
    hide KeywordView;
    assert Applied(v)[k] == v.at[k] && Applied(w)[k] == w.at[k];
  }

  lemma AppliedNeighbours(v: Json, w: Json)
    requires v.Obj? && w.Obj? && Applied(v) == Applied(w)
    ensures SameNeighbours(AdditionalProperties, v, w) && SameNeighbours(Items, v, w)
    ensures SameNeighbours(Then, v, w) && SameNeighbours(Else, v, w)
  {
    AppliedNames();
    forall k | !KeywordView(k).OfData? ensures At(v, k) == At(w, k) {
      if k in v.at { assert k in Applied(v); }
      if k in w.at { assert k in Applied(w); }
      if k in Applied(v) { AppliedAt(v, w, k); }
    }
    hide KeywordView, Applied;
    assert At(v, "properties") == At(w, "properties") && At(v, "patternProperties") == At(w, "patternProperties");
    assert At(v, "prefixItems") == At(w, "prefixItems") && At(v, "if") == At(w, "if");
  }

  lemma AppliedNames()
    ensures !KeywordView("properties").OfData? && !KeywordView("patternProperties").OfData?
    ensures !KeywordView("prefixItems").OfData? && !KeywordView("if").OfData?
  {}

  lemma SameItself(s: Schemas, r: Rules, f: nat, v: Json)
    ensures Same(s, s, r, f, v, v)
  {
    hide Accepts, Sees;
  }

  // What a keyword evaluates depends on its value and its neighbours.
  lemma SeesLocal(s: Schemas, r: Rules, f: nat, v: Json, w: Json, k: string, x: Json, p: Place)
    requires v.Obj? && w.Obj? && k in v.at && k in w.at && v.at[k] == w.at[k] && InPlace(x, p)
    requires SameNeighbours(KeywordOf(k), v, w) || KeywordOf(k).Contains? || KeywordOf(k).Unevaluated?
    ensures SeesBy(s, r, f, v, k, x, p) == SeesBy(s, r, f, w, k, x, p)
  {
    if KeywordOf(k).Ref? { RefAlike(v, w, k); }
    hide Accepts, Sees, KeywordOf, PropertyKeys, Patterns, PrefixLength, IsRef, Target, SomeSees, Applied;
  }

  // The verdict of a keyword depends on its value and its neighbours.
  lemma HoldsLocal(s: Schemas, r: Rules, f: nat, v: Json, w: Json, k: string, x: Json)
    requires v.Obj? && w.Obj? && k in v.at && k in w.at && v.at[k] == w.at[k] && SameNeighbours(KeywordOf(k), v, w)
    ensures SameKeyword(s, s, r, f, v, w, k, x)
  {
    hide Holds, Accepts, Sees, SeesBy, Visible, KeywordOf, PropertyKeys, Patterns, PrefixLength, Applied, Same, SameOn;
    var kind := KeywordOf(k);
    KindsOf(kind);
    SameItself(s, r, f, v.at[k]);
    SameOnItself(s, r, f, v.at[k], x);
    if HoldsPart(kind) {
      PartDepends(s, s, r, f, v, w, k, x);
    } else if HoldsMap(kind) && v.at[k].Obj? {
      forall q | q in v.at[k].at { SameItself(s, r, f, v.at[k].at[q]); }
      MapDepends(s, s, r, f, v, w, k, x);
    } else if HoldsList(kind) && v.at[k].Arr? {
      forall i | 0 <= i < |v.at[k].items| { SameItself(s, r, f, v.at[k].items[i]); }
      ListDepends(s, s, r, f, v, w, k, x);
    } else if IsBranch(kind) {
      if kind.If? { KeywordIsIf(k); }
      BranchDepends(s, s, r, f, v, w, k, x);
    } else if kind.Ref? {
      if IsRef(v) && Target(v) in s && f > 0 { SameOnItself(s, r, f - 1, s[Target(v)], x); }
      RefDepends(s, s, r, f, v, w, k, x);
    } else if IsSilent(kind) {
      SilentDepends(s, s, r, f, v, w, k, x);
    } else if kind.Unevaluated? {
      forall p | InPlace(x, p) ensures Visible(s, r, f, v, x, p) == Visible(s, r, f, w, x, p) {
        AppliedVisible(s, r, f, v, w, x, p);
        AppliedVisible(s, r, f, w, v, x, p);
      }
      UnevaluatedDepends(s, s, r, f, v, w, k, x);
    } else {
      DataDepends(s, s, r, f, v, w, k, x);
    }
  }

  lemma KeywordIsIf(k: string)
    requires KeywordOf(k).If?
    ensures k == "if"
  {}

  lemma SameOnItself(s: Schemas, r: Rules, f: nat, v: Json, x: Json)
    ensures SameOn(s, s, r, f, v, v, x)
  {
    hide Accepts, Sees;
  }

  lemma AlikeHolds(s: Schemas, r: Rules, f: nat, v: Json, w: Json, x: Json)
    requires v.Obj? && w.Obj?
    ensures forall k :: Alike(v, w, k) ==> Holds(s, r, f, v, k, x) == Holds(s, r, f, w, k, x)
    ensures forall k :: Alike(v, w, k) ==> SameKeyword(s, s, r, f, v, w, k, x)
  {
    hide Holds, SeesBy, SameNeighbours, KeywordOf;
    forall k | Alike(v, w, k) ensures SameKeyword(s, s, r, f, v, w, k, x) {
      HoldsLocal(s, r, f, v, w, k, x);
    }
  }

  // ---------- lists ----------

  lemma TypeKeyword(s: Schemas, r: Rules, f: nat, v: Json, x: Json)
    requires v.Obj? && "type" in v.at
    ensures Holds(s, r, f, v, "type", x) == TypeHolds(r, v.at["type"], x)
  {
    hide KeywordOf;
    KeywordsOf();
  }

  /** How many entries of a list accept x. */
  ghost function Accepting(s: Schemas, r: Rules, f: nat, arr: seq<Json>, x: Json): nat {
    Count(Hits(s, r, f, Arr(arr), x))
  }

  lemma CountAt(p: seq<bool>, b: bool, q: seq<bool>)
    ensures Count(p + [b] + q) == Count(p + q) + if b then 1 else 0
  {
    assert multiset(p + [b] + q) == multiset(p + q) + multiset{b};
  }

  lemma HitsAre(s: Schemas, r: Rules, f: nat, arr: seq<Json>, x: Json)
    ensures |Hits(s, r, f, Arr(arr), x)| == |arr|
    ensures forall i :: 0 <= i < |arr| ==> Hits(s, r, f, Arr(arr), x)[i] == Accepts(s, r, f, arr[i], x)
  {
    hide Accepts;
  }

  lemma AcceptingAt(s: Schemas, r: Rules, f: nat, a: seq<Json>, b: Json, c: seq<Json>, x: Json)
    ensures Accepting(s, r, f, a + [b] + c, x) == Accepting(s, r, f, a + c, x) + if Accepts(s, r, f, b, x) then 1 else 0
  {
    hide Accepts, Hits, Count;
    HitsAre(s, r, f, a, x);
    HitsAre(s, r, f, c, x);
    HitsAre(s, r, f, a + c, x);
    HitsAre(s, r, f, a + [b] + c, x);
    var p, q := Hits(s, r, f, Arr(a), x), Hits(s, r, f, Arr(c), x);
    assert Hits(s, r, f, Arr(a + [b] + c), x) == p + [Accepts(s, r, f, b, x)] + q;
    assert Hits(s, r, f, Arr(a + c), x) == p + q;
    CountAt(p, Accepts(s, r, f, b, x), q);
  }

  /** Some entry of a list has evaluated what is at p. */
  ghost predicate AnySees(s: Schemas, r: Rules, f: nat, arr: seq<Json>, x: Json, p: Place) {
    exists i :: 0 <= i < |arr| && Sees(s, r, f, arr[i], x, p)
  }

  lemma AnySeesBoth(s: Schemas, r: Rules, f: nat, a: seq<Json>, b: seq<Json>, x: Json, p: Place)
    ensures AnySees(s, r, f, a + b, x, p) <==> AnySees(s, r, f, a, x, p) || AnySees(s, r, f, b, x, p)
  {
    hide Sees;
    forall i | 0 <= i < |a| ensures (a + b)[i] == a[i] {}
    forall i | 0 <= i < |b| ensures (a + b)[|a| + i] == b[i] {}
    if i :| 0 <= i < |a + b| && Sees(s, r, f, (a + b)[i], x, p) {
      if i >= |a| { assert (a + b)[i] == b[i - |a|]; }
    }
  }

  lemma OneSees(s: Schemas, r: Rules, f: nat, e: Json, x: Json, p: Place)
    ensures AnySees(s, r, f, [e], x, p) <==> Sees(s, r, f, e, x, p)
  {
    hide Sees;
    assert [e][0] == e;
  }

  lemma AnySeesAt(s: Schemas, r: Rules, f: nat, a: seq<Json>, b: Json, c: seq<Json>, x: Json, p: Place)
    ensures AnySees(s, r, f, a + [b] + c, x, p) <==> AnySees(s, r, f, a + c, x, p) || Sees(s, r, f, b, x, p)
  {
    hide AnySees, Sees;
    AnySeesBoth(s, r, f, a + [b], c, x, p);
    AnySeesBoth(s, r, f, a, [b], x, p);
    AnySeesBoth(s, r, f, a, c, x, p);
    OneSees(s, r, f, b, x, p);
  }

  lemma ListSeesBy(s: Schemas, r: Rules, f: nat, v: Json, key: string, x: Json, p: Place)
    requires v.Obj? && key in v.at && v.at[key].Arr? && (key == "anyOf" || key == "oneOf") && InPlace(x, p)
    ensures SeesBy(s, r, f, v, key, x, p) <==> AnySees(s, r, f, v.at[key].items, x, p)
  {
    hide KeywordOf, Sees;
    KeywordsOf();
  }

  lemma OneEntry(s: Schemas, r: Rules, f: nat, e: Json, x: Json)
    ensures Accepting(s, r, f, [e], x) == if Accepts(s, r, f, e, x) then 1 else 0
  {
    hide Accepts;
    HitsAre(s, r, f, [e], x);
    assert Hits(s, r, f, Arr([e]), x) == [Accepts(s, r, f, e, x)];
  }

  lemma ListKeyword(s: Schemas, r: Rules, f: nat, v: Json, key: string, x: Json)
    requires v.Obj? && key in v.at && v.at[key].Arr? && (key == "anyOf" || key == "oneOf")
    ensures Holds(s, r, f, v, key, x) <==>
      (var n := Accepting(s, r, f, v.at[key].items, x); if key == "anyOf" then n >= 1 else n == 1)
  {
    hide KeywordOf, Hits, Count;
    KeywordsOf();
    assert v.at[key] == Arr(v.at[key].items);
  }
}
