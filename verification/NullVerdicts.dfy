/** What the rewrite of null entries does to the values that a schema accepts. */
module NullVerdicts {
  import opened Json
  import opened Documents
  import opened Acceptance
  import opened NullTypes

  // ---------- one rewritten list ----------

  lemma NullEntryAccepts(s: Schemas, r: Rules, f: nat, v: Json, x: Json)
    requires IsNullEntry(v)
    ensures Accepts(s, r, f, v, x) <==> x.Null?
  {
    hide KeywordOf;
    KeywordsOf();
    assert "type" in v.at;
  }

  lemma NullFormAccepts(s: Schemas, r: Rules, f: nat, x: Json)
    ensures Accepts(s, r, f, NullForm(), x) <==> x.Null?
  {
    hide KeywordOf;
    KeywordsOf();
    var ts := [Str("null")];
    assert ts[0] == Str("null");
    assert TypeHolds(r, Arr(ts), x) <==> x.Null?;
    assert "type" in NullForm().at;
  }

  // What a schema of null sees of other values, and of null there is nothing to see.
  lemma NullSeesNothing(s: Schemas, r: Rules, f: nat, v: Json, x: Json, p: Place)
    requires Accepts(s, r, f, v, x) ==> x.Null?
    ensures !Sees(s, r, f, v, x, p)
  {
    hide Accepts, Visible;
  }

  lemma MergedType(r: Rules, t: string, x: Json)
    ensures TypeHolds(r, Arr([Str(t), Str("null")]), x) <==> HasType(r, t, x) || x.Null?
  {
    var ts := [Str(t), Str("null")];
    assert ts[0] == Str(t) && ts[1] == Str("null");
    assert HasType(r, "null", x) <==> x.Null?;
  }

  // No keyword depends on the type beside it.
  lemma BesideType(v: Json)
    requires HasStringType(v)
    ensures WithNull(v).at.Keys == v.at.Keys && forall k :: k in v.at && k != "type" ==> WithNull(v).at[k] == v.at[k]
    ensures forall k: Keyword :: SameNeighbours(k, v, WithNull(v))
  {
    var w := WithNull(v);
    assert "type" != "properties" && "type" != "patternProperties" && "type" != "prefixItems" && "type" != "if" &&
      "type" != "$ref";
    assert "type" != "minContains" && "type" != "maxContains" && KeywordView("type") == OfData;
    hide KeywordView;
    assert Applied(v) == Applied(w);
  }

  lemma BesideTypeSame(s: Schemas, r: Rules, f: nat, v: Json, k: string, x: Json)
    requires HasStringType(v) && k in v.at && k != "type"
    ensures k in WithNull(v).at && SameKeyword(s, s, r, f, WithNull(v), v, k, x)
    ensures Holds(s, r, f, WithNull(v), k, x) == Holds(s, r, f, v, k, x)
  {
    BesideType(v);
    hide Holds, SeesBy, KeywordOf, SameNeighbours, WithNull;
    HoldsLocal(s, r, f, WithNull(v), v, k, x);
  }

  // A widened entry accepts what it accepted, and null if only its type rejected null.
  lemma WithNullAccepts(s: Schemas, r: Rules, f: nat, v: Json, x: Json)
    requires HasStringType(v)
    ensures !x.Null? ==> (Accepts(s, r, f, WithNull(v), x) <==> Accepts(s, r, f, v, x))
    ensures x.Null? ==> (Accepts(s, r, f, v, x) <==> v.at["type"] == Str("null") && Accepts(s, r, f, WithNull(v), x))
  {
    var w := WithNull(v);
    WithNullType(s, r, f, v, x);
    hide Holds, KeywordOf, WithNull, HasType, SameKeyword;
    forall k | k in v.at && k != "type" ensures k in w.at && Holds(s, r, f, w, k, x) == Holds(s, r, f, v, k, x) {
      BesideTypeSame(s, r, f, v, k, x);
    }
  }

  lemma WithNullType(s: Schemas, r: Rules, f: nat, v: Json, x: Json)
    requires HasStringType(v)
    ensures WithNull(v).at.Keys == v.at.Keys && Holds(s, r, f, v, "type", x) == HasType(r, v.at["type"].s, x)
    ensures Holds(s, r, f, WithNull(v), "type", x) == (HasType(r, v.at["type"].s, x) || x.Null?)
    ensures x.Null? ==> (HasType(r, v.at["type"].s, x) <==> v.at["type"] == Str("null"))
  {
    MergedType(r, v.at["type"].s, x);
    TypeKeyword(s, r, f, v, x);
    TypeKeyword(s, r, f, WithNull(v), x);
    hide Holds;
  }

  // A widened entry also evaluates what it evaluated.
  lemma WithNullSees(s: Schemas, r: Rules, f: nat, v: Json, x: Json, p: Place)
    requires HasStringType(v)
    ensures Sees(s, r, f, WithNull(v), x, p) == Sees(s, r, f, v, x, p)
  {
    if InPlace(x, p) {
      var w := WithNull(v);
      WithNullAccepts(s, r, f, v, x);
      BesideType(v);
      hide Accepts, SeesBy, KeywordOf, SameNeighbours, WithNull;
      TypeSeesNothing(s, r, f, v, x, p);
      TypeSeesNothing(s, r, f, w, x, p);
      forall k | k in v.at && k != "type" ensures SeesBy(s, r, f, w, k, x, p) == SeesBy(s, r, f, v, k, x, p) {
        HoldsLocal(s, r, f, v, w, k, x);
      }
      VisibleDepends(s, s, r, f, v, w, x, p);
      VisibleDepends(s, s, r, f, w, v, x, p);
    }
  }

  lemma TypeSeesNothing(s: Schemas, r: Rules, f: nat, v: Json, x: Json, p: Place)
    requires v.Obj? && "type" in v.at && InPlace(x, p)
    ensures !SeesBy(s, r, f, v, "type", x, p)
  {
    KeywordsOf();
    hide KeywordOf;
  }

  // The entries that are neither the removed one nor the merge target.
  function Bystanders(arr: seq<Json>): seq<Json>
    requires NullIndex(arr) < |arr| && TargetIndex(Spliced(arr)) < |Spliced(arr)|
  {
    var rest := Spliced(arr);
    rest[..TargetIndex(rest)] + rest[TargetIndex(rest) + 1..]
  }

  ghost predicate HasTarget(arr: seq<Json>)
    requires NullIndex(arr) < |arr|
  {
    TargetIndex(Spliced(arr)) < |Spliced(arr)|
  }

  function MergeTarget(arr: seq<Json>): (v: Json)
    requires NullIndex(arr) < |arr| && TargetIndex(Spliced(arr)) < |Spliced(arr)|
    ensures HasStringType(v)
  {
    Spliced(arr)[TargetIndex(Spliced(arr))]
  }

  // How many entries of a list accept x, before and after.
  lemma MergeCounts(s: Schemas, r: Rules, f: nat, arr: seq<Json>, x: Json)
    requires NullIndex(arr) < |arr|
    ensures HasTarget(arr) ==>
      var o := Accepting(s, r, f, Bystanders(arr), x);
      Accepting(s, r, f, arr, x) ==
        o + (if x.Null? then 1 else 0) + (if Accepts(s, r, f, MergeTarget(arr), x) then 1 else 0) &&
      Accepting(s, r, f, Merged(arr), x) == o + (if Accepts(s, r, f, WithNull(MergeTarget(arr)), x) then 1 else 0)
    ensures !HasTarget(arr) ==> Accepting(s, r, f, Merged(arr), x) == Accepting(s, r, f, arr, x)
  {
    hide Accepts, Accepting, IsNullEntry, HasStringType, WithNull, NullForm, NullIndex, TargetIndex;
    var i, rest := NullIndex(arr), Spliced(arr);
    var t := TargetIndex(rest);
    assert arr == arr[..i] + [arr[i]] + arr[i + 1..];
    AcceptingAt(s, r, f, arr[..i], arr[i], arr[i + 1..], x);
    NullEntryAccepts(s, r, f, arr[i], x);
    if t < |rest| {
      assert rest == rest[..t] + [rest[t]] + rest[t + 1..];
      assert Merged(arr) == rest[..t] + [WithNull(rest[t])] + rest[t + 1..];
      AcceptingAt(s, r, f, rest[..t], rest[t], rest[t + 1..], x);
      AcceptingAt(s, r, f, rest[..t], WithNull(rest[t]), rest[t + 1..], x);
    } else {
      assert Merged(arr) == rest + [NullForm()] + [] && rest + [] == rest;
      AcceptingAt(s, r, f, rest, NullForm(), [], x);
      NullFormAccepts(s, r, f, x);
    }
  }

  // A null entry more or less evaluates nothing.
  lemma SplicedSees(s: Schemas, r: Rules, f: nat, arr: seq<Json>, x: Json, p: Place)
    requires NullIndex(arr) < |arr|
    ensures AnySees(s, r, f, Spliced(arr), x, p) == AnySees(s, r, f, arr, x, p)
  {
    hide Accepts, Sees, AnySees, IsNullEntry, NullIndex;
    var i := NullIndex(arr);
    NullEntryAccepts(s, r, f, arr[i], x);
    NullSeesNothing(s, r, f, arr[i], x, p);
    AnySeesAt(s, r, f, arr[..i], arr[i], arr[i + 1..], x, p);
    assert arr == arr[..i] + [arr[i]] + arr[i + 1..];
  }

  lemma NullFormSees(s: Schemas, r: Rules, f: nat, arr: seq<Json>, x: Json, p: Place)
    ensures AnySees(s, r, f, arr + [NullForm()], x, p) == AnySees(s, r, f, arr, x, p)
  {
    hide Accepts, Sees, AnySees, NullForm;
    NullFormAccepts(s, r, f, x);
    NullSeesNothing(s, r, f, NullForm(), x, p);
    AnySeesAt(s, r, f, arr, NullForm(), [], x, p);
    assert arr + [NullForm()] + [] == arr + [NullForm()] && arr + [] == arr;
  }

  lemma TargetSees(s: Schemas, r: Rules, f: nat, arr: seq<Json>, t: nat, x: Json, p: Place)
    requires t < |arr| && HasStringType(arr[t])
    ensures AnySees(s, r, f, arr[t := WithNull(arr[t])], x, p) == AnySees(s, r, f, arr, x, p)
  {
    hide Accepts, Sees, AnySees, HasStringType, WithNull;
    WithNullSees(s, r, f, arr[t], x, p);
    AnySeesAt(s, r, f, arr[..t], arr[t], arr[t + 1..], x, p);
    AnySeesAt(s, r, f, arr[..t], WithNull(arr[t]), arr[t + 1..], x, p);
    assert arr == arr[..t] + [arr[t]] + arr[t + 1..];
    assert arr[t := WithNull(arr[t])] == arr[..t] + [WithNull(arr[t])] + arr[t + 1..];
  }

  // The rewritten list evaluates what the list did.
  lemma MergeSees(s: Schemas, r: Rules, f: nat, arr: seq<Json>, x: Json, p: Place)
    requires NullIndex(arr) < |arr|
    ensures AnySees(s, r, f, Merged(arr), x, p) == AnySees(s, r, f, arr, x, p)
  {
    hide Accepts, Sees, AnySees, IsNullEntry, HasStringType, WithNull, NullForm, NullIndex, Spliced, TargetIndex;
    SplicedSees(s, r, f, arr, x, p);
    var rest := Spliced(arr);
    var t := TargetIndex(rest);
    if t < |rest| { TargetSees(s, r, f, rest, t, x, p); } else { NullFormSees(s, r, f, rest, x, p); }
  }

  // Only the verdict on null can change, and this is how.
  lemma MergeCountsNull(s: Schemas, r: Rules, f: nat, arr: seq<Json>)
    requires NullIndex(arr) < |arr|
    ensures forall x: Json :: !x.Null? || !HasTarget(arr) ==>
      Accepting(s, r, f, Merged(arr), x) == Accepting(s, r, f, arr, x)
    ensures HasTarget(arr) ==>
      var o := Accepting(s, r, f, Bystanders(arr), Null);
      var widened := Accepts(s, r, f, WithNull(MergeTarget(arr)), Null);
      Accepting(s, r, f, Merged(arr), Null) == o + (if widened then 1 else 0) &&
      Accepting(s, r, f, arr, Null) == o + 1 + if MergeTarget(arr).at["type"] == Str("null") && widened then 1 else 0
  {
    hide Accepts, Accepting, NullIndex, Merged, WithNull, Bystanders, MergeTarget;
    forall x: Json | !x.Null? || !HasTarget(arr)
      ensures Accepting(s, r, f, Merged(arr), x) == Accepting(s, r, f, arr, x)
    {
      MergeCounts(s, r, f, arr, x);
      if HasTarget(arr) { WithNullAccepts(s, r, f, MergeTarget(arr), x); }
    }
    if HasTarget(arr) {
      MergeCounts(s, r, f, arr, Null);
      WithNullAccepts(s, r, f, MergeTarget(arr), Null);
    }
  }

  // Under anyOf the rewrite changes no verdict exactly when the merge target accepts null once its
  // type does, or some bystander accepts null.
  lemma MergeKeepsAnyOfIff(s: Schemas, r: Rules, f: nat, arr: seq<Json>)
    requires NullIndex(arr) < |arr|
    ensures (forall x :: Accepting(s, r, f, arr, x) >= 1 <==> Accepting(s, r, f, Merged(arr), x) >= 1) <==>
      (HasTarget(arr) ==>
        Accepts(s, r, f, WithNull(MergeTarget(arr)), Null) || Accepting(s, r, f, Bystanders(arr), Null) >= 1)
  {
    hide Accepts, Accepting, NullIndex, Merged, WithNull, Bystanders, MergeTarget, HasTarget;
    MergeCountsNull(s, r, f, arr);
    assert forall x: Json :: x.Null? ==> x == Null;
    assert Accepting(s, r, f, arr, Null) >= 0;
  }

  // Under oneOf it also matters whether the merge target accepted null before.
  lemma MergeKeepsOneOfIff(s: Schemas, r: Rules, f: nat, arr: seq<Json>)
    requires NullIndex(arr) < |arr|
    ensures (forall x :: Accepting(s, r, f, arr, x) == 1 <==> Accepting(s, r, f, Merged(arr), x) == 1) <==>
      (HasTarget(arr) ==>
        var others := Accepting(s, r, f, Bystanders(arr), Null);
        var widened := Accepts(s, r, f, WithNull(MergeTarget(arr)), Null);
        if MergeTarget(arr).at["type"] == Str("null") then others >= 2 || (others == 1 && widened)
        else widened || others >= 2)
  {
    hide Accepts, Accepting, NullIndex, Merged, WithNull, Bystanders, MergeTarget, HasTarget;
    MergeCountsNull(s, r, f, arr);
    assert forall x: Json :: x.Null? ==> x == Null;
    assert Accepting(s, r, f, arr, Null) >= 0;
  }

  // ---------- one rewritten object ----------

  /** Keywords of JSON Schema Validation sections 6.2 to 6.5 and 7, which constrain no null. */
  const SCOPED: set<string> :=
    {"multipleOf", "maximum", "exclusiveMaximum", "minimum", "exclusiveMinimum", "maxLength", "minLength", "pattern",
     "format", "maxItems", "minItems", "uniqueItems", "maxProperties", "minProperties", "required", "dependentRequired"}

  ghost predicate Standard(r: Rules) {
    forall k, w :: k in SCOPED ==> r.other(k, w, Null)
  }

  /** The keyword k with value w does not reject null. */
  predicate Neutral(k: string, w: Json) {
    match KeywordOf(k)
    case Enum => w.Arr? && Null in w.items
    case Const => w == Null
    case Annotation => true
    case Definitions => true
    case If => true
    case DependentSchemas => w.Obj?
    case Properties => w.Obj?
    case PatternProperties => w.Obj?
    case AdditionalProperties => true
    case PropertyNames => true
    case PrefixItems => w.Arr?
    case Items => true
    case Contains => true
    case ContainsBound => true
    case Unevaluated => true
    case Other => k in SCOPED
    case _ => false
  }

  predicate Asserts(k: string) {
    !KeywordOf(k).Annotation? && !KeywordOf(k).Definitions?
  }

  predicate IsUnevaluated(k: string) {
    KeywordOf(k) == Unevaluated
  }

  /** Two objects whose keywords do not affect each other when b is dissolved into a: what asserts anything
      keeps its value and its neighbours. What is unevaluated in a has seen b already, but in b it would
      also see a. */
  predicate Mixes(a: Json, b: Json)
    requires a.Obj? && b.Obj?
  {
    && (forall k :: k in a.at && Asserts(k) && !IsUnevaluated(k) ==> Alike(a, Assign(a, b), k))
    && (forall k :: k in b.at && Asserts(k) ==> Alike(b, Assign(a, b), k))
    && (forall k :: k in b.at ==> !IsUnevaluated(k))
  }

  /** The merge target rejects null by nothing but its type, and what is dissolved into the object does not
      affect it. */
  predicate StepTame(obj: Json, key: string)
    requires obj.Obj?
  {
    HasNullEntry(obj, key) ==>
      var arr := obj.at[key].items;
      (TargetIndex(Spliced(arr)) < |Spliced(arr)| ==>
        var m := MergeTarget(arr);
        (key == "oneOf" ==> m.at["type"] != Str("null")) &&
          forall k :: k in m.at && k != "type" ==> Neutral(k, m.at[k])) &&
      (Unwraps(Merged(arr)) ==> Mixes(Delete(obj, key), Merged(arr)[0]))
  }

  lemma NeutralAcceptsNull(s: Schemas, r: Rules, f: nat, m: Json)
    requires Standard(r) && HasStringType(m) && forall k :: k in m.at && k != "type" ==> Neutral(k, m.at[k])
    ensures Accepts(s, r, f, WithNull(m), Null)
  {
    hide KeywordOf, Hits, Count, SCOPED;
    KeywordsOf();
    var w := WithNull(m);
    MergedType(r, m.at["type"].s, Null);
    hide TypeHolds;
    forall k | k in w.at ensures Holds(s, r, f, w, k, Null) {
      if k != "type" { assert Neutral(k, m.at[k]); }
    }
  }

  /** The rewritten list keeps the keyword's verdict on x. */
  ghost predicate ListKept(s: Schemas, r: Rules, f: nat, arr: seq<Json>, key: string, x: Json)
    requires NullIndex(arr) < |arr|
  {
    if key == "anyOf" then Accepting(s, r, f, arr, x) >= 1 <==> Accepting(s, r, f, Merged(arr), x) >= 1
    else Accepting(s, r, f, arr, x) == 1 <==> Accepting(s, r, f, Merged(arr), x) == 1
  }

  // A tame list accepts the same values after the rewrite.
  lemma TameListKept(s: Schemas, r: Rules, f: nat, obj: Json, key: string, x: Json)
    requires Standard(r) && obj.Obj? && StepTame(obj, key) && HasNullEntry(obj, key)
    requires (key == "anyOf" || key == "oneOf")
    ensures ListKept(s, r, f, obj.at[key].items, key, x)
  {
    hide Accepts, Accepting, NullIndex, Merged, Bystanders, WithNull, Neutral, Standard, MergeTarget, Unwraps;
    var arr := obj.at[key].items;
    if HasTarget(arr) { NeutralAcceptsNull(s, r, f, MergeTarget(arr)); }
    MergeKeepsAnyOfIff(s, r, f, arr);
    MergeKeepsOneOfIff(s, r, f, arr);
  }

  // Only what is unevaluated depends on anyOf and oneOf.
  lemma BesideList(v: Json, w: Json, key: string)
    requires v.Obj? && w.Obj? && (key == "anyOf" || key == "oneOf") && v.at - {key} == w.at - {key}
    ensures forall k :: k in v.at && k != key && KeywordOf(k) != Unevaluated ==> Alike(v, w, k)
  {
    OtherNames();
    forall k | k != key ensures At(v, k) == At(w, k) {
      assert k in v.at <==> k in v.at - {key};
      assert k in w.at <==> k in w.at - {key};
      if k in v.at { assert (v.at - {key})[k] == (w.at - {key})[k]; }
    }
    assert At(v, "properties") == At(w, "properties") && At(v, "patternProperties") == At(w, "patternProperties");
    assert At(v, "prefixItems") == At(w, "prefixItems") && At(v, "if") == At(w, "if");
    assert At(v, "minContains") == At(w, "minContains") && At(v, "maxContains") == At(w, "maxContains");
    hide KeywordOf;
    forall k | k in v.at && k != key && KeywordOf(k) != Unevaluated
      ensures Alike(v, w, k)
    {
      assert At(v, k) == At(w, k);
    }
  }

  lemma OtherNames()
    ensures forall k <- ["properties", "patternProperties", "prefixItems", "if", "minContains", "maxContains"] ::
      k != "anyOf" && k != "oneOf"
  {}

  // Objects that differ in anyOf or oneOf alone, where the lists say the same of x.
  lemma ReplacedList(s: Schemas, r: Rules, f: nat, v: Json, w: Json, key: string, x: Json)
    requires v.Obj? && w.Obj? && (key == "anyOf" || key == "oneOf") && key in v.at && key in w.at
    requires v.at - {key} == w.at - {key} && SameKeyword(s, s, r, f, v, w, key, x)
    ensures SameOn(s, s, r, f, v, w, x)
  {
    hide Accepts, Holds, SeesBy, Visible, Alike, KeywordOf;
    BesideList(v, w, key);
    AlikeHolds(s, r, f, v, w, x);
    SameValues(v, w, key);
    forall p | InPlace(x, p) ensures Visible(s, r, f, v, x, p) == Visible(s, r, f, w, x, p) {
      forall k | k in v.at && k != key ensures SeesBy(s, r, f, v, k, x, p) == SeesBy(s, r, f, w, k, x, p) {
        if KeywordOf(k) == Unevaluated { SeesLocal(s, r, f, v, w, k, x, p); }
      }
      VisibleDepends(s, s, r, f, v, w, x, p);
      VisibleDepends(s, s, r, f, w, v, x, p);
    }
    forall k | k in v.at && KeywordOf(k) == Unevaluated ensures SameKeyword(s, s, r, f, v, w, k, x) {
      if k != key { UnevaluatedDepends(s, s, r, f, v, w, k, x); }
    }
    SameKeywords(s, s, r, f, v, w, x);
  }

  lemma SameValues(v: Json, w: Json, key: string)
    requires v.Obj? && w.Obj? && key in v.at && key in w.at && v.at - {key} == w.at - {key}
    ensures v.at.Keys == w.at.Keys && forall k :: k in v.at && k != key ==> v.at[k] == w.at[k]
  {
    forall k | k != key ensures At(v, k) == At(w, k) {
      assert k in v.at <==> k in v.at - {key};
      assert k in w.at <==> k in w.at - {key};
      if k in v.at { assert (v.at - {key})[k] == (w.at - {key})[k]; }
    }
    forall k ensures k in v.at <==> k in w.at { assert k != key ==> At(v, k) == At(w, k); }
    forall k | k in v.at && k != key ensures v.at[k] == w.at[k] { assert At(v, k) == At(w, k); }
  }

  // Objects with the same verdict and the same evaluated places say the same.
  lemma SameVerdicts(s: Schemas, t: Schemas, r: Rules, f: nat, v: Json, w: Json, x: Json)
    requires v.Obj? && w.Obj? && Accepts(s, r, f, v, x) == Accepts(t, r, f, w, x)
    requires Accepts(s, r, f, v, x) ==> forall p :: InPlace(x, p) ==>
      Visible(s, r, f, v, x, p) == Visible(t, r, f, w, x, p)
    requires forall k | IsUnevaluated(k) :: k in v.at <==> k in w.at
    ensures SameOn(s, t, r, f, v, w, x)
  {
    hide Accepts, Visible, KeywordOf;
    assert forall k :: KeywordOf(k) == Unevaluated <==> IsUnevaluated(k);
  }

  // So do objects all of whose keywords do.
  lemma SameKeywords(s: Schemas, t: Schemas, r: Rules, f: nat, v: Json, w: Json, x: Json)
    requires v.Obj? && w.Obj? && v.at.Keys == w.at.Keys
    requires forall k :: k in v.at ==> SameKeyword(s, t, r, f, v, w, k, x)
    ensures SameOn(s, t, r, f, v, w, x)
  {
    hide Holds, SeesBy, Visible, IsUnevaluated, SameOn;
    forall p | InPlace(x, p) ensures Visible(s, r, f, v, x, p) == Visible(t, r, f, w, x, p) {
      VisibleDepends(s, t, r, f, v, w, x, p);
      VisibleDepends(t, s, r, f, w, v, x, p);
    }
    SameVerdicts(s, t, r, f, v, w, x);
  }

  // Putting the rewritten list in place of the old one.
  lemma ReplacedSame(s: Schemas, r: Rules, f: nat, obj: Json, key: string, x: Json)
    requires Standard(r) && obj.Obj? && StepTame(obj, key) && HasNullEntry(obj, key)
    requires (key == "anyOf" || key == "oneOf")
    ensures SameOn(s, s, r, f, obj, Obj(obj.keys, obj.at[key := Arr(Merged(obj.at[key].items))]), x)
  {
    hide Accepts, Holds, Sees, SeesBy, Accepting, AnySees, NullIndex, Merged, StepTame, Standard, KeywordOf, SameOn;
    var arr := obj.at[key].items;
    var v := Obj(obj.keys, obj.at[key := Arr(Merged(arr))]);
    TameListKept(s, r, f, obj, key, x);
    ListKeyword(s, r, f, obj, key, x);
    ListKeyword(s, r, f, v, key, x);
    forall p | InPlace(x, p) ensures SeesBy(s, r, f, obj, key, x, p) == SeesBy(s, r, f, v, key, x, p) {
      ListSeesBy(s, r, f, obj, key, x, p);
      ListSeesBy(s, r, f, v, key, x, p);
      MergeSees(s, r, f, arr, x, p);
    }
    assert obj.at - {key} == v.at - {key};
    ReplacedList(s, r, f, obj, v, key, x);
  }

  /** What w does not have of v, or not with the same neighbours, has nothing against x. */
  ghost predicate LostHold(s: Schemas, r: Rules, f: nat, v: Json, w: Json, x: Json)
    requires v.Obj? && w.Obj?
  {
    forall k :: k in v.at && !Alike(v, w, k) ==> Holds(s, r, f, v, k, x)
  }

  /** What w has neither from a nor from b has nothing against x. */
  ghost predicate NewHold(s: Schemas, r: Rules, f: nat, a: Json, b: Json, w: Json, x: Json)
    requires a.Obj? && b.Obj? && w.Obj?
  {
    forall k :: k in w.at && !Alike(a, w, k) && !Alike(b, w, k) ==> Holds(s, r, f, w, k, x)
  }

  // Dissolving b into a keeps a value's verdict exactly when, if the result accepts it, what was
  // overwritten or got other neighbours had nothing against it, and, if both accept it, what has other
  // neighbours now has nothing against it.
  lemma AssignKeepsIff(s: Schemas, r: Rules, f: nat, a: Json, b: Json, x: Json)
    requires a.Obj? && b.Obj?
    ensures var c := Assign(a, b);
      (Accepts(s, r, f, c, x) <==> Accepts(s, r, f, a, x) && Accepts(s, r, f, b, x)) <==>
      ((Accepts(s, r, f, c, x) ==> LostHold(s, r, f, a, c, x) && LostHold(s, r, f, b, c, x)) &&
       (Accepts(s, r, f, a, x) && Accepts(s, r, f, b, x) ==> NewHold(s, r, f, a, b, c, x)))
  {
    hide Holds, Without, SameNeighbours, KeywordOf;
    var c := Assign(a, b);
    AlikeHolds(s, r, f, a, c, x);
    AlikeHolds(s, r, f, b, c, x);
  }

  lemma AssertNothing(s: Schemas, r: Rules, f: nat, v: Json, x: Json)
    requires v.Obj?
    ensures forall k :: k in v.at && !Asserts(k) ==> Holds(s, r, f, v, k, x)
  {
    hide KeywordOf;
  }

  // What neither asserts anything nor evaluates.
  lemma SeeNothing(s: Schemas, r: Rules, f: nat, v: Json, x: Json, p: Place)
    requires v.Obj? && InPlace(x, p)
    ensures forall k :: k in v.at && (!Asserts(k) || IsUnevaluated(k)) ==> !SeesBy(s, r, f, v, k, x, p)
  {
    hide KeywordOf, Accepts, Sees;
  }

  /** w is v after its one entry e under key was dissolved into it, which keeps the verdict of every keyword but
      those for what is unevaluated. */
  ghost predicate Dissolved(s: Schemas, r: Rules, f: nat, v: Json, key: string, e: Json, w: Json, x: Json)
    requires v.Obj? && e.Obj? && w.Obj?
  {
    && key in v.at && w.at.Keys == v.at.Keys - {key} + e.at.Keys
    && (forall k :: k in e.at && Asserts(k) ==> SameKeyword(s, s, r, f, e, w, k, x))
    && (forall k :: k in v.at && k != key && Asserts(k) && !IsUnevaluated(k) ==> SameKeyword(s, s, r, f, v, w, k, x))
    && (forall k :: k in v.at && k != key && IsUnevaluated(k) ==> v.at[k] == w.at[k])
  }

  lemma MixDissolved(s: Schemas, r: Rules, f: nat, v: Json, key: string, e: Json, x: Json)
    requires v.Obj? && e.Obj? && key in v.at && (key == "anyOf" || key == "oneOf") && Mixes(Delete(v, key), e)
    ensures Dissolved(s, r, f, v, key, e, Assign(Delete(v, key), e), x)
  {
    var a := Delete(v, key);
    var w := Assign(a, e);
    assert v.at - {key} == a.at == a.at - {key};
    BesideList(v, a, key);
    MixedAlike(a, e);
    hide *;
    forall k | k in v.at && k != key ensures k in a.at && a.at[k] == v.at[k] { Deleted(v, key, k); }
    DeletedKeys(v, key);
    forall k | k in e.at && Asserts(k) ensures SameKeyword(s, s, r, f, e, w, k, x) {
      AlikeSame(s, r, f, e, w, k, x);
    }
    forall k | k in v.at && k != key && Asserts(k) && !IsUnevaluated(k)
      ensures SameKeyword(s, s, r, f, v, w, k, x)
    {
      KindOfUnevaluated(k);
      AlikeBoth(v, a, w, k);
      AlikeSame(s, r, f, v, w, k, x);
    }
    ItDissolved(s, r, f, v, key, e, w, x);
  }

  lemma ItDissolved(s: Schemas, r: Rules, f: nat, v: Json, key: string, e: Json, w: Json, x: Json)
    requires v.Obj? && e.Obj? && w.Obj? && key in v.at && w.at.Keys == v.at.Keys - {key} + e.at.Keys
    requires forall k :: k in e.at && Asserts(k) ==> SameKeyword(s, s, r, f, e, w, k, x)
    requires forall k :: k in v.at && k != key && Asserts(k) && !IsUnevaluated(k) ==>
      SameKeyword(s, s, r, f, v, w, k, x)
    requires forall k :: k in v.at && k != key && IsUnevaluated(k) ==> v.at[k] == w.at[k]
    ensures Dissolved(s, r, f, v, key, e, w, x)
  {
    hide SameKeyword, Asserts, IsUnevaluated;
  }

  lemma DeletedKeys(v: Json, key: string)
    requires v.Obj?
    ensures Delete(v, key).at.Keys == v.at.Keys - {key}
  {
    hide Without;
  }

  lemma Deleted(v: Json, key: string, k: string)
    requires v.Obj? && k in v.at && k != key
    ensures k in Delete(v, key).at && Delete(v, key).at[k] == v.at[k]
  {
    hide Without;
  }

  lemma AlikeBoth(u: Json, v: Json, w: Json, k: string)
    requires u.Obj? && v.Obj? && w.Obj? && Alike(u, v, k) && Alike(v, w, k)
    ensures Alike(u, w, k)
  {
    hide KeywordOf;
  }

  lemma AlikeSame(s: Schemas, r: Rules, f: nat, v: Json, w: Json, k: string, x: Json)
    requires v.Obj? && w.Obj? && Alike(v, w, k)
    ensures SameKeyword(s, s, r, f, v, w, k, x)
  {
    hide SameKeyword, KeywordOf, SameNeighbours;
    HoldsLocal(s, r, f, v, w, k, x);
  }

  lemma MixedAlike(a: Json, b: Json)
    requires a.Obj? && b.Obj? && Mixes(a, b)
    ensures var c := Assign(a, b);
      c.at.Keys == a.at.Keys + b.at.Keys &&
      (forall k :: k in a.at && Asserts(k) && !IsUnevaluated(k) ==> Alike(a, c, k)) &&
      (forall k :: k in b.at && Asserts(k) ==> Alike(b, c, k)) &&
      (forall k :: k in a.at && IsUnevaluated(k) ==> c.at[k] == a.at[k])
  {
    hide Alike, Asserts, IsUnevaluated, Without;
  }

  // Where the entry accepts x, the object evaluates what the object and its entry did.
  lemma DissolvedVisible(s: Schemas, r: Rules, f: nat, v: Json, key: string, e: Json, w: Json, x: Json, p: Place)
    requires v.Obj? && e.Obj? && w.Obj? && InPlace(x, p) && Dissolved(s, r, f, v, key, e, w, x)
    requires SeesBy(s, r, f, v, key, x, p) <==> Visible(s, r, f, e, x, p)
    ensures Visible(s, r, f, w, x, p) <==> Visible(s, r, f, v, x, p)
  {
    hide Holds, SeesBy, Asserts, IsUnevaluated;
    SeeNothing(s, r, f, v, x, p);
    SeeNothing(s, r, f, e, x, p);
    SeeNothing(s, r, f, w, x, p);
  }

  lemma AloneSees(s: Schemas, r: Rules, f: nat, v: Json, key: string, e: Json, x: Json, p: Place)
    requires v.Obj? && (key == "anyOf" || key == "oneOf") && key in v.at && v.at[key] == Arr([e]) && InPlace(x, p)
    requires e.Obj? && Accepts(s, r, f, e, x) && forall k :: k in e.at ==> !IsUnevaluated(k)
    ensures SeesBy(s, r, f, v, key, x, p) <==> Visible(s, r, f, e, x, p)
  {
    hide KeywordOf, Accepts, Visible, SeesBy, AnySees;
    ListSeesBy(s, r, f, v, key, x, p);
    OneSees(s, r, f, e, x, p);
  }

  lemma AloneHolds(s: Schemas, r: Rules, f: nat, v: Json, key: string, e: Json, x: Json)
    requires v.Obj? && (key == "anyOf" || key == "oneOf") && key in v.at && v.at[key] == Arr([e])
    ensures Holds(s, r, f, v, key, x) <==> Accepts(s, r, f, e, x)
    ensures Accepts(s, r, f, v, x) ==> Accepts(s, r, f, e, x)
  {
    hide Accepts, Holds, Accepting;
    ListKeyword(s, r, f, v, key, x);
    OneEntry(s, r, f, e, x);
    if !Holds(s, r, f, v, key, x) { Rejecting(s, r, f, v, key, x); }
  }

  lemma Rejecting(s: Schemas, r: Rules, f: nat, v: Json, k: string, x: Json)
    requires v.Obj? && k in v.at && !Holds(s, r, f, v, k, x)
    ensures !Accepts(s, r, f, v, x)
  {
    hide Holds;
  }

  // Dissolving the one entry of a list into an object that it mixes with: what is unevaluated in the object
  // finds the same evaluated as before.
  lemma DissolveKeeps(s: Schemas, r: Rules, f: nat, v: Json, key: string, e: Json, x: Json)
    requires v.Obj? && e.Obj? && (key == "anyOf" || key == "oneOf") && key in v.at && v.at[key] == Arr([e])
    requires Mixes(Delete(v, key), e)
    ensures SameOn(s, s, r, f, v, Assign(Delete(v, key), e), x)
  {
    hide *;
    var w := Assign(Delete(v, key), e);
    MixDissolved(s, r, f, v, key, e, x);
    AloneHolds(s, r, f, v, key, e, x);
    MixedEntry(v, key, e);
    if Accepts(s, r, f, e, x) {
      forall p | InPlace(x, p) ensures Visible(s, r, f, v, x, p) == Visible(s, r, f, w, x, p) {
        AloneSees(s, r, f, v, key, e, x, p);
        DissolvedVisible(s, r, f, v, key, e, w, x, p);
      }
      forall k | k in v.at && k != key && IsUnevaluated(k)
        ensures k in w.at && Holds(s, r, f, v, k, x) == Holds(s, r, f, w, k, x)
      {
        DissolvedRest(s, r, f, v, key, e, w, k, x);
      }
    }
    DissolvedAccepts(s, r, f, v, key, e, w, x);
    SameVerdicts(s, s, r, f, v, w, x);
  }

  lemma MixedEntry(v: Json, key: string, e: Json)
    requires v.Obj? && e.Obj? && key in v.at && (key == "anyOf" || key == "oneOf") && Mixes(Delete(v, key), e)
    ensures forall k :: k in e.at ==> !IsUnevaluated(k)
    ensures forall k | IsUnevaluated(k) :: k in v.at <==> k in Assign(Delete(v, key), e).at
  {
    KeywordsOf();
    hide KeywordOf, Without, Alike;
  }

  lemma DissolvedRest(s: Schemas, r: Rules, f: nat, v: Json, key: string, e: Json, w: Json, k: string, x: Json)
    requires v.Obj? && e.Obj? && w.Obj? && Dissolved(s, r, f, v, key, e, w, x)
    requires k in v.at && k != key && IsUnevaluated(k)
    requires forall p :: InPlace(x, p) ==> Visible(s, r, f, v, x, p) == Visible(s, r, f, w, x, p)
    ensures k in w.at && Holds(s, r, f, v, k, x) == Holds(s, r, f, w, k, x)
  {
    hide Accepts, Holds, SeesBy, Visible, KeywordOf;
    UnevaluatedDepends(s, s, r, f, v, w, k, x);
  }

  // The verdict follows once what is unevaluated does.
  lemma DissolvedAccepts(s: Schemas, r: Rules, f: nat, v: Json, key: string, e: Json, w: Json, x: Json)
    requires v.Obj? && e.Obj? && w.Obj? && Dissolved(s, r, f, v, key, e, w, x)
    requires Holds(s, r, f, v, key, x) <==> Accepts(s, r, f, e, x)
    requires Accepts(s, r, f, e, x) ==> forall k :: k in v.at && k != key && IsUnevaluated(k) ==>
      k in w.at && Holds(s, r, f, v, k, x) == Holds(s, r, f, w, k, x)
    ensures Accepts(s, r, f, v, x) == Accepts(s, r, f, w, x)
  {
    AssertNothing(s, r, f, v, x);
    AssertNothing(s, r, f, e, x);
    AssertNothing(s, r, f, w, x);
    DissolvedHolds(s, r, f, v, key, e, w, x);
    hide Holds, Asserts, IsUnevaluated, SameKeyword, Dissolved;
  }

  lemma DissolvedHolds(s: Schemas, r: Rules, f: nat, v: Json, key: string, e: Json, w: Json, x: Json)
    requires v.Obj? && e.Obj? && w.Obj? && Dissolved(s, r, f, v, key, e, w, x)
    ensures key in v.at && forall k :: k in w.at <==> (k in v.at && k != key) || k in e.at
    ensures forall k :: k in e.at && Asserts(k) ==> Holds(s, r, f, e, k, x) == Holds(s, r, f, w, k, x)
    ensures forall k :: k in v.at && k != key && Asserts(k) && !IsUnevaluated(k) ==>
      Holds(s, r, f, v, k, x) == Holds(s, r, f, w, k, x)
  {
    hide Holds, SeesBy, Asserts, IsUnevaluated;
  }

  // Where the list keeps its verdict, dissolving its one entry keeps the object's verdict exactly when,
  // if the result accepts a value, what the object lost had nothing against it, and, if the object
  // accepted it, what is in the result neither from the object nor from the entry has nothing against it.
  lemma DissolveKeepsIff(s: Schemas, r: Rules, f: nat, obj: Json, key: string, x: Json)
    requires obj.Obj? && (key == "anyOf" || key == "oneOf") && HasNullEntry(obj, key)
    requires Unwraps(Merged(obj.at[key].items))
    requires ListKept(s, r, f, obj.at[key].items, key, x)
    ensures var e, c := Merged(obj.at[key].items)[0], Convert(obj, key);
      (Accepts(s, r, f, c, x) == Accepts(s, r, f, obj, x)) <==>
      ((Accepts(s, r, f, c, x) ==> LostHold(s, r, f, obj, c, x)) &&
       (Accepts(s, r, f, obj, x) ==> NewHold(s, r, f, obj, e, c, x)))
  {
    hide Accepts, Holds, Accepting, NullIndex, Merged, Convert, Alike, LostHold, NewHold;
    var arr := Merged(obj.at[key].items);
    assert arr == [arr[0]];
    ListKeyword(s, r, f, obj, key, x);
    OneEntry(s, r, f, arr[0], x);
    hide *;
    ThreeVerdicts(s, r, f, obj, key, arr[0], Convert(obj, key), x);
  }

  lemma ThreeVerdicts(s: Schemas, r: Rules, f: nat, v: Json, key: string, e: Json, w: Json, x: Json)
    requires v.Obj? && e.Obj? && w.Obj? && key in v.at && Holds(s, r, f, v, key, x) == Accepts(s, r, f, e, x)
    ensures (Accepts(s, r, f, w, x) == Accepts(s, r, f, v, x)) <==>
      ((Accepts(s, r, f, w, x) ==> LostHold(s, r, f, v, w, x)) &&
        (Accepts(s, r, f, v, x) ==> NewHold(s, r, f, v, e, w, x)))
  {
    hide Holds, SameNeighbours, KeywordOf;
    AlikeHolds(s, r, f, v, w, x);
    AlikeHolds(s, r, f, e, w, x);
  }

  // A tame rewrite of one composition keyword changes no verdict, nor what is evaluated.
  lemma ConvertKeeps(s: Schemas, r: Rules, f: nat, obj: Json, key: string, x: Json)
    requires Standard(r) && obj.Obj? && StepTame(obj, key) && (key == "anyOf" || key == "oneOf")
    ensures SameOn(s, s, r, f, obj, Convert(obj, key), x)
  {
    hide Accepts, Sees, NullIndex, Merged, Standard, Assign, Mixes, MergeTarget, TargetIndex, Neutral;
    if HasNullEntry(obj, key) {
      var arr := Merged(obj.at[key].items);
      var v := Obj(obj.keys, obj.at[key := Arr(arr)]);
      ReplacedSame(s, r, f, obj, key, x);
      if Unwraps(arr) {
        assert arr == [arr[0]];
        assert Delete(v, key) == Delete(obj, key);
        DissolveKeeps(s, r, f, v, key, arr[0], x);
      }
    }
  }

  // ---------- whole schemas ----------

  /** Every rewrite inside the schema v is tame, and keywords that hold no schemas hold nothing to rewrite. */
  predicate Tame(v: Json)
    decreases v, 1
  {
    v.Obj? ==>
      (forall k :: k in v.at ==> TameAt(KeywordOf(k), v.at[k])) &&
      StepTame(Inside(v), "anyOf") && StepTame(Convert(Inside(v), "anyOf"), "oneOf")
  }

  predicate TameAt(k: Keyword, w: Json)
    decreases w, 2
  {
    match k
    case Annotation => true
    case Definitions => true
    case AnyOf => TameList(w)
    case OneOf => TameList(w)
    case AllOf => TameList(w)
    case PrefixItems => TameList(w)
    case Not => Tame(w)
    case If => Tame(w)
    case Then => Tame(w)
    case Else => Tame(w)
    case AdditionalProperties => Tame(w)
    case PropertyNames => Tame(w)
    case Items => Tame(w)
    case Contains => Tame(w)
    case DependentSchemas => TameMap(w)
    case Properties => TameMap(w)
    case PatternProperties => TameMap(w)
    case Unevaluated => Tame(w)
    case _ => TransformNullTypes(w) == w
  }

  // A map of schemas, none of which has the name of a composition keyword and is a list.
  predicate TameMap(w: Json)
    decreases w, 1
  {
    if w.Obj? then !HasList(w, "anyOf") && !HasList(w, "oneOf") && forall p :: p in w.at ==> Tame(w.at[p])
    else TransformNullTypes(w) == w
  }

  predicate HasList(w: Json, key: string)
    requires w.Obj?
  {
    key in w.at && w.at[key].Arr?
  }

  predicate TameList(w: Json)
    decreases w, 1
  {
    if w.Arr? then forall i :: 0 <= i < |w.items| ==> Tame(w.items[i]) else TransformNullTypes(w) == w
  }

  ghost function Transformed(s: Schemas): Schemas {
    map n | n in s :: TransformNullTypes(s[n])
  }

  lemma MapTransformed(w: Json)
    requires w.Obj? && TameMap(w)
    ensures TransformNullTypes(w) == Inside(w)
  {}

  // The whole rewrite changes no verdict of a tame document, at any nesting level and through references, nor
  // what is evaluated of the value.
  lemma {:induction false} TransformKeeps(s: Schemas, r: Rules, f: nat, v: Json, x: Json)
    requires Standard(r) && Tame(v) && forall n :: n in s ==> Tame(s[n])
    ensures Accepts(Transformed(s), r, f, TransformNullTypes(v), x) == Accepts(s, r, f, v, x)
    ensures SameOn(Transformed(s), s, r, f, TransformNullTypes(v), v, x)
    decreases f, v, 3
  {
    hide Standard, Tame, TameAt, Holds, Visible, StepTame, Convert, Transformed, KeywordOf;
    if v.Obj? {
      var t, u := Transformed(s), Inside(v);
      TameNode(v);
      InsideKeeps(s, r, f, v, x);
      ConvertKeeps(t, r, f, u, "anyOf", x);
      ConvertKeeps(t, r, f, Convert(u, "anyOf"), "oneOf", x);
      hide Accepts, Sees;
    }
  }

  lemma {:induction false} InsideKeeps(s: Schemas, r: Rules, f: nat, v: Json, x: Json)
    requires Standard(r) && v.Obj? && Tame(v) && forall n :: n in s ==> Tame(s[n])
    ensures SameOn(Transformed(s), s, r, f, Inside(v), v, x)
    decreases f, v, 2
  {
    hide *;
    var t, u := Transformed(s), Inside(v);
    TameNode(v);
    forall k | k in v.at && !IsUnevaluated(k) ensures SameKeyword(t, s, r, f, u, v, k, x) {
      InsideHolds(s, r, f, v, k, x);
    }
    forall p | InPlace(x, p) ensures Visible(t, r, f, u, x, p) == Visible(s, r, f, v, x, p) {
      SameVisible(t, s, r, f, u, v, x, p);
    }
    forall k | k in v.at && IsUnevaluated(k) ensures SameKeyword(t, s, r, f, u, v, k, x) {
      InsideRest(s, r, f, v, k, x);
    }
    SameKeywords(t, s, r, f, u, v, x);
  }

  lemma SameVisible(s: Schemas, t: Schemas, r: Rules, f: nat, v: Json, w: Json, x: Json, p: Place)
    requires v.Obj? && w.Obj? && v.at.Keys == w.at.Keys && InPlace(x, p)
    requires forall k :: k in v.at && !IsUnevaluated(k) ==> SameKeyword(s, t, r, f, v, w, k, x)
    ensures Visible(s, r, f, v, x, p) == Visible(t, r, f, w, x, p)
  {
    hide Holds, SeesBy, IsUnevaluated;
    SeeNothing(s, r, f, v, x, p);
    SeeNothing(t, r, f, w, x, p);
  }

  // What is unevaluated inside, where all other keywords evaluate the same.
  lemma {:induction false} InsideRest(s: Schemas, r: Rules, f: nat, v: Json, k: string, x: Json)
    requires Standard(r) && v.Obj? && Tame(v) && k in v.at && IsUnevaluated(k) && forall n :: n in s ==> Tame(s[n])
    requires forall p :: InPlace(x, p) ==> Visible(Transformed(s), r, f, Inside(v), x, p) == Visible(s, r, f, v, x, p)
    ensures SameKeyword(Transformed(s), s, r, f, Inside(v), v, k, x)
    decreases f, v, 0
  {
    hide *;
    KindOfUnevaluated(k);
    TameNode(v);
    TameValue(KeywordOf(k), v.at[k]);
    InsideAt(v, k);
    forall y: Json ensures Accepts(Transformed(s), r, f, Inside(v).at[k], y) == Accepts(s, r, f, v.at[k], y) {
      TransformKeeps(s, r, f, v.at[k], y);
    }
    UnevaluatedDepends(Transformed(s), s, r, f, Inside(v), v, k, x);
  }

  lemma KindOfUnevaluated(k: string)
    ensures IsUnevaluated(k) <==> KeywordOf(k).Unevaluated?
  {
    hide KeywordOf;
  }

  lemma TameNode(v: Json)
    requires v.Obj? && Tame(v)
    ensures forall k :: k in v.at ==> TameAt(KeywordOf(k), v.at[k])
    ensures StepTame(Inside(v), "anyOf") && StepTame(Convert(Inside(v), "anyOf"), "oneOf")
  {}

  lemma {:induction false} InsideHolds(s: Schemas, r: Rules, f: nat, v: Json, k: string, x: Json)
    requires Standard(r) && v.Obj? && Tame(v) && k in v.at && !IsUnevaluated(k) && forall n :: n in s ==> Tame(s[n])
    ensures SameKeyword(Transformed(s), s, r, f, Inside(v), v, k, x)
    decreases f, v, 1
  {
    hide *;
    KindOfUnevaluated(k);
    TameNode(v);
    InsideAt(v, k);
    TameValue(KeywordOf(k), v.at[k]);
    KindsOf(KeywordOf(k));
    if HoldsPart(KeywordOf(k)) {
      PartHolds(s, r, f, v, k, x);
    } else if HoldsMap(KeywordOf(k)) {
      MapHolds(s, r, f, v, k, x);
    } else if HoldsList(KeywordOf(k)) {
      ListHolds(s, r, f, v, k, x);
    } else if IsBranch(KeywordOf(k)) {
      BranchHolds(s, r, f, v, k, x);
    } else if KeywordOf(k).Ref? {
      RefHolds(s, r, f, v, k, x);
    } else if IsSilent(KeywordOf(k)) {
      SilentDepends(Transformed(s), s, r, f, Inside(v), v, k, x);
    } else {
      DataDepends(Transformed(s), s, r, f, Inside(v), v, k, x);
    }
  }

  lemma InsideAt(v: Json, k: string)
    requires v.Obj? && k in v.at
    ensures Inside(v).at[k] == TransformNullTypes(v.at[k])
  {
    hide TransformNullTypes;
  }

  lemma TameValue(k: Keyword, w: Json)
    requires TameAt(k, w)
    ensures HoldsList(k) ==> TameList(w)
    ensures HoldsPart(k) || k.If? || IsBranch(k) || k.Unevaluated? ==> Tame(w)
    ensures HoldsMap(k) ==> TameMap(w)
    ensures HoldsData(k) || k.Ref? || k.ContainsBound? ==> TransformNullTypes(w) == w
  {
    hide TameList, Tame, TameMap, TransformNullTypes;
  }

  // Transforming what is inside leaves the neighbours that matter as they were.
  lemma InsideNeighbours(v: Json, k: Keyword)
    requires v.Obj? && Tame(v) && HoldsPart(k)
    ensures SameNeighbours(k, Inside(v), v)
  {
    KeywordNames();
    hide Tame, Inside, KeywordOf, KeysAt, PrefixLength, At;
    match k
    case AdditionalProperties =>
      InsideKeys(v, "properties");
      InsideKeys(v, "patternProperties");
    case Items => InsidePrefix(v);
    case Contains =>
      InsideBound(v, "minContains");
      InsideBound(v, "maxContains");
    case _ =>
  }

  lemma InsideKeys(v: Json, k: string)
    requires v.Obj? && Tame(v) && HoldsMap(KeywordOf(k))
    ensures KeysAt(Inside(v), k) == KeysAt(v, k)
  {
    hide *;
    TameNode(v);
    if k in v.at {
      TameValue(KeywordOf(k), v.at[k]);
      MapParts(v.at[k]);
      InsideAt(v, k);
    }
    SameKeysAt(Inside(v), v, k);
  }

  lemma SameKeysAt(v: Json, w: Json, k: string)
    requires v.Obj? && w.Obj? && (k in v.at <==> k in w.at)
    requires k in v.at ==> (v.at[k].Obj? <==> w.at[k].Obj?) && (v.at[k].Obj? ==> v.at[k].at.Keys == w.at[k].at.Keys)
    ensures KeysAt(v, k) == KeysAt(w, k)
  {}

  lemma InsidePrefix(v: Json)
    requires v.Obj?
    ensures PrefixLength(Inside(v)) == PrefixLength(v)
  {
    hide Convert;
    if "prefixItems" in v.at { InsideAt(v, "prefixItems"); }
  }

  lemma InsideBound(v: Json, k: string)
    requires v.Obj? && Tame(v) && KeywordOf(k) == ContainsBound
    ensures At(Inside(v), k) == At(v, k)
  {
    hide *;
    TameNode(v);
    if k in v.at {
      TameValue(KeywordOf(k), v.at[k]);
      InsideAt(v, k);
    }
    SameAt(Inside(v), v, k);
  }

  lemma SameAt(v: Json, w: Json, k: string)
    requires v.Obj? && w.Obj? && (k in v.at <==> k in w.at) && (k in v.at ==> v.at[k] == w.at[k])
    ensures At(v, k) == At(w, k)
  {}

  lemma {:induction false} RefHolds(s: Schemas, r: Rules, f: nat, v: Json, k: string, x: Json)
    requires Standard(r) && v.Obj? && k in v.at && KeywordOf(k) == Ref && Inside(v).at[k] == v.at[k]
    requires forall n :: n in s ==> Tame(s[n])
    ensures SameKeyword(Transformed(s), s, r, f, Inside(v), v, k, x)
    decreases f, v, 0
  {
    hide *;
    var w, t := Inside(v), Transformed(s);
    TransformedAt(s);
    RefAlike(v, w, k);
    if IsRef(v) && Target(v) in s && f > 0 { TransformKeeps(s, r, f - 1, s[Target(v)], x); }
    RefDepends(t, s, r, f, w, v, k, x);
  }

  lemma TransformedAt(s: Schemas)
    ensures Transformed(s).Keys == s.Keys && forall n :: n in s ==> Transformed(s)[n] == TransformNullTypes(s[n])
  {
    hide TransformNullTypes;
  }

  lemma {:induction false} PartSame(s: Schemas, r: Rules, f: nat, w: Json)
    requires Standard(r) && Tame(w) && forall n :: n in s ==> Tame(s[n])
    ensures Same(Transformed(s), s, r, f, TransformNullTypes(w), w)
    decreases f, w, 4
  {
    hide Accepts, Sees, SameOn, Standard, Tame, TransformNullTypes, Transformed;
    forall x: Json { TransformKeeps(s, r, f, w, x); }
  }

  lemma {:induction false} PartHolds(s: Schemas, r: Rules, f: nat, v: Json, k: string, x: Json)
    requires Standard(r) && v.Obj? && Tame(v) && k in v.at && Tame(v.at[k]) && forall n :: n in s ==> Tame(s[n])
    requires HoldsPart(KeywordOf(k))
    ensures SameKeyword(Transformed(s), s, r, f, Inside(v), v, k, x)
    decreases f, v, 0
  {
    hide *;
    InsideNeighbours(v, KeywordOf(k));
    InsideAt(v, k);
    PartSame(s, r, f, v.at[k]);
    PartDepends(Transformed(s), s, r, f, Inside(v), v, k, x);
  }

  lemma {:induction false} BranchHolds(s: Schemas, r: Rules, f: nat, v: Json, k: string, x: Json)
    requires Standard(r) && v.Obj? && Tame(v) && k in v.at && Tame(v.at[k]) && forall n :: n in s ==> Tame(s[n])
    requires IsBranch(KeywordOf(k))
    ensures SameKeyword(Transformed(s), s, r, f, Inside(v), v, k, x)
    decreases f, v, 0
  {
    hide *;
    KeywordNames();
    TameNode(v);
    InsideAt(v, k);
    TransformKeeps(s, r, f, v.at[k], x);
    if "if" in v.at {
      InsideAt(v, "if");
      TameValue(If, v.at["if"]);
      TransformKeeps(s, r, f, v.at["if"], x);
    }
    BranchDepends(Transformed(s), s, r, f, Inside(v), v, k, x);
  }

  lemma {:induction false} MapHolds(s: Schemas, r: Rules, f: nat, v: Json, k: string, x: Json)
    requires Standard(r) && v.Obj? && k in v.at && TameMap(v.at[k]) && forall n :: n in s ==> Tame(s[n])
    requires HoldsMap(KeywordOf(k))
    ensures SameKeyword(Transformed(s), s, r, f, Inside(v), v, k, x)
    decreases f, v, 0
  {
    hide *;
    InsideAt(v, k);
    MapParts(v.at[k]);
    if v.at[k].Obj? {
      forall q | q in v.at[k].at
        ensures Same(Transformed(s), s, r, f, Inside(v).at[k].at[q], v.at[k].at[q])
      {
        PartSame(s, r, f, v.at[k].at[q]);
      }
      MapDepends(Transformed(s), s, r, f, Inside(v), v, k, x);
    } else {
      DataDepends(Transformed(s), s, r, f, Inside(v), v, k, x);
    }
  }

  lemma {:induction false} ListHolds(s: Schemas, r: Rules, f: nat, v: Json, k: string, x: Json)
    requires Standard(r) && v.Obj? && k in v.at && TameList(v.at[k]) && forall n :: n in s ==> Tame(s[n])
    requires HoldsList(KeywordOf(k))
    ensures SameKeyword(Transformed(s), s, r, f, Inside(v), v, k, x)
    decreases f, v, 0
  {
    hide *;
    InsideAt(v, k);
    ListParts(v.at[k]);
    if v.at[k].Arr? {
      forall i | 0 <= i < |v.at[k].items|
        ensures Same(Transformed(s), s, r, f, Inside(v).at[k].items[i], v.at[k].items[i])
      {
        PartSame(s, r, f, v.at[k].items[i]);
      }
      ListDepends(Transformed(s), s, r, f, Inside(v), v, k, x);
    } else {
      DataDepends(Transformed(s), s, r, f, Inside(v), v, k, x);
    }
  }

  lemma MapParts(w: Json)
    requires TameMap(w)
    ensures w.Obj? ==> TransformNullTypes(w).at.Keys == w.at.Keys
    ensures w.Obj? ==> forall p :: p in w.at ==>
      Tame(w.at[p]) && TransformNullTypes(w).at[p] == TransformNullTypes(w.at[p])
    ensures !w.Obj? ==> TransformNullTypes(w) == w
  {
    hide Tame, TransformNullTypes;
    if w.Obj? {
      MapTransformed(w);
      forall p | p in w.at ensures TransformNullTypes(w).at[p] == TransformNullTypes(w.at[p]) { InsideAt(w, p); }
    }
  }

  lemma ListParts(w: Json)
    requires TameList(w)
    ensures w.Arr? ==> TransformNullTypes(w).Arr? && |TransformNullTypes(w).items| == |w.items|
    ensures w.Arr? ==> forall i :: 0 <= i < |w.items| ==>
      Tame(w.items[i]) && TransformNullTypes(w).items[i] == TransformNullTypes(w.items[i])
    ensures !w.Arr? ==> TransformNullTypes(w) == w
  {
    hide Tame, Convert;
  }
}
