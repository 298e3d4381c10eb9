/** transformNullTypes: standalone null entries of anyOf and oneOf become type arrays, or dissolve into
    the schema around them. */
module NullTypes {
  import opened Strings
  import opened Json

  // ---------- the rewrite ----------

  /** {"type": "null"} and nothing else */
  predicate IsNullEntry(v: Json) {
    v.Obj? && v.at.Keys == {"type"} && v.at["type"] == Str("null")
  }

  predicate HasStringType(v: Json) {
    v.Obj? && "type" in v.at && v.at["type"].Str?
  }

  function NullIndex(arr: seq<Json>): (i: nat)
    ensures i <= |arr| && (i < |arr| ==> IsNullEntry(arr[i]))
    ensures forall j :: 0 <= j < i ==> !IsNullEntry(arr[j])
  {
    if arr == [] || IsNullEntry(arr[0]) then 0
    else
      var i := NullIndex(arr[1..]);
      assert forall j :: 0 < j < |arr| ==> arr[j] == arr[1..][j - 1];
      i + 1
  }

  function TargetIndex(arr: seq<Json>): (i: nat)
    ensures i <= |arr| && (i < |arr| ==> HasStringType(arr[i]))
    ensures forall j :: 0 <= j < i ==> !HasStringType(arr[j])
  {
    if arr == [] || HasStringType(arr[0]) then 0
    else
      var i := TargetIndex(arr[1..]);
      assert forall j :: 0 < j < |arr| ==> arr[j] == arr[1..][j - 1];
      i + 1
  }

  // The merge target with "null" added to its type.
  function WithNull(v: Json): (r: Json)
    requires HasStringType(v)
    ensures r.Obj?
  {
    Obj(v.keys, v.at["type" := Arr([v.at["type"], Str("null")])])
  }

  function NullForm(): (r: Json)
    ensures r.Obj?
  {
    Obj(["type"], map["type" := Arr([Str("null")])])
  }

  /** The list without its first standalone null entry. */
  function Spliced(arr: seq<Json>): seq<Json>
    requires NullIndex(arr) < |arr|
  {
    arr[..NullIndex(arr)] + arr[NullIndex(arr) + 1..]
  }

  /** The list after the rewrite. */
  function Merged(arr: seq<Json>): (out: seq<Json>)
    requires NullIndex(arr) < |arr|
    ensures |out| == 1 ==> out[0].Obj?
  {
    var rest := Spliced(arr);
    var t := TargetIndex(rest);
    if t < |rest| then rest[t := WithNull(rest[t])] else rest + [NullForm()]
  }

  /** Object.assign(obj, entry) */
  function Assign(obj: Json, entry: Json): (r: Json)
    requires obj.Obj? && entry.Obj?
    ensures r.Obj?
  {
    Obj(obj.keys + Without(entry.keys, obj.at.Keys), obj.at + entry.at)
  }

  function Delete(obj: Json, key: string): (r: Json)
    requires obj.Obj?
    ensures r.Obj?
  {
    Obj(Without(obj.keys, {key}), obj.at - {key})
  }

  predicate HasNullEntry(obj: Json, key: string)
    requires obj.Obj?
  {
    key in obj.at && obj.at[key].Arr? && NullIndex(obj.at[key].items) < |obj.at[key].items|
  }

  predicate Unwraps(arr: seq<Json>) {
    |arr| == 1 && arr[0].Obj? && "$ref" !in arr[0].at
  }

  /** One composition keyword of one object. */
  function Convert(obj: Json, key: string): (r: Json)
    requires obj.Obj?
    ensures r.Obj?
  {
    if !HasNullEntry(obj, key) then obj
    else
      var arr := Merged(obj.at[key].items);
      if Unwraps(arr) then Assign(Delete(obj, key), arr[0]) else Obj(obj.keys, obj.at[key := Arr(arr)])
  }

  /** transformNullTypes */
  function TransformNullTypes(v: Json): (r: Json)
    ensures v.Obj? <==> r.Obj?
    ensures v.Arr? <==> r.Arr?
    ensures !v.Arr? && !v.Obj? ==> r == v
  {
    match v
    case Arr(xs) => Arr(seq(|xs|, i requires 0 <= i < |xs| => TransformNullTypes(xs[i])))
    case Obj(_, _) => Convert(Convert(Inside(v), "anyOf"), "oneOf")
    case _ => v
  }

  // The object with its values transformed first.
  function Inside(v: Json): (r: Json)
    requires v.Obj?
    ensures r.Obj? && r.keys == v.keys && r.at.Keys == v.at.Keys
    decreases v, 0
  {
    Obj(v.keys, map k | k in v.at :: TransformNullTypes(v.at[k]))
  }

  /** A schema object that is edited in place. */
  class SchemaObject {
    var keys: seq<string>
    var at: map<string, Json>

    constructor (v: Json)
      requires v.Obj?
      ensures Value() == v
    {
      keys, at := v.keys, v.at;
    }

    function Value(): (v: Json)
      reads this
      ensures v.Obj?
    {
      Obj(keys, at)
    }

    /** Replaces the list under key, or dissolves it into the object when one entry is left. */
    method ConvertNullEntries(key: string)
      modifies this
      ensures Value() == Convert(old(Value()), key)
    {
      hide IsNullEntry, HasStringType, Without, NullForm;
      if key !in at || !at[key].Arr? { return; }
      var arr := at[key].items;
      var nullIdx := 0;
      while nullIdx < |arr| && !IsNullEntry(arr[nullIdx])
        invariant 0 <= nullIdx <= |arr| && forall j :: 0 <= j < nullIdx ==> !IsNullEntry(arr[j])
      {
        nullIdx := nullIdx + 1;
      }
      assert nullIdx == NullIndex(arr);
      if nullIdx == |arr| { return; }
      arr := arr[..nullIdx] + arr[nullIdx + 1..];
      var t := 0;
      while t < |arr| && !HasStringType(arr[t])
        invariant 0 <= t <= |arr| && forall j :: 0 <= j < t ==> !HasStringType(arr[j])
      {
        t := t + 1;
      }
      assert t == TargetIndex(arr);
      if t < |arr| { arr := arr[t := WithNull(arr[t])]; } else { arr := arr + [NullForm()]; }
      if Unwraps(arr) {
        keys, at := Without(keys, {key}), at - {key};
        keys, at := keys + Without(arr[0].keys, at.Keys), at + arr[0].at;
      } else {
        at := at[key := Arr(arr)];
      }
    }
  }

  // ---------- the rewritten object, key by key ----------

  /** {"type": "null"} */
  ghost predicate IsJustNull(v: Json) {
    v.Obj? && v.at == map["type" := Str("null")]
  }

  ghost predicate HasTypeName(v: Json) {
    v.Obj? && "type" in v.at && exists name :: v.at["type"] == Str(name)
  }

  /** The n-th entry is the first standalone null. */
  ghost predicate FirstNull(arr: seq<Json>, n: nat) {
    n < |arr| && IsJustNull(arr[n]) && forall j :: 0 <= j < n ==> !IsJustNull(arr[j])
  }

  /** The t-th entry is the first one whose type is a name. */
  ghost predicate FirstTyped(arr: seq<Json>, t: nat) {
    t < |arr| && HasTypeName(arr[t]) && forall j :: 0 <= j < t ==> !HasTypeName(arr[j])
  }

  /** out is obj without key but with the entry's keys: obj's other keys come first, in their order, then those
      of the entry that are new; where both have a key the entry's value counts. */
  ghost predicate Dissolves(obj: Json, key: string, entry: Json, out: Json)
    requires obj.Obj? && entry.Obj?
  {
    && out.Obj? && out.at.Keys == (obj.at.Keys - {key}) + entry.at.Keys
    && (forall k :: k in out.at ==> out.at[k] == if k in entry.at then entry.at[k] else obj.at[k])
    && exists own, more ::
      out.keys == own + more && ListsRest(own, obj.keys, {key}) && ListsRest(more, entry.keys, obj.at.Keys - {key})
  }

  lemma DeleteAssignDissolves(obj: Json, key: string, entry: Json)
    requires obj.Obj? && entry.Obj? && WellFormed(obj) && NoDup(entry.keys)
    ensures Dissolves(obj, key, entry, Assign(Delete(obj, key), entry))
  {
    hide WellFormed, Without, ListsRest;
    WithoutListsRest(obj.keys, {key}) by { ObjectKeys(obj); }
    WithoutListsRest(entry.keys, obj.at.Keys - {key});
    assert Delete(obj, key).at.Keys == obj.at.Keys - {key};
  }

  lemma ObjectKeys(v: Json)
    requires v.Obj? && WellFormed(v)
    ensures NoDup(v.keys) && Elems(v.keys) == v.at.Keys
  {}

  lemma NullIndexIs(arr: seq<Json>, n: nat)
    requires FirstNull(arr, n)
    ensures NullIndex(arr) == n
  {
    hide NullIndex;
    assert forall v: Json :: IsNullEntry(v) <==> IsJustNull(v) by {
      forall v: Json ensures IsNullEntry(v) <==> IsJustNull(v) { JustNull(v); }
    }
    hide IsNullEntry, IsJustNull;
  }

  lemma JustNull(v: Json)
    ensures IsNullEntry(v) <==> IsJustNull(v)
  {}

  lemma TargetIndexIs(arr: seq<Json>, t: nat)
    requires FirstTyped(arr, t)
    ensures TargetIndex(arr) == t
  {
    hide TargetIndex;
  }

  // A list in which an entry has a type name: the standalone null goes, and that entry's type becomes
  // the pair of its name and null. When no other entry is left, it dissolves, unless it is a reference.
  lemma ConvertsTyped(obj: Json, key: string, n: nat, t: nat)
    requires obj.Obj? && WellFormed(obj) && key in obj.at && obj.at[key].Arr? && FirstNull(obj.at[key].items, n)
    requires FirstTyped(obj.at[key].items[..n] + obj.at[key].items[n + 1..], t)
    ensures var rest := obj.at[key].items[..n] + obj.at[key].items[n + 1..];
      var entry := Obj(rest[t].keys, rest[t].at["type" := Arr([rest[t].at["type"], Str("null")])]);
      if |rest| == 1 && "$ref" !in entry.at then Dissolves(obj, key, entry, Convert(obj, key))
      else Convert(obj, key) == Obj(obj.keys, obj.at[key := Arr(rest[t := entry])])
  {
    var arr := obj.at[key].items;
    NullIndexIs(arr, n);
    hide NullIndex;
    var rest := Spliced(arr);
    TargetIndexIs(rest, t);
    EntriesWellFormed(obj, key);
    assert rest[t] in arr;
    ObjectKeys(rest[t]);
    hide TargetIndex, WellFormed, IsNullEntry, Assign, Delete, Dissolves, NoDup;
    DeleteAssignDissolves(obj, key, WithNull(rest[t]));
  }

  lemma NoTarget(arr: seq<Json>)
    requires forall j :: 0 <= j < |arr| ==> !HasTypeName(arr[j])
    ensures TargetIndex(arr) == |arr|
  {
    hide TargetIndex;
  }

  lemma FormIsNoReference()
    ensures NullForm() == Obj(["type"], map["type" := Arr([Str("null")])])
    ensures "$ref" !in NullForm().at && NoDup(NullForm().keys)
  {
    assert "type" != "$ref";
  }

  // In any other list the null gets the form of a list of types, at the end.
  lemma ConvertsUntyped(obj: Json, key: string, n: nat)
    requires obj.Obj? && WellFormed(obj) && key in obj.at && obj.at[key].Arr? && FirstNull(obj.at[key].items, n)
    requires var rest := obj.at[key].items[..n] + obj.at[key].items[n + 1..];
      forall j :: 0 <= j < |rest| ==> !HasTypeName(rest[j])
    ensures var rest := obj.at[key].items[..n] + obj.at[key].items[n + 1..];
      var entry := Obj(["type"], map["type" := Arr([Str("null")])]);
      if rest == [] then Dissolves(obj, key, entry, Convert(obj, key))
      else Convert(obj, key) == Obj(obj.keys, obj.at[key := Arr(rest + [entry])])
  {
    var arr := obj.at[key].items;
    NullIndexIs(arr, n);
    hide NullIndex;
    var rest := Spliced(arr);
    NoTarget(rest);
    FormIsNoReference();
    hide TargetIndex, WellFormed, IsNullEntry, Assign, Delete, Dissolves, HasStringType, HasTypeName, NullForm;
    DeleteAssignDissolves(obj, key, NullForm());
  }

  // Nothing else is touched.
  lemma ConvertsNothing(obj: Json, key: string)
    requires obj.Obj?
    requires key in obj.at && obj.at[key].Arr? ==>
      forall j :: 0 <= j < |obj.at[key].items| ==> !IsJustNull(obj.at[key].items[j])
    ensures Convert(obj, key) == obj
  {
    hide NullIndex;
    if HasNullEntry(obj, key) { JustNull(obj.at[key].items[NullIndex(obj.at[key].items)]); }
  }

  lemma EntriesWellFormed(obj: Json, key: string)
    requires obj.Obj? && WellFormed(obj) && key in obj.at && obj.at[key].Arr?
    ensures forall e :: e in obj.at[key].items ==> WellFormed(e)
  {
    assert WellFormed(obj.at[key]);
  }

  // ---------- the result is a JSON value ----------

  lemma WithNullWellFormed(v: Json)
    requires HasStringType(v) && WellFormed(v)
    ensures WellFormed(WithNull(v))
  {
    assert WellFormed(Arr([v.at["type"], Str("null")]));
  }

  lemma MergedWellFormed(arr: seq<Json>)
    requires NullIndex(arr) < |arr| && forall i :: 0 <= i < |arr| ==> WellFormed(arr[i])
    ensures forall i :: 0 <= i < |Merged(arr)| ==> WellFormed(Merged(arr)[i])
  {
    hide NullIndex, IsNullEntry, TargetIndex, WithNull;
    var rest := Spliced(arr);
    assert forall v :: v in rest ==> v in arr;
    assert WellFormed(NullForm()) by { assert WellFormed(Arr([Str("null")])); }
    if TargetIndex(rest) < |rest| { WithNullWellFormed(rest[TargetIndex(rest)]); }
    hide WellFormed, HasStringType;
  }

  lemma AssignWellFormed(obj: Json, entry: Json)
    requires obj.Obj? && entry.Obj? && WellFormed(obj) && WellFormed(entry)
    ensures WellFormed(Assign(obj, entry))
  {
    WithoutKeeps(entry.keys, obj.at.Keys);
    hide Without;
    AppendedNames(obj.keys, Without(entry.keys, obj.at.Keys));
  }

  lemma DeleteWellFormed(obj: Json, key: string)
    requires obj.Obj? && WellFormed(obj)
    ensures WellFormed(Delete(obj, key))
  {
    WithoutKeeps(obj.keys, {key});
    hide Without;
  }

  lemma ReplacedWellFormed(obj: Json, key: string, w: Json)
    requires obj.Obj? && WellFormed(obj) && WellFormed(w) && key in obj.at
    ensures WellFormed(Obj(obj.keys, obj.at[key := w]))
  {
    assert obj.at[key := w].Keys == obj.at.Keys;
  }

  lemma ArrayWellFormed(arr: seq<Json>)
    requires forall i :: 0 <= i < |arr| ==> WellFormed(arr[i])
    ensures WellFormed(Arr(arr))
  {}

  lemma ConvertWellFormed(obj: Json, key: string)
    requires obj.Obj? && WellFormed(obj)
    ensures WellFormed(Convert(obj, key))
  {
    hide WellFormed, NullIndex, Merged, Assign, Delete;
    if HasNullEntry(obj, key) {
      var arr := obj.at[key].items;
      EntriesWellFormed(obj, key);
      MergedWellFormed(arr);
      if Unwraps(Merged(arr)) {
        DeleteWellFormed(obj, key);
        AssignWellFormed(Delete(obj, key), Merged(arr)[0]);
      } else {
        ArrayWellFormed(Merged(arr));
        ReplacedWellFormed(obj, key, Arr(Merged(arr)));
      }
    }
  }

  // The rewrite of a JSON value is a JSON value: every object still lists each of its keys once.
  lemma {:induction false} TransformWellFormed(v: Json)
    requires WellFormed(v)
    ensures WellFormed(TransformNullTypes(v))
  {
    match v
    case Arr(xs) =>
      hide Inside, Convert;
      forall i | 0 <= i < |xs| ensures WellFormed(TransformNullTypes(xs[i])) { TransformWellFormed(xs[i]); }
    case Obj(_, m) =>
      var u := Inside(v);
      forall k | k in m ensures WellFormed(TransformNullTypes(m[k])) { TransformWellFormed(m[k]); }
      assert WellFormed(u);
      hide WellFormed;
      ConvertWellFormed(u, "anyOf");
      ConvertWellFormed(Convert(u, "anyOf"), "oneOf");
    case _ =>
  }

  // ---------- what is left of null entries ----------

  /** No anyOf or oneOf list anywhere in v has a standalone null entry. */
  predicate Clean(v: Json) {
    match v
    case Arr(xs) => forall i :: 0 <= i < |xs| ==> Clean(xs[i])
    case Obj(_, m) => (forall k :: k in m ==> Clean(m[k])) && !HasNullEntry(v, "anyOf") && !HasNullEntry(v, "oneOf")
    case _ => true
  }

  predicate StepOnce(obj: Json, key: string)
    requires obj.Obj?
  {
    HasNullEntry(obj, key) ==> NullIndex(Spliced(obj.at[key].items)) == |Spliced(obj.at[key].items)|
  }

  /** No list has two standalone null entries when its turn comes. */
  predicate Once(v: Json)
    decreases v
  {
    match v
    case Arr(xs) => forall i :: 0 <= i < |xs| ==> Once(xs[i])
    case Obj(_, m) =>
      (forall k :: k in m ==> Once(m[k])) && StepOnce(Inside(v), "anyOf") &&
        StepOnce(Convert(Inside(v), "anyOf"), "oneOf")
    case _ => true
  }

  lemma NullIndexNone(arr: seq<Json>)
    ensures NullIndex(arr) == |arr| <==> forall i :: 0 <= i < |arr| ==> !IsNullEntry(arr[i])
  {}

  lemma WithNullIsClean(v: Json)
    requires HasStringType(v) && Clean(v)
    ensures Clean(WithNull(v)) && !IsNullEntry(WithNull(v))
  {
    hide NullIndex;
    var w := WithNull(v);
    assert Clean(Arr([v.at["type"], Str("null")]));
    forall k | k in w.at ensures Clean(w.at[k]) {
      assert k != "type" ==> w.at[k] == v.at[k];
    }
  }

  lemma NullFormIsClean()
    ensures Clean(NullForm()) && !IsNullEntry(NullForm())
  {}

  lemma MergedIsClean(arr: seq<Json>)
    requires NullIndex(arr) < |arr| && Clean(Arr(arr)) && NullIndex(Spliced(arr)) == |Spliced(arr)|
    ensures Clean(Arr(Merged(arr))) && NullIndex(Merged(arr)) == |Merged(arr)|
  {
    hide NullIndex, IsNullEntry, HasStringType, TargetIndex, WithNull, NullForm;
    var rest := Spliced(arr);
    var out := Merged(arr);
    NullIndexNone(rest);
    NullIndexNone(out);
    NullFormIsClean();
    forall i | 0 <= i < |rest| ensures Clean(rest[i]) && !IsNullEntry(rest[i]) {
      var n := NullIndex(arr);
      assert rest[i] == if i < n then arr[i] else arr[i + 1];
    }
    forall i | 0 <= i < |out| ensures Clean(out[i]) && !IsNullEntry(out[i]) {
      var t := TargetIndex(rest);
      if t < |rest| && i == t { WithNullIsClean(rest[t]); }
    }
  }

  // The values of an object are clean.
  predicate CleanInside(v: Json)
    requires v.Obj?
  {
    forall k :: k in v.at ==> Clean(v.at[k])
  }

  lemma ConvertIsClean(obj: Json, key: string)
    requires obj.Obj? && CleanInside(obj) && StepOnce(obj, key) && (key == "anyOf" || key == "oneOf")
    ensures CleanInside(Convert(obj, key)) && !HasNullEntry(Convert(obj, key), key)
    ensures key == "oneOf" && !HasNullEntry(obj, "anyOf") ==> !HasNullEntry(Convert(obj, key), "anyOf")
  {
    hide NullIndex, Merged, IsNullEntry, StepOnce, Without;
    if HasNullEntry(obj, key) {
      var arr := obj.at[key].items;
      assert obj.at[key] == Arr(arr);
      SpliceOnce(obj, key);
      MergedIsClean(arr);
      if Unwraps(Merged(arr)) {
        assert Clean(Merged(arr)[0]);
        AssignIsClean(Delete(obj, key), Merged(arr)[0], key);
      }
    }
  }

  lemma SpliceOnce(obj: Json, key: string)
    requires obj.Obj? && StepOnce(obj, key) && HasNullEntry(obj, key)
    ensures NullIndex(Spliced(obj.at[key].items)) == |Spliced(obj.at[key].items)|
  {}

  lemma AssignIsClean(obj: Json, entry: Json, key: string)
    requires obj.Obj? && entry.Obj? && CleanInside(obj) && Clean(entry) && key !in obj.at
    requires (key == "anyOf" || key == "oneOf")
    ensures CleanInside(Assign(obj, entry)) && !HasNullEntry(Assign(obj, entry), key)
    ensures !HasNullEntry(obj, "anyOf") ==> !HasNullEntry(Assign(obj, entry), "anyOf")
  {
    hide NullIndex, Without;
    var r := Assign(obj, entry);
    forall k | k in r.at ensures Clean(r.at[k]) && r.at[k] == if k in entry.at then entry.at[k] else obj.at[k] {}
  }

  // When no list has two standalone nulls, none is left anywhere.
  lemma {:induction false} TransformCleans(v: Json)
    requires Once(v)
    ensures Clean(TransformNullTypes(v))
  {
    hide Convert, StepOnce, HasNullEntry;
    match v
    case Arr(xs) => forall i | 0 <= i < |xs| ensures Clean(TransformNullTypes(xs[i])) { TransformCleans(xs[i]); }
    case Obj(_, m) =>
      var u := Inside(v);
      forall k | k in m ensures Clean(u.at[k]) { TransformCleans(m[k]); }
      ConvertIsClean(u, "anyOf");
      ConvertIsClean(Convert(u, "anyOf"), "oneOf");
    case _ =>
  }

  // ---------- in place ----------

  /** transformNullTypes over a whole document: values first, then the object that holds them. */
  method TransformInPlace(node: Json) returns (out: Json)
    requires WellFormed(node)
    ensures out == TransformNullTypes(node)
    decreases node, 1
  {
    hide WellFormed, Convert, Inside;
    match node
    case Arr(_) => out := TransformItems(node);
    case Obj(_, _) =>
      var obj := TransformValues(node);
      obj.ConvertNullEntries("anyOf");
      obj.ConvertNullEntries("oneOf");
      out := obj.Value();
    case _ => out := node;
  }

  method TransformItems(node: Json) returns (out: Json)
    requires WellFormed(node) && node.Arr?
    ensures out == TransformNullTypes(node)
    decreases node, 0
  {
    ArrayParts(node);
    hide WellFormed, Convert;
    var ys: seq<Json> := [];
    for i := 0 to |node.items|
      invariant |ys| == i && forall j :: 0 <= j < i ==> ys[j] == TransformNullTypes(node.items[j])
    {
      var y := TransformInPlace(node.items[i]);
      ys := ys + [y];
    }
    out := Arr(ys);
  }

  /** The object with its values transformed, one after the other. */
  method TransformValues(node: Json) returns (obj: SchemaObject)
    requires WellFormed(node) && node.Obj?
    ensures fresh(obj) && obj.Value() == Inside(node)
    decreases node, 0
  {
    ObjectParts(node);
    var ks, m := node.keys, node.at;
    obj := new SchemaObject(node);
    hide WellFormed, TransformNullTypes, Inside, Elems;
    for i := 0 to |ks|
      invariant obj.keys == ks && obj.at.Keys == m.Keys
      invariant forall j :: 0 <= j < i ==> obj.at[ks[j]] == TransformNullTypes(m[ks[j]])
      invariant forall j :: i <= j < |ks| ==> obj.at[ks[j]] == m[ks[j]]
    {
      var value := TransformInPlace(m[ks[i]]);
      DistinctKeys(node, i);
      obj.at := obj.at[ks[i] := value];
    }
    AllTransformed(node, obj.at);
  }

  lemma AllTransformed(node: Json, at: map<string, Json>)
    requires node.Obj? && Elems(node.keys) == node.at.Keys == at.Keys
    requires forall j :: 0 <= j < |node.keys| ==>
      node.keys[j] in node.at && at[node.keys[j]] == TransformNullTypes(node.at[node.keys[j]])
    ensures Obj(node.keys, at) == Inside(node)
  {
    hide *;
    forall k | k in node.at ensures at[k] == TransformNullTypes(node.at[k]) {
      ListedAt(node.keys, node.at.Keys, k);
      var j :| 0 <= j < |node.keys| && node.keys[j] == k;
    }
    InsideIs(node, at);
  }

  lemma InsideIs(node: Json, at: map<string, Json>)
    requires node.Obj? && at.Keys == node.at.Keys && forall k :: k in at ==> at[k] == TransformNullTypes(node.at[k])
    ensures Obj(node.keys, at) == Inside(node)
  {
    hide TransformNullTypes;
  }

  lemma ListedAt(keys: seq<string>, names: set<string>, k: string)
    requires Elems(keys) == names && k in names
    ensures exists j :: 0 <= j < |keys| && keys[j] == k
  {
    assert k in Elems(keys);
  }

  lemma ArrayParts(v: Json)
    requires v.Arr? && WellFormed(v)
    ensures forall i :: 0 <= i < |v.items| ==> WellFormed(v.items[i])
  {}

  lemma ObjectParts(v: Json)
    requires v.Obj? && WellFormed(v)
    ensures Elems(v.keys) == v.at.Keys
    ensures forall i :: 0 <= i < |v.keys| ==> v.keys[i] in v.at && WellFormed(v.at[v.keys[i]])
  {
    forall i | 0 <= i < |v.keys| ensures v.keys[i] in v.at { assert v.keys[i] in Elems(v.keys); }
  }

  lemma DistinctKeys(v: Json, i: nat)
    requires v.Obj? && WellFormed(v) && i < |v.keys|
    ensures forall j :: 0 <= j < |v.keys| && j != i ==> v.keys[j] != v.keys[i]
  {}
}
