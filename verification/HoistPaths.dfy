/** Which values a hoist replaces, told by the path that leads to them. */
module HoistPaths {
  import opened Strings
  import opened Json
  import opened Documents
  import opened Hoist
  import opened SchemaPaths

  /** The keywords that rewriteSubschemas follows, beside `properties`. */
  const WALKED :=
    Keywords({"items", "additionalProperties", "propertyNames", "not"}, {"oneOf", "anyOf", "allOf"})

  /** v is a list, or an object that is no reference and does not have the hoisted form. */
  predicate IsOpen(v: Json, c: string, isRoot: bool) {
    v.Arr? || (v.Obj? && "$ref" !in v.at && (isRoot || CanonicalForDedup(v) != c))
  }

  /** Every value on the path but the last one is open. */
  predicate IsOpenWay(v: Json, c: string, isRoot: bool, path: seq<Turn>)
    decreases |path|
  {
    path != [] ==>
      IsOpen(v, c, isRoot) && Take(v, path[0], WALKED).Some? &&
      IsOpenWay(Take(v, path[0], WALKED).value, c, false, path[1..])
  }

  lemma WalkedKeys()
    ensures PositionOf("properties") == Properties
    ensures forall k :: k in WALKED.single ==> PositionOf(k) == Schema
    ensures forall k :: k in WALKED.lists ==> PositionOf(k) == SchemaList
    ensures forall k :: k != "properties" && k !in WALKED.single + WALKED.lists ==> PositionOf(k) == Opaque
  {}

  // One turn into an open value leads to what the rewrite makes of the value there.
  lemma TurnIsKept(v: Json, c: string, n: string, isRoot: bool, t: Turn)
    requires IsOpen(v, c, isRoot) && Take(v, t, WALKED).Some?
    ensures Take(RewriteSub(v, c, n, isRoot), t, WALKED) == Some(RewriteSub(Take(v, t, WALKED).value, c, n, false))
  {
    WalkedKeys();
    RewriteSubCases(v, c, n, isRoot);
    hide RewriteSub, RewriteAt, PositionOf, CanonicalForDedup;
    match t
    case Property(_) => RewriteAtCases(Properties, v.at["properties"], c, n);
    case Under(key) =>
      RewriteAtCases(PositionOf(key), v.at[key], c, n);
      RewriteSubCases(v.at[key], c, n, false);
    case Entry(key, _) =>
      RewriteAtCases(SchemaList, v.at[key], c, n);
      RewriteSubCases(v.at[key], c, n, false);
    case Item(_) =>
  }

  lemma {:induction false} WayIsKept(v: Json, c: string, n: string, isRoot: bool, path: seq<Turn>)
    requires IsOpenWay(v, c, isRoot, path)
    ensures Follow(v, path, WALKED).Some?
    ensures Follow(RewriteSub(v, c, n, isRoot), path, WALKED) ==
      Some(RewriteSub(Follow(v, path, WALKED).value, c, n, isRoot && path == []))
    decreases |path|
  {
    hide RewriteSub, Take, IsOpen;
    if path != [] {
      TurnIsKept(v, c, n, isRoot, path[0]);
      WayIsKept(Take(v, path[0], WALKED).value, c, n, false, path[1..]);
    }
  }

  // An object of the hoisted form becomes a reference to the new name, wherever properties and the keywords for
  // schemas and lists of schemas lead without passing a reference or another object of that form.
  lemma FormIsReplaced(v: Json, c: string, n: string, path: seq<Turn>)
    requires path != [] && IsOpenWay(v, c, true, path)
    requires Follow(v, path, WALKED).Some? && Follow(v, path, WALKED).value.Obj?
    requires "$ref" !in Follow(v, path, WALKED).value.at
    requires CanonicalForDedup(Follow(v, path, WALKED).value) == c
    ensures Follow(RewriteSub(v, c, n, true), path, WALKED) == Some(MkRef(n))
  {
    WayIsKept(v, c, n, true, path);
    RewriteSubCases(Follow(v, path, WALKED).value, c, n, false);
    hide RewriteSub, CanonicalForDedup, Follow, IsOpenWay, MkRef;
  }

  // An open object there keeps its keys, and what it holds under other keywords; and references and plain values
  // stay as they are.
  lemma RestIsKept(v: Json, c: string, n: string, path: seq<Turn>, k: string)
    requires IsOpenWay(v, c, true, path) && Follow(v, path, WALKED).Some?
    ensures Follow(RewriteSub(v, c, n, true), path, WALKED).Some?
    ensures var p, q := Follow(v, path, WALKED).value, Follow(RewriteSub(v, c, n, true), path, WALKED).value;
      && (p.Obj? && IsOpen(p, c, path == []) ==>
            q.Obj? && q.keys == p.keys && q.at.Keys == p.at.Keys &&
            (k in p.at && k != "properties" && k !in WALKED.single + WALKED.lists ==> q.at[k] == p.at[k]))
      && ((p.Obj? && "$ref" in p.at) || (!p.Obj? && !p.Arr?) ==> q == p)
  {
    WayIsKept(v, c, n, true, path);
    WalkedKeys();
    var p := Follow(v, path, WALKED).value;
    RewriteSubCases(p, c, n, path == []);
    hide RewriteSub, RewriteAt, PositionOf, CanonicalForDedup, Follow, IsOpenWay;
    if p.Obj? && k in p.at { RewriteAtCases(PositionOf(k), p.at[k], c, n); }
  }
}
