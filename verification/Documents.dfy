/** Documents of named schemas that refer to each other, and what a schema means: its unfolding. */
module Documents {
  import opened Strings
  import opened Json

  const PREFIX := "#/components/schemas/"

  // ---------- references ----------

  predicate HasRefString(v: Json): (r: bool)
    ensures r ==> v.Obj?
  {
    v.Obj? && "$ref" in v.at && v.at["$ref"].Str?
  }

  /** A reference to a component schema; other keys beside `$ref` are its siblings. */
  predicate IsRef(v: Json): (r: bool)
    ensures r ==> HasRefString(v)
  {
    HasRefString(v) && PREFIX <= v.at["$ref"].s
  }

  function Target(v: Json): string
    requires IsRef(v)
  {
    v.at["$ref"].s[|PREFIX|..]
  }

  function MkRef(name: string): (r: Json)
    ensures IsRef(r) && Target(r) == name
    ensures r.at.Keys == {"$ref"} && WellFormed(r)
  {
    assert Elems(["$ref"]) == {"$ref"};
    Obj(["$ref"], map["$ref" := Str(PREFIX + name)])
  }

  ghost predicate Bare(v: Json)
    requires IsRef(v)
  {
    v.at.Keys == {"$ref"}
  }

  // ---------- documents ----------

  /** What stands in place of a map of properties is no reference with siblings. */
  predicate BareIfRef(v: Json) {
    HasRefString(v) ==> v.at.Keys == {"$ref"}
  }

  predicate BareProperties(v: Json)
    requires v.Obj?
  {
    "properties" in v.at ==> BareIfRef(v.at["properties"])
  }

  /** Every `$ref` string inside v is a component reference to one of `names`. Siblings of a reference
      hold no references of their own. */
  ghost predicate Closed(v: Json, names: set<string>) {
    match v
    case Arr(xs) => forall i :: 0 <= i < |xs| ==> Closed(xs[i], names)
    case Obj(_, m) =>
      if HasRefString(v) then IsRef(v) && Target(v) in names && forall k :: k in m ==> Closed(m[k], {})
      else BareProperties(v) && forall k :: k in m ==> Closed(m[k], names)
    case _ => true
  }

  /** v holds a reference to x. */
  ghost predicate Mentions(v: Json, x: string) {
    match v
    case Arr(xs) => exists i :: 0 <= i < |xs| && Mentions(xs[i], x)
    case Obj(_, m) =>
      if IsRef(v) then Target(v) == x
      else exists k :: k in m && Mentions(m[k], x)
    case _ => false
  }

  lemma {:induction false} MentionsClosed(v: Json, names: set<string>)
    requires Closed(v, names)
    ensures forall x :: Mentions(v, x) ==> x in names
  {
    hide IsRef, HasRefString, Target;
    match v
    case Arr(xs) =>
      forall i | 0 <= i < |xs| ensures forall x :: Mentions(xs[i], x) ==> x in names { MentionsClosed(xs[i], names); }
    case Obj(_, m) =>
      if !IsRef(v) {
        forall k | k in m ensures forall x :: Mentions(m[k], x) ==> x in names { MentionsClosed(m[k], names); }
      }
    case _ =>
  }

  type Schemas = map<string, Json>

  // A top-level body is a schema object, not an alias for another name.
  ghost predicate Body(v: Json, names: set<string>) {
    v.Obj? && !IsRef(v) && WellFormed(v) && Closed(v, names)
  }

  /** A ref-closed set of named schemas. */
  ghost predicate RefClosed(s: Schemas) {
    forall n :: n in s ==> Body(s[n], s.Keys)
  }

  /** A document: its schemas in order of declaration, and everything else (paths and so on). */
  datatype Document = Document(names: seq<string>, schemas: Schemas, rest: Json)

  ghost predicate ValidDocument(d: Document) {
    NoDup(d.names) && Elems(d.names) == d.schemas.Keys
  }

  /** A document all of whose references resolve. */
  ghost predicate ClosedDocument(d: Document) {
    ValidDocument(d) && RefClosed(d.schemas) && WellFormed(d.rest) && Closed(d.rest, d.schemas.Keys)
  }

  // ---------- meaning ----------

  /** The siblings of a reference that are not forgotten. */
  function Besides(v: Json, l: Lens): set<string>
    requires v.Obj?
  {
    Kept(v.at.Keys - {"$ref"}, l)
  }

  /** The unfolding of v to depth k, seen through l: references are followed, what stands beside them is
      kept, key order and the dropped keywords are forgotten, and what lies k levels down is cut off. */
  ghost function Unfold(s: Schemas, l: Lens, v: Json, k: nat): Tree
    decreases k, 1
  {
    if k == 0 then Cut
    else if IsRef(v) && Target(v) in s then
      if Besides(v, l) == {} then UnfoldNode(s, AtBody(l), s[Target(v)], k)
      else
        Beside(map key | key in v.at && key in Besides(v, l) :: Unfold(s, Below(l, key), v.at[key], k - 1),
               Unfold(s, AtBody(l), s[Target(v)], k - 1))
    else UnfoldNode(s, l, v, k)
  }

  ghost function UnfoldNode(s: Schemas, l: Lens, v: Json, k: nat): Tree
    requires k > 0
    decreases k, 0
  {
    match v
    case Arr(xs) => List(seq(|xs|, i requires 0 <= i < |xs| => Unfold(s, Each(l), xs[i], k - 1)))
    case Obj(_, m) => Map(map key | key in m && !Drops(l, key) :: Unfold(s, Below(l, key), m[key], k - 1))
    case _ => Leaf(v)
  }

  /** Same meaning: the unfoldings agree at every depth. */
  ghost predicate SameMeaning(s: Schemas, v: Json, t: Schemas, w: Json, l: Lens) {
    forall k: nat :: Unfold(s, l, v, k) == Unfold(t, l, w, k)
  }

  /** How a schema is seen when the keywords in `drop` are forgotten, and how the rest of a document is. */
  function SchemaLens(drop: set<string>): Lens {
    Lens(OfSchema, drop)
  }

  function RestLens(drop: set<string>): Lens {
    Lens(OfData, drop)
  }

  lemma UnfoldCut(s: Schemas, l: Lens, v: Json)
    ensures Unfold(s, l, v, 0) == Cut
  {}

  // The nodes v and w are no references, have the same top, and their children unfold alike to depth k.
  ghost predicate OneLevel(s: Schemas, v: Json, t: Schemas, w: Json, l: Lens, k: nat) {
    match v
    case Arr(xs) =>
      w.Arr? && |w.items| == |xs| &&
      forall i :: 0 <= i < |xs| ==> Unfold(s, Each(l), xs[i], k) == Unfold(t, Each(l), w.items[i], k)
    case Obj(_, m) =>
      w.Obj? && Kept(m.Keys, l) == Kept(w.at.Keys, l) &&
      forall key :: key in m && key in w.at && key in Kept(m.Keys, l) ==>
        Unfold(s, Below(l, key), m[key], k) == Unfold(t, Below(l, key), w.at[key], k)
    case _ => v == w
  }

  lemma Congruence(s: Schemas, v: Json, t: Schemas, w: Json, l: Lens, k: nat)
    requires k > 0 && !IsRef(v) && !IsRef(w) && OneLevel(s, v, t, w, l, k - 1)
    ensures Unfold(s, l, v, k) == Unfold(t, l, w, k)
  {
    hide IsRef, Below, Each, Unfold;
    UnfoldIsNode(s, l, v, k);
    UnfoldIsNode(t, l, w, k);
    match v
    case Arr(xs) => assert UnfoldNode(s, l, v, k).items == UnfoldNode(t, l, w, k).items;
    case Obj(_, m) => CongruentMaps(s, v, t, w, l, k);
    case _ =>
  }

  lemma CongruentMaps(s: Schemas, v: Json, t: Schemas, w: Json, l: Lens, k: nat)
    requires k > 0 && v.Obj? && OneLevel(s, v, t, w, l, k - 1)
    ensures UnfoldNode(s, l, v, k) == UnfoldNode(t, l, w, k)
  {
    hide Below, Drops, Unfold;
    var a, b := UnfoldNode(s, l, v, k).at, UnfoldNode(t, l, w, k).at;
    assert a.Keys == Kept(v.at.Keys, l) && b.Keys == Kept(w.at.Keys, l);
    forall key | key in a.Keys ensures a[key] == b[key] {
      assert key in Kept(v.at.Keys, l) && key in Kept(w.at.Keys, l);
    }
    assert a == b;
  }

  lemma UnfoldIsNode(s: Schemas, l: Lens, v: Json, k: nat)
    requires k > 0 && !IsRef(v)
    ensures Unfold(s, l, v, k) == UnfoldNode(s, l, v, k)
  {}

  lemma UnfoldObject(s: Schemas, l: Lens, v: Json, k: nat)
    requires k > 0 && v.Obj? && !IsRef(v)
    ensures Unfold(s, l, v, k).Map? && Unfold(s, l, v, k).at.Keys == Kept(v.at.Keys, l)
    ensures forall key :: key in Kept(v.at.Keys, l) && key in v.at ==>
      Unfold(s, l, v, k).at[key] == Unfold(s, Below(l, key), v.at[key], k - 1)
  {
    hide IsRef, Below, Drops;
    UnfoldIsNode(s, l, v, k);
    assert UnfoldNode(s, l, v, k).at.Keys == Kept(v.at.Keys, l);
  }

  // Nodes that unfold alike have equal tops and children that unfold alike.
  lemma UnfoldInverts(s: Schemas, v: Json, t: Schemas, w: Json, l: Lens)
    requires !IsRef(v) && !IsRef(w) && SameMeaning(s, v, t, w, l)
    ensures v.Arr? <==> w.Arr?
    ensures v.Obj? <==> w.Obj?
    ensures !v.Arr? && !v.Obj? ==> v == w
    ensures v.Arr? ==>
      |v.items| == |w.items| && forall i :: 0 <= i < |v.items| ==> SameMeaning(s, v.items[i], t, w.items[i], Each(l))
    ensures v.Obj? ==> Kept(v.at.Keys, l) == Kept(w.at.Keys, l)
    ensures v.Obj? ==> forall k :: k in v.at && k in w.at && k in Kept(v.at.Keys, l) ==>
      SameMeaning(s, v.at[k], t, w.at[k], Below(l, k))
  {
    hide IsRef, Below, Each, Unfold, Kept;
    assert Unfold(s, l, v, 1) == Unfold(t, l, w, 1);
    UnfoldIsNode(s, l, v, 1);
    UnfoldIsNode(t, l, w, 1);
    if v.Arr? {
      assert |v.items| == |UnfoldNode(s, l, v, 1).items| == |w.items|;
      forall i, k: nat | 0 <= i < |v.items|
        ensures Unfold(s, Each(l), v.items[i], k) == Unfold(t, Each(l), w.items[i], k)
      {
        assert Unfold(s, l, v, k + 1) == Unfold(t, l, w, k + 1);
        UnfoldIsNode(s, l, v, k + 1);
        UnfoldIsNode(t, l, w, k + 1);
        assert UnfoldNode(s, l, v, k + 1).items[i] == UnfoldNode(t, l, w, k + 1).items[i];
      }
    } else if v.Obj? {
      UnfoldObject(s, l, v, 1);
      UnfoldObject(t, l, w, 1);
      hide UnfoldNode;
      forall key, k: nat | key in v.at && key in w.at && key in Kept(v.at.Keys, l)
        ensures Unfold(s, Below(l, key), v.at[key], k) == Unfold(t, Below(l, key), w.at[key], k)
      {
        assert Unfold(s, l, v, k + 1) == Unfold(t, l, w, k + 1);
        UnfoldObject(s, l, v, k + 1);
        UnfoldObject(t, l, w, k + 1);
      }
    }
  }

  // A reference with nothing to show beside it is its target.
  lemma UnfoldRef(s: Schemas, l: Lens, v: Json, k: nat)
    requires IsRef(v) && Target(v) in s && !IsRef(s[Target(v)]) && Besides(v, l) == {}
    ensures Unfold(s, l, v, k) == Unfold(s, AtBody(l), s[Target(v)], k)
  {
    hide Besides, IsRef, Below;
    if k > 0 { UnfoldIsNode(s, AtBody(l), s[Target(v)], k); }
  }

  // References with the same siblings to schemas that unfold alike unfold alike.
  lemma RefCongruence(s: Schemas, v: Json, t: Schemas, w: Json, l: Lens, k: nat)
    requires IsRef(v) && IsRef(w) && Target(v) in s && Target(w) in t
    requires !IsRef(s[Target(v)]) && !IsRef(t[Target(w)]) && Besides(v, l) == Besides(w, l)
    requires k > 0 ==> forall key :: key in v.at && key in w.at && key in Besides(v, l) ==>
      Unfold(s, Below(l, key), v.at[key], k - 1) == Unfold(t, Below(l, key), w.at[key], k - 1)
    requires Unfold(s, AtBody(l), s[Target(v)], k) == Unfold(t, AtBody(l), t[Target(w)], k)
    requires k > 0 ==> Unfold(s, AtBody(l), s[Target(v)], k - 1) == Unfold(t, AtBody(l), t[Target(w)], k - 1)
    ensures Unfold(s, l, v, k) == Unfold(t, l, w, k)
  {
    hide IsRef, Target, UnfoldNode, Below, Drops;
    if k > 0 {
      BesidesInside(v, l);
      BesidesInside(w, l);
      if Besides(v, l) == {} {
        hide Unfold, Besides;
        UnfoldRef(s, l, v, k);
        UnfoldRef(t, l, w, k);
      } else {
        hide Besides;
        UnfoldBeside(s, l, v, k);
        UnfoldBeside(t, l, w, k);
        hide Unfold;
        var a, b := Unfold(s, l, v, k), Unfold(t, l, w, k);
        assert a.siblings == b.siblings;
      }
    }
  }

  lemma BesidesInside(v: Json, l: Lens)
    requires v.Obj?
    ensures Besides(v, l) <= v.at.Keys && "$ref" !in Besides(v, l)
  {
    hide Drops;
  }

  lemma UnfoldBeside(s: Schemas, l: Lens, v: Json, k: nat)
    requires k > 0 && IsRef(v) && Target(v) in s && Besides(v, l) != {} && Besides(v, l) <= v.at.Keys
    ensures var a := Unfold(s, l, v, k);
      a.Beside? && a.siblings.Keys == Besides(v, l) && a.body == Unfold(s, AtBody(l), s[Target(v)], k - 1) &&
      forall key :: key in Besides(v, l) ==> a.siblings[key] == Unfold(s, Below(l, key), v.at[key], k - 1)
  {
    hide IsRef, Target, Besides, UnfoldNode, Below;
  }

  // What holds no references unfolds without a document.
  lemma {:induction false} NoRefsUnfold(s: Schemas, t: Schemas, l: Lens, v: Json, k: nat)
    requires Closed(v, {})
    ensures Unfold(s, l, v, k) == Unfold(t, l, v, k)
    decreases k
  {
    hide IsRef, HasRefString, Unfold, Below, Each, BareProperties;
    NotRefWithout(v);
    if k == 0 {
      UnfoldCut(s, l, v);
      UnfoldCut(t, l, v);
    } else {
      match v {
        case Arr(xs) => forall i | 0 <= i < |xs| { NoRefsUnfold(s, t, Each(l), xs[i], k - 1); }
        case Obj(_, m) => forall key | key in m { NoRefsUnfold(s, t, Below(l, key), m[key], k - 1); }
        case _ =>
      }
      Congruence(s, v, t, v, l, k);
    }
  }

  lemma NotRefWithout(v: Json)
    requires Closed(v, {})
    ensures !HasRefString(v) && !IsRef(v)
  {}

  // A reference that is carried over with its siblings.
  lemma CarriedRef(s: Schemas, v: Json, t: Schemas, w: Json, l: Lens, k: nat)
    requires IsRef(v) && IsRef(w) && Target(v) in s && Target(w) in t && !IsRef(s[Target(v)]) && !IsRef(t[Target(w)])
    requires v.at.Keys == w.at.Keys
    requires forall key :: key in v.at && key != "$ref" ==> v.at[key] == w.at[key] && Closed(v.at[key], {})
    requires Unfold(s, AtBody(l), s[Target(v)], k) == Unfold(t, AtBody(l), t[Target(w)], k)
    requires k > 0 ==> Unfold(s, AtBody(l), s[Target(v)], k - 1) == Unfold(t, AtBody(l), t[Target(w)], k - 1)
    ensures Unfold(s, l, v, k) == Unfold(t, l, w, k)
  {
    hide IsRef, Target, Unfold, Below, Closed;
    BesidesInside(v, l);
    assert Besides(v, l) == Besides(w, l);
    hide Besides;
    if k > 0 {
      forall key | key in v.at && key in w.at && key in Besides(v, l)
        ensures Unfold(s, Below(l, key), v.at[key], k - 1) == Unfold(t, Below(l, key), w.at[key], k - 1)
      {
        NoRefsUnfold(s, t, Below(l, key), v.at[key], k - 1);
      }
    }
    RefCongruence(s, v, t, w, l, k);
  }

  // ---------- substitution for references ----------

  /** Replaces each reference whose target has a replacement. */
  function Subst(v: Json, f: map<string, Json>): Json {
    match v
    case Arr(xs) => Arr(seq(|xs|, i requires 0 <= i < |xs| => Subst(xs[i], f)))
    case Obj(ks, m) =>
      if IsRef(v) then (if Target(v) in f then f[Target(v)] else v)
      else if HasRefString(v) then v
      else Obj(ks, map k | k in m :: Subst(m[k], f))
    case _ => v
  }

  // Replacements are values that no `$ref` key could hold.
  ghost predicate NoStrings(f: map<string, Json>) {
    forall n :: n in f ==> !f[n].Str?
  }

  lemma SubstNode(v: Json, f: map<string, Json>)
    requires !HasRefString(v)
    ensures v.Arr? ==> Subst(v, f).Arr? && |Subst(v, f).items| == |v.items|
    ensures v.Arr? ==> forall i :: 0 <= i < |v.items| ==> Subst(v, f).items[i] == Subst(v.items[i], f)
    ensures v.Obj? ==> Subst(v, f).Obj? && Subst(v, f).keys == v.keys && Subst(v, f).at.Keys == v.at.Keys
    ensures v.Obj? ==> forall k :: k in v.at ==> Subst(v, f).at[k] == Subst(v.at[k], f)
    ensures !v.Arr? && !v.Obj? ==> Subst(v, f) == v
  {}

  lemma SubstRef(v: Json, f: map<string, Json>)
    requires IsRef(v)
    ensures Subst(v, f) == if Target(v) in f then f[Target(v)] else v
  {}

  lemma SubstKeepsKind(v: Json, f: map<string, Json>)
    requires !IsRef(v) && NoStrings(f)
    ensures !IsRef(Subst(v, f))
    ensures HasRefString(Subst(v, f)) == HasRefString(v)
  {}

  // Replacements that may stand in place of a map of properties.
  ghost predicate AllBare(f: map<string, Json>) {
    forall n :: n in f ==> BareIfRef(f[n])
  }

  lemma {:induction false} SubstClosed(v: Json, f: map<string, Json>, names: set<string>, names': set<string>)
    requires WellFormed(v) && Closed(v, names) && NoStrings(f) && AllBare(f)
    requires forall n :: n in f ==> WellFormed(f[n]) && Closed(f[n], names')
    requires forall n :: n in names && n !in f ==> n in names'
    ensures WellFormed(Subst(v, f)) && Closed(Subst(v, f), names')
  {
    hide IsRef, HasRefString, Target, Subst, Elems, NoDup, NumChar, BareIfRef;
    if HasRefString(v) {
      SubstRef(v, f);
    } else {
      NotRef(v);
      SubstNode(v, f);
      match v
      case Arr(xs) =>
        forall i | 0 <= i < |xs| ensures WellFormed(Subst(v, f).items[i]) && Closed(Subst(v, f).items[i], names') {
          SubstClosed(xs[i], f, names, names');
        }
      case Obj(ks, m) =>
        forall k | k in m ensures WellFormed(Subst(v, f).at[k]) && Closed(Subst(v, f).at[k], names') {
          SubstClosed(m[k], f, names, names');
        }
        SubstKeepsKind(v, f);
        SubstKeepsBare(v, f, names);
      case _ =>
    }
  }

  lemma NotRef(v: Json)
    requires !HasRefString(v)
    ensures !IsRef(v)
  {}

  lemma SubstKeepsBare(v: Json, f: map<string, Json>, names: set<string>)
    requires v.Obj? && !HasRefString(v) && Closed(v, names) && NoStrings(f) && AllBare(f)
    ensures BareProperties(Subst(v, f))
  {
    hide HasRefString, IsRef, Target, Subst, Closed;
    SubstNode(v, f);
    if "properties" in v.at {
      assert BareProperties(v) by { ClosedNode(v, names); }
      var p := v.at["properties"];
      ClosedNode(v, names);
      if IsRef(p) {
        SubstRef(p, f);
      } else if HasRefString(p) {
        assert false by { ClosedRef(p, names); }
      } else {
        SubstKeepsKind(p, f);
      }
    }
  }

  lemma ClosedNode(v: Json, names: set<string>)
    requires Closed(v, names) && !HasRefString(v)
    ensures v.Obj? ==> BareProperties(v) && forall k :: k in v.at ==> Closed(v.at[k], names)
    ensures v.Arr? ==> forall i :: 0 <= i < |v.items| ==> Closed(v.items[i], names)
    ensures !IsRef(v)
  {}

  lemma ClosedNoRef(v: Json, names: set<string>)
    requires Closed(v, names) && !IsRef(v)
    ensures !HasRefString(v)
  {}

  lemma ClosedRef(v: Json, names: set<string>)
    requires Closed(v, names) && HasRefString(v)
    ensures IsRef(v) && Target(v) in names && forall k :: k in v.at ==> Closed(v.at[k], {})
  {}

  // ---------- rewriteAllRefs ----------

  /** rewriteAllRefs: references follow a renaming of schemas; siblings stay. */
  function RewriteAllRefs(v: Json, rename: map<string, string>): Json {
    match v
    case Arr(xs) => Arr(seq(|xs|, i requires 0 <= i < |xs| => RewriteAllRefs(xs[i], rename)))
    case Obj(ks, m) =>
      if IsRef(v) then
        (if Target(v) in rename then Obj(ks, m["$ref" := Str(PREFIX + rename[Target(v)])]) else v)
      else if HasRefString(v) then v
      else Obj(ks, map k | k in m :: RewriteAllRefs(m[k], rename))
    case _ => v
  }

  function Renamed(n: string, rename: map<string, string>): string {
    if n in rename then rename[n] else n
  }

  // A rewritten reference keeps its siblings.
  lemma RewriteRef(v: Json, rename: map<string, string>)
    requires IsRef(v)
    ensures var w := RewriteAllRefs(v, rename);
      IsRef(w) && Target(w) == Renamed(Target(v), rename) && w.keys == v.keys && w.at.Keys == v.at.Keys &&
      forall k :: k in v.at && k != "$ref" ==> w.at[k] == v.at[k]
    ensures RewriteAllRefs(v, rename).at["$ref"].Str?
  {}

  lemma {:induction false} RewriteNothing(v: Json)
    ensures RewriteAllRefs(v, map[]) == v
  {
    hide IsRef, HasRefString;
    match v
    case Arr(xs) =>
      forall i | 0 <= i < |xs| ensures RewriteAllRefs(xs[i], map[]) == xs[i] { RewriteNothing(xs[i]); }
      assert RewriteAllRefs(v, map[]).items == xs;
    case Obj(_, m) =>
      forall k | k in m ensures RewriteAllRefs(m[k], map[]) == m[k] { RewriteNothing(m[k]); }
      assert RewriteAllRefs(v, map[]).at == m;
    case _ =>
  }

  lemma RewriteNode(v: Json, rename: map<string, string>)
    requires !HasRefString(v)
    ensures v.Arr? ==> RewriteAllRefs(v, rename).Arr? && |RewriteAllRefs(v, rename).items| == |v.items|
    ensures v.Arr? ==> forall i :: 0 <= i < |v.items| ==>
      RewriteAllRefs(v, rename).items[i] == RewriteAllRefs(v.items[i], rename)
    ensures v.Obj? ==> RewriteAllRefs(v, rename).Obj? && RewriteAllRefs(v, rename).keys == v.keys
    ensures v.Obj? ==> RewriteAllRefs(v, rename).at.Keys == v.at.Keys
    ensures v.Obj? ==> forall k :: k in v.at ==> RewriteAllRefs(v, rename).at[k] == RewriteAllRefs(v.at[k], rename)
    ensures !v.Arr? && !v.Obj? ==> RewriteAllRefs(v, rename) == v
  {}

  // The rewritten value refers to exactly the new names of what the value referred to.
  lemma {:induction false} RewriteMentions(v: Json, names: set<string>, rename: map<string, string>, y: string)
    requires Closed(v, names)
    ensures Mentions(RewriteAllRefs(v, rename), y) <==> exists x :: Mentions(v, x) && Renamed(x, rename) == y
  {
    hide IsRef, HasRefString, Target, RewriteAllRefs, Renamed, BareProperties;
    var w := RewriteAllRefs(v, rename);
    if HasRefString(v) {
      RewriteRef(v, rename);
      assert Mentions(v, Target(v));
    } else {
      ClosedNode(v, names);
      RewriteNode(v, rename);
      RewriteKeepsKind(v, rename);
      match v
      case Arr(xs) =>
        forall i | 0 <= i < |xs|
          ensures Mentions(w.items[i], y) <==> exists x :: Mentions(xs[i], x) && Renamed(x, rename) == y
        {
          RewriteMentions(xs[i], names, rename, y);
        }
      case Obj(_, m) =>
        forall k | k in m
          ensures Mentions(w.at[k], y) <==> exists x :: Mentions(m[k], x) && Renamed(x, rename) == y
        {
          RewriteMentions(m[k], names, rename, y);
        }
      case _ =>
    }
  }

  // Two renamings in a row are one.
  lemma {:induction false} RewriteComposes(v: Json, names: set<string>, f: map<string, string>, g: map<string, string>,
                                           h: map<string, string>)
    requires Closed(v, names) && forall n :: n in names ==> Renamed(Renamed(n, f), g) == Renamed(n, h)
    ensures RewriteAllRefs(RewriteAllRefs(v, f), g) == RewriteAllRefs(v, h)
  {
    hide IsRef, HasRefString, Target, RewriteAllRefs, Renamed, BareProperties;
    var w := RewriteAllRefs(v, f);
    if HasRefString(v) {
      RewriteRef(v, f);
      RewriteRef(v, h);
      RewriteRef(w, g);
      SameTargetText(RewriteAllRefs(w, g), RewriteAllRefs(v, h));
    } else {
      ClosedNode(v, names);
      RewriteNode(v, f);
      RewriteNode(v, h);
      RewriteKeepsKind(v, f);
      RewriteNode(w, g);
      match v
      case Arr(xs) =>
        forall i | 0 <= i < |xs| { RewriteComposes(xs[i], names, f, g, h); }
        assert RewriteAllRefs(w, g).items == RewriteAllRefs(v, h).items;
      case Obj(_, m) =>
        forall k | k in m { RewriteComposes(m[k], names, f, g, h); }
        assert RewriteAllRefs(w, g).at == RewriteAllRefs(v, h).at;
      case _ =>
    }
  }

  // References with equal siblings and targets are equal.
  lemma SameTargetText(v: Json, w: Json)
    requires IsRef(v) && IsRef(w) && Target(v) == Target(w) && v.keys == w.keys && v.at.Keys == w.at.Keys
    requires forall k :: k in v.at && k != "$ref" ==> v.at[k] == w.at[k]
    ensures v == w
  {
    var a, b := v.at["$ref"].s, w.at["$ref"].s;
    assert a == PREFIX + a[|PREFIX|..] && b == PREFIX + b[|PREFIX|..];
    assert v.at == w.at;
  }

  lemma RewriteKeepsKind(v: Json, rename: map<string, string>)
    requires !IsRef(v)
    ensures !IsRef(RewriteAllRefs(v, rename))
    ensures HasRefString(RewriteAllRefs(v, rename)) == HasRefString(v)
  {}

  lemma {:induction false} RewriteClosed(v: Json, names: set<string>, names': set<string>, rename: map<string, string>)
    requires WellFormed(v) && Closed(v, names) && forall n :: n in names ==> Renamed(n, rename) in names'
    ensures WellFormed(RewriteAllRefs(v, rename)) && Closed(RewriteAllRefs(v, rename), names')
  {
    hide IsRef, HasRefString, Target, RewriteAllRefs, Renamed, BareProperties, Elems, NoDup, NumChar;
    var w := RewriteAllRefs(v, rename);
    if HasRefString(v) {
      RewriteRef(v, rename);
      ClosedRef(v, names);
      forall k | k in w.at ensures WellFormed(w.at[k]) && Closed(w.at[k], {}) {
        if k == "$ref" { StringClosed(w.at[k]); }
      }
    } else {
      ClosedNode(v, names);
      RewriteNode(v, rename);
      RewriteKeepsKind(v, rename);
      match v
      case Arr(xs) =>
        forall i | 0 <= i < |xs| ensures WellFormed(w.items[i]) && Closed(w.items[i], names') {
          RewriteClosed(xs[i], names, names', rename);
        }
      case Obj(_, m) =>
        forall k | k in m ensures WellFormed(w.at[k]) && Closed(w.at[k], names') {
          RewriteClosed(m[k], names, names', rename);
        }
        RewriteKeepsBare(v, rename);
      case _ =>
    }
  }

  lemma StringClosed(v: Json)
    requires v.Str?
    ensures WellFormed(v) && Closed(v, {})
  {}

  lemma RewriteKeepsBare(v: Json, rename: map<string, string>)
    requires v.Obj? && !HasRefString(v) && BareProperties(v)
    ensures BareProperties(RewriteAllRefs(v, rename))
  {
    hide HasRefString, IsRef, Target, RewriteAllRefs;
    RewriteNode(v, rename);
    if "properties" in v.at {
      var p := v.at["properties"];
      if IsRef(p) {
        RewriteRef(p, rename);
      } else {
        RewriteKeepsKind(p, rename);
        if HasRefString(p) { RewriteOther(p, rename); }
      }
    }
  }

  lemma RewriteOther(v: Json, rename: map<string, string>)
    requires HasRefString(v) && !IsRef(v)
    ensures RewriteAllRefs(v, rename) == v
  {}

  lemma RewriteBody(b: Json, names: set<string>, names': set<string>, rename: map<string, string>)
    requires Body(b, names) && forall n :: n in names ==> Renamed(n, rename) in names'
    ensures Body(RewriteAllRefs(b, rename), names')
  {
    hide HasRefString;
    RewriteKeepsKind(b, rename);
    RewriteClosed(b, names, names', rename);
  }

  // ---------- quotients ----------

  /** t is s with each name x merged into Renamed(x): the merged entry carries the rewritten body of
      one old entry, named by rep. */
  ghost predicate Merges(s: Schemas, t: Schemas, rename: map<string, string>, rep: map<string, string>) {
    && (forall x :: x in s ==> Renamed(x, rename) in t)
    && rep.Keys == t.Keys
    && (forall y :: y in t ==> rep[y] in s && t[y] == RewriteAllRefs(s[rep[y]], rename))
  }

  /** A merge in which every member shares the meaning of the body that is kept. */
  ghost predicate Quotient(s: Schemas, t: Schemas, rename: map<string, string>, rep: map<string, string>,
                           drop: set<string>)
  {
    && Merges(s, t, rename, rep)
    && (forall x :: x in s ==> SameMeaning(s, s[x], s, s[rep[Renamed(x, rename)]], SchemaLens(drop)))
  }

  lemma MergesClosed(s: Schemas, t: Schemas, rename: map<string, string>, rep: map<string, string>)
    requires RefClosed(s) && Merges(s, t, rename, rep)
    ensures RefClosed(t)
  {
    hide IsRef, HasRefString, RewriteAllRefs;
    forall y | y in t ensures Body(t[y], t.Keys) {
      RewriteBody(s[rep[y]], s.Keys, t.Keys, rename);
    }
  }

  // Merging names of equal meaning changes no meaning, however the merged names refer to each other.
  lemma {:induction false} QuotientKeepsMeaning(
      s: Schemas, t: Schemas, rename: map<string, string>, rep: map<string, string>, l: Lens, v: Json, k: nat)
    requires RefClosed(s) && Quotient(s, t, rename, rep, l.drop)
    requires WellFormed(v) && Closed(v, s.Keys)
    ensures Unfold(t, l, RewriteAllRefs(v, rename), k) == Unfold(s, l, v, k)
    decreases k, 1
  {
    hide IsRef, HasRefString, MkRef, Target, Unfold, Quotient, RefClosed, RewriteAllRefs, Closed;
    if HasRefString(v) {
      ClosedRef(v, s.Keys);
      var n := Target(v);
      var m := Renamed(n, rename);
      RewriteRef(v, rename);
      MergedEntry(s, t, rename, rep, l.drop, n);
      QuotientNode(s, t, rename, rep, AtBody(l), s[rep[m]], k);
      if k > 0 { QuotientNode(s, t, rename, rep, AtBody(l), s[rep[m]], k - 1); }
      CarriedRef(s, v, t, RewriteAllRefs(v, rename), l, k);
    } else {
      ClosedNode(v, s.Keys);
      QuotientNode(s, t, rename, rep, l, v, k);
    }
  }

  lemma MergedEntry(s: Schemas, t: Schemas, rename: map<string, string>, rep: map<string, string>,
                    drop: set<string>, n: string)
    requires RefClosed(s) && Quotient(s, t, rename, rep, drop) && n in s
    ensures var m := Renamed(n, rename);
      && m in t && m in rep && rep[m] in s && t[m] == RewriteAllRefs(s[rep[m]], rename)
      && Body(t[m], t.Keys) && Body(s[rep[m]], s.Keys) && Body(s[n], s.Keys)
      && SameMeaning(s, s[n], s, s[rep[m]], SchemaLens(drop))
  {
    hide IsRef, HasRefString, Body;
    MergesClosed(s, t, rename, rep);
  }

  lemma {:induction false} QuotientNode(
      s: Schemas, t: Schemas, rename: map<string, string>, rep: map<string, string>, l: Lens, v: Json, k: nat)
    requires RefClosed(s) && Quotient(s, t, rename, rep, l.drop)
    requires WellFormed(v) && Closed(v, s.Keys) && !IsRef(v)
    ensures Unfold(t, l, RewriteAllRefs(v, rename), k) == Unfold(s, l, v, k)
    decreases k, 0
  {
    hide Quotient, RefClosed, IsRef, HasRefString, Unfold, RewriteAllRefs, Each, Below, BareProperties;
    var w := RewriteAllRefs(v, rename);
    LensDrops(l);
    if k > 0 {
      RewriteKeepsKind(v, rename);
      if HasRefString(v) { ClosedRef(v, s.Keys); }
      RewriteNode(v, rename);
      match v {
        case Arr(xs) =>
          forall i | 0 <= i < |xs| { QuotientKeepsMeaning(s, t, rename, rep, Each(l), xs[i], k - 1); }
        case Obj(ks, m) =>
          forall key | key in m { QuotientKeepsMeaning(s, t, rename, rep, Below(l, key), m[key], k - 1); }
        case _ =>
      }
      Congruence(t, w, s, v, l, k);
    } else {
      UnfoldCut(s, l, v);
      UnfoldCut(t, l, w);
    }
  }

  lemma LensDrops(l: Lens)
    ensures Each(l).drop == l.drop && AtBody(l).drop == l.drop && forall key :: Below(l, key).drop == l.drop
  {}

  // Each schema keeps its meaning under its new name.
  lemma QuotientNames(s: Schemas, t: Schemas, rename: map<string, string>, rep: map<string, string>,
                      drop: set<string>, x: string)
    requires RefClosed(s) && Quotient(s, t, rename, rep, drop) && x in s
    ensures Renamed(x, rename) in t && SameMeaning(s, s[x], t, t[Renamed(x, rename)], SchemaLens(drop))
  {
    hide RewriteAllRefs, IsRef, HasRefString, RefClosed, Quotient, Unfold;
    MergedEntry(s, t, rename, rep, drop, x);
    var y := Renamed(x, rename);
    forall k: nat ensures Unfold(s, SchemaLens(drop), s[x], k) == Unfold(t, SchemaLens(drop), t[y], k) {
      QuotientKeepsMeaning(s, t, rename, rep, SchemaLens(drop), s[rep[y]], k);
    }
  }

  lemma MergesDocument(d: Document, out: Document, rename: map<string, string>, rep: map<string, string>)
    requires ClosedDocument(d) && ValidDocument(out)
    requires Merges(d.schemas, out.schemas, rename, rep) && out.rest == RewriteAllRefs(d.rest, rename)
    ensures ClosedDocument(out)
  {
    hide RewriteAllRefs, IsRef, HasRefString, RefClosed, ValidDocument;
    MergesClosed(d.schemas, out.schemas, rename, rep);
    RewriteClosed(d.rest, d.schemas.Keys, out.schemas.Keys, rename);
  }

  // A quotient of a document keeps the meaning of every schema and of the rest, and its references
  // resolve.
  lemma QuotientDocument(d: Document, out: Document, rename: map<string, string>, rep: map<string, string>,
                         drop: set<string>)
    requires ClosedDocument(d) && ValidDocument(out)
    requires Quotient(d.schemas, out.schemas, rename, rep, drop) && out.rest == RewriteAllRefs(d.rest, rename)
    ensures ClosedDocument(out)
    ensures forall x :: x in d.schemas ==> Keeps(d, out, rename, x, drop)
    ensures SameMeaning(d.schemas, d.rest, out.schemas, out.rest, RestLens(drop))
  {
    hide RewriteAllRefs, IsRef, HasRefString, RefClosed, ValidDocument, Unfold;
    MergesDocument(d, out, rename, rep);
    hide Quotient;
    forall x | x in d.schemas ensures Keeps(d, out, rename, x, drop) {
      QuotientNames(d.schemas, out.schemas, rename, rep, drop, x);
    }
    forall k: nat
      ensures Unfold(d.schemas, RestLens(drop), d.rest, k) == Unfold(out.schemas, RestLens(drop), out.rest, k)
    {
      QuotientKeepsMeaning(d.schemas, out.schemas, rename, rep, RestLens(drop), d.rest, k);
    }
  }

  /** Schema x of d lives on in out under its new name, with the same meaning. */
  ghost predicate Keeps(d: Document, out: Document, rename: map<string, string>, x: string, drop: set<string>)
    requires x in d.schemas
  {
    var y := Renamed(x, rename);
    y in out.schemas && SameMeaning(d.schemas, d.schemas[x], out.schemas, out.schemas[y], SchemaLens(drop))
  }

  /** Names that end up as one mean the same. */
  ghost predicate MergedMeanAlike(s: Schemas, rename: map<string, string>, drop: set<string>) {
    forall x, y :: x in s && y in s && Renamed(x, rename) == Renamed(y, rename) ==>
      SameMeaning(s, s[x], s, s[y], SchemaLens(drop))
  }

  lemma KeptMeansAlike(d: Document, out: Document, rename: map<string, string>, drop: set<string>)
    requires forall x :: x in d.schemas ==> Keeps(d, out, rename, x, drop)
    ensures MergedMeanAlike(d.schemas, rename, drop)
  {
    hide Unfold, Renamed;
    forall x, y | x in d.schemas && y in d.schemas && Renamed(x, rename) == Renamed(y, rename)
      ensures SameMeaning(d.schemas, d.schemas[x], d.schemas, d.schemas[y], SchemaLens(drop))
    {
      assert Keeps(d, out, rename, x, drop) && Keeps(d, out, rename, y, drop);
    }
  }

  // A merge in which each entry's body comes from a name that ends up there keeps all meaning exactly
  // when the names that end up as one mean the same.
  lemma MergeKeepsMeaningIff(d: Document, out: Document, rename: map<string, string>, rep: map<string, string>,
                             drop: set<string>)
    requires ClosedDocument(d) && ValidDocument(out)
    requires Merges(d.schemas, out.schemas, rename, rep) && out.rest == RewriteAllRefs(d.rest, rename)
    requires forall y :: y in rep ==> Renamed(rep[y], rename) == y
    ensures MergedMeanAlike(d.schemas, rename, drop) <==> forall x :: x in d.schemas ==> Keeps(d, out, rename, x, drop)
    ensures MergedMeanAlike(d.schemas, rename, drop) ==>
      SameMeaning(d.schemas, d.rest, out.schemas, out.rest, RestLens(drop))
  {
    hide SameMeaning, RefClosed, RewriteAllRefs, Keeps, Renamed, Closed, WellFormed, NoDup;
    if MergedMeanAlike(d.schemas, rename, drop) {
      assert Quotient(d.schemas, out.schemas, rename, rep, drop);
      QuotientDocument(d, out, rename, rep, drop);
    }
    if forall x :: x in d.schemas ==> Keeps(d, out, rename, x, drop) {
      KeptMeansAlike(d, out, rename, drop);
    }
  }

  // ---------- shapes of references ----------

  // A reference is recognized by its shape.
  lemma RefShape(v: Json, w: Json, l: Lens)
    requires Shape(v, l) == Shape(w, l) && "$ref" !in l.drop
    ensures IsRef(v) <==> IsRef(w)
    ensures HasRefString(v) <==> HasRefString(w)
    ensures IsRef(v) ==> Target(v) == Target(w)
  {
    hide Shape;
    ShapeInverts(v, w, l);
    if HasRefString(v) || HasRefString(w) {
      assert "$ref" in Kept(v.at.Keys, l);
      assert Shape(v.at["$ref"], Below(l, "$ref")) == Shape(w.at["$ref"], Below(l, "$ref"));
      ShapeInverts(v.at["$ref"], w.at["$ref"], Below(l, "$ref"));
    }
  }

  // Values of one shape expand to one shape.
  lemma {:induction false} SubstShape(v: Json, w: Json, names: set<string>, f: map<string, Json>, l: Lens)
    requires Shape(v, l) == Shape(w, l) && "$ref" !in l.drop && Closed(v, names) && Closed(w, names)
    ensures Shape(Subst(v, f), l) == Shape(Subst(w, f), l)
  {
    hide IsRef, HasRefString, Target, Subst, Shape, Below, Each, BareProperties;
    RefShape(v, w, l);
    if HasRefString(v) {
      SubstRef(v, f);
      SubstRef(w, f);
    } else {
      ShapeInverts(v, w, l);
      SubstNode(v, f);
      SubstNode(w, f);
      LensDrops(l);
      match v
      case Arr(xs) =>
        forall i | 0 <= i < |xs| { SubstShape(xs[i], w.items[i], names, f, Each(l)); }
        ShapeBuilds(Subst(v, f), Subst(w, f), l);
      case Obj(_, m) =>
        forall k | k in Kept(m.Keys, l) && k in m && k in w.at { SubstShape(m[k], w.at[k], names, f, Below(l, k)); }
        ShapeBuilds(Subst(v, f), Subst(w, f), l);
      case _ =>
    }
  }

  // Values of one shape unfold alike.
  lemma {:induction false} ShapeUnfolds(s: Schemas, l: Lens, v: Json, w: Json, names: set<string>, k: nat)
    requires Shape(v, l) == Shape(w, l) && "$ref" !in l.drop && RefClosed(s) && names <= s.Keys
    requires Closed(v, names) && Closed(w, names)
    ensures Unfold(s, l, v, k) == Unfold(s, l, w, k)
    decreases k
  {
    hide IsRef, HasRefString, Target, Unfold, Shape, RefClosed, Below, Each, BareProperties;
    RefShape(v, w, l);
    ShapeInverts(v, w, l);
    LensDrops(l);
    if k == 0 {
      UnfoldCut(s, l, v);
      UnfoldCut(s, l, w);
    } else if HasRefString(v) {
      SameBesides(v, w, l);
      forall key | key in v.at && key in w.at && key in Besides(v, l)
        ensures Unfold(s, Below(l, key), v.at[key], k - 1) == Unfold(s, Below(l, key), w.at[key], k - 1)
      {
        BesidesKept(v, l, key);
        ShapeUnfolds(s, Below(l, key), v.at[key], w.at[key], {}, k - 1);
      }
      TargetIsBody(s, v);
      RefCongruence(s, v, s, w, l, k);
    } else {
      NotRef(v);
      NotRef(w);
      match v {
        case Arr(xs) =>
          forall i | 0 <= i < |xs| { ShapeUnfolds(s, Each(l), xs[i], w.items[i], names, k - 1); }
        case Obj(_, m) =>
          forall key | key in Kept(m.Keys, l) && key in m && key in w.at {
            ShapeUnfolds(s, Below(l, key), m[key], w.at[key], names, k - 1);
          }
        case _ =>
      }
      Congruence(s, v, s, w, l, k);
    }
  }

  lemma TargetIsBody(s: Schemas, v: Json)
    requires RefClosed(s) && Closed(v, s.Keys) && HasRefString(v)
    ensures IsRef(v) && Target(v) in s && !IsRef(s[Target(v)])
  {
    hide IsRef, HasRefString, Target;
    assert Body(s[Target(v)], s.Keys);
  }

  lemma BesidesKept(v: Json, l: Lens, key: string)
    requires v.Obj? && key in Besides(v, l)
    ensures key in Kept(v.at.Keys, l)
  {
    hide Drops;
  }

  lemma SameBesides(v: Json, w: Json, l: Lens)
    requires v.Obj? && w.Obj? && Kept(v.at.Keys, l) == Kept(w.at.Keys, l)
    ensures Besides(v, l) == Besides(w, l)
  {
    hide Drops;
    assert forall k :: k in Besides(v, l) <==> k in Kept(v.at.Keys, l) && k != "$ref";
    assert forall k :: k in Besides(w, l) <==> k in Kept(w.at.Keys, l) && k != "$ref";
  }
}
