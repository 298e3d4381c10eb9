/** Each hoist strictly decreases the number of inline schema nodes, whatever the document. */
module HoistMeasure {
  import opened Json
  import opened Documents
  import opened Sums
  import opened Hoist
  import opened Occurrences

  // ---------- inline schema nodes ----------

  /** The number of schema nodes that the walk visits in v, v included. */
  ghost function Nodes(v: Json): nat
    decreases v, 3
  {
    match v
    case Arr(xs) => SumSeq(seq(|xs|, i requires 0 <= i < |xs| => Nodes(xs[i])))
    case Obj(_, m) => if "$ref" in m then 0 else 1 + NodesBelow(v)
    case _ => 0
  }

  ghost function NodesBelow(v: Json): nat
    requires v.Obj?
    decreases v, 2
  {
    SumSeq(seq(|WALK_KEYS|, i requires 0 <= i < |WALK_KEYS| => NodesKey(v, WALK_KEYS[i])))
  }

  ghost function NodesKey(v: Json, key: string): nat
    requires v.Obj?
    decreases v, 1
  {
    if key in v.at then NodesAt(PositionOf(key), v.at[key]) else 0
  }

  ghost function NodesAt(p: Position, v: Json): nat
    decreases v, 4
  {
    match p
    case Properties => if v.Obj? then Total(NodesOf(v)) else 0
    case Schema => Nodes(v)
    case SchemaList => if v.Arr? then Nodes(v) else 0
    case Opaque => 0
  }

  ghost function NodesOf(v: Json): map<string, nat>
    requires v.Obj?
    decreases v, 3
  {
    map k | k in v.at :: Nodes(v.at[k])
  }

  /** The sum of f over the nodes that rewriting replaces by a reference. */
  ghost function Replacing(v: Json, c: string, isRoot: bool, f: Json -> nat): nat
    decreases v, 3
  {
    match v
    case Arr(xs) => SumSeq(seq(|xs|, i requires 0 <= i < |xs| => Replacing(xs[i], c, false, f)))
    case Obj(_, m) =>
      if "$ref" in m then 0
      else if !isRoot && CanonicalForDedup(v) == c then f(v)
      else ReplacingBelow(v, c, f)
    case _ => 0
  }

  ghost function ReplacingBelow(v: Json, c: string, f: Json -> nat): nat
    requires v.Obj?
    decreases v, 2
  {
    SumSeq(seq(|WALK_KEYS|, i requires 0 <= i < |WALK_KEYS| => ReplacingKey(v, c, WALK_KEYS[i], f)))
  }

  ghost function ReplacingKey(v: Json, c: string, key: string, f: Json -> nat): nat
    requires v.Obj?
    decreases v, 1
  {
    if key in v.at then ReplacingAt(PositionOf(key), v.at[key], c, f) else 0
  }

  ghost function ReplacingAt(p: Position, v: Json, c: string, f: Json -> nat): nat
    decreases v, 4
  {
    match p
    case Properties => if v.Obj? then Total(ReplacingOf(v, c, f)) else 0
    case Schema => Replacing(v, c, false, f)
    case SchemaList => if v.Arr? then Replacing(v, c, false, f) else 0
    case Opaque => 0
  }

  ghost function ReplacingOf(v: Json, c: string, f: Json -> nat): map<string, nat>
    requires v.Obj?
    decreases v, 3
  {
    map k | k in v.at :: Replacing(v.at[k], c, false, f)
  }

  ghost function One(): Json -> nat { (u: Json) => 1 }

  ghost function AllNodes(): Json -> nat { (u: Json) => Nodes(u) }

  ghost function Spare(): Json -> nat { (u: Json) => if Nodes(u) == 0 then 0 else Nodes(u) - 1 }

  /** The number of nodes that rewriting replaces. */
  ghost function Replaced(v: Json, c: string, isRoot: bool): nat {
    Replacing(v, c, isRoot, One())
  }

  // ---------- rewriting removes the nodes it replaces ----------

  lemma SumSeqAdds(a: seq<nat>, b: seq<nat>, c: seq<nat>)
    requires |a| == |b| == |c| && forall i :: 0 <= i < |a| ==> a[i] + b[i] == c[i]
    ensures SumSeq(a) + SumSeq(b) == SumSeq(c)
  {
    SumLinear(a, b, c, 1);
  }

  lemma TotalAdds(a: map<string, nat>, b: map<string, nat>, c: map<string, nat>)
    requires a.Keys == b.Keys == c.Keys && forall k :: k in a ==> a[k] + b[k] == c[k]
    ensures Total(a) + Total(b) == Total(c)
  {
    TotalLinear(a, b, c, 1);
  }

  // A rewritten value has lost exactly the nodes of what was replaced in it.
  lemma {:induction false} RewriteRemoves(v: Json, c: string, n: string, isRoot: bool)
    ensures Nodes(RewriteSub(v, c, n, isRoot)) + Replacing(v, c, isRoot, AllNodes()) == Nodes(v)
    ensures v.Obj? && isRoot && "$ref" !in v.at ==>
      RewriteSub(v, c, n, isRoot).Obj? && "$ref" !in RewriteSub(v, c, n, isRoot).at
    ensures v.Obj? && isRoot && "$ref" !in v.at ==>
      NodesBelow(RewriteSub(v, c, n, isRoot)) + Replacing(v, c, isRoot, AllNodes()) == NodesBelow(v)
    decreases v, 3
  {
    hide CanonicalForDedup, RewriteSub, RewriteAt, MkRef, NodesBelow, ReplacingBelow;
    var u := RewriteSub(v, c, n, isRoot);
    RewriteSubCases(v, c, n, isRoot);
    match v
    case Arr(xs) =>
      forall i | 0 <= i < |xs| { RewriteRemoves(xs[i], c, n, false); }
      SumSeqAdds(seq(|xs|, i requires 0 <= i < |xs| => Nodes(u.items[i])),
                 seq(|xs|, i requires 0 <= i < |xs| => Replacing(xs[i], c, false, AllNodes())),
                 seq(|xs|, i requires 0 <= i < |xs| => Nodes(xs[i])));
    case Obj(_, m) =>
      RefHasNoNodes(n);
      if "$ref" !in m && (isRoot || CanonicalForDedup(v) != c) { RewriteRemovesBelow(v, c, n, isRoot); }
    case _ =>
  }

  lemma RefHasNoNodes(n: string)
    ensures Nodes(MkRef(n)) == 0
  {}

  lemma {:induction false} RewriteRemovesBelow(v: Json, c: string, n: string, isRoot: bool)
    requires v.Obj? && "$ref" !in v.at && (isRoot || CanonicalForDedup(v) != c)
    ensures RewriteSub(v, c, n, isRoot).Obj?
    ensures NodesBelow(RewriteSub(v, c, n, isRoot)) + ReplacingBelow(v, c, AllNodes()) == NodesBelow(v)
    decreases v, 2
  {
    hide CanonicalForDedup, RewriteSub, RewriteAt, NodesKey, ReplacingKey, WALK_KEYS;
    RewriteSubCases(v, c, n, isRoot);
    var u := RewriteSub(v, c, n, isRoot);
    forall i | 0 <= i < |WALK_KEYS| { RewriteRemovesKey(v, c, n, isRoot, WALK_KEYS[i]); }
    SumSeqAdds(seq(|WALK_KEYS|, i requires 0 <= i < |WALK_KEYS| => NodesKey(u, WALK_KEYS[i])),
               seq(|WALK_KEYS|, i requires 0 <= i < |WALK_KEYS| => ReplacingKey(v, c, WALK_KEYS[i], AllNodes())),
               seq(|WALK_KEYS|, i requires 0 <= i < |WALK_KEYS| => NodesKey(v, WALK_KEYS[i])));
  }

  lemma {:induction false} RewriteRemovesKey(v: Json, c: string, n: string, isRoot: bool, key: string)
    requires v.Obj? && "$ref" !in v.at && (isRoot || CanonicalForDedup(v) != c)
    ensures RewriteSub(v, c, n, isRoot).Obj?
    ensures NodesKey(RewriteSub(v, c, n, isRoot), key) + ReplacingKey(v, c, key, AllNodes()) == NodesKey(v, key)
    decreases v, 1
  {
    hide CanonicalForDedup, RewriteSub, RewriteAt, NodesAt, ReplacingAt, PositionOf;
    RewriteSubCases(v, c, n, isRoot);
    if key in v.at { RewriteRemovesAt(PositionOf(key), v.at[key], c, n); }
  }

  lemma {:induction false} RewriteRemovesAt(p: Position, v: Json, c: string, n: string)
    ensures NodesAt(p, RewriteAt(p, v, c, n)) + ReplacingAt(p, v, c, AllNodes()) == NodesAt(p, v)
    decreases v, 4
  {
    hide CanonicalForDedup, RewriteSub, Nodes, Replacing, RewriteAt;
    RewriteAtCases(p, v, c, n);
    if p.Properties? && v.Obj? {
      var u := RewriteAt(p, v, c, n);
      forall k | k in v.at { RewriteRemoves(v.at[k], c, n, false); }
      TotalAdds(NodesOf(u), ReplacingOf(v, c, AllNodes()), NodesOf(v));
    } else if p.Schema? || (p.SchemaList? && v.Arr?) {
      RewriteRemoves(v, c, n, false);
      RewriteSubCases(v, c, n, false);
    }
  }

  // ---------- sums over replaced nodes ----------

  lemma {:induction false} ReplacingAdds(v: Json, c: string, isRoot: bool, f: Json -> nat, g: Json -> nat,
                                         h: Json -> nat)
    requires forall u: Json :: u.Obj? && "$ref" !in u.at ==> f(u) + g(u) == h(u)
    ensures Replacing(v, c, isRoot, f) + Replacing(v, c, isRoot, g) == Replacing(v, c, isRoot, h)
    decreases v, 3
  {
    hide CanonicalForDedup, ReplacingBelow;
    match v
    case Arr(xs) =>
      forall i | 0 <= i < |xs| { ReplacingAdds(xs[i], c, false, f, g, h); }
      SumSeqAdds(seq(|xs|, i requires 0 <= i < |xs| => Replacing(xs[i], c, false, f)),
                 seq(|xs|, i requires 0 <= i < |xs| => Replacing(xs[i], c, false, g)),
                 seq(|xs|, i requires 0 <= i < |xs| => Replacing(xs[i], c, false, h)));
    case Obj(_, m) =>
      if "$ref" !in m && (isRoot || CanonicalForDedup(v) != c) { ReplacingBelowAdds(v, c, f, g, h); }
    case _ =>
  }

  lemma {:induction false} ReplacingBelowAdds(v: Json, c: string, f: Json -> nat, g: Json -> nat, h: Json -> nat)
    requires v.Obj? && forall u: Json :: u.Obj? && "$ref" !in u.at ==> f(u) + g(u) == h(u)
    ensures ReplacingBelow(v, c, f) + ReplacingBelow(v, c, g) == ReplacingBelow(v, c, h)
    decreases v, 2
  {
    hide ReplacingKey, WALK_KEYS;
    forall i | 0 <= i < |WALK_KEYS| { ReplacingKeyAdds(v, c, WALK_KEYS[i], f, g, h); }
    SumSeqAdds(seq(|WALK_KEYS|, i requires 0 <= i < |WALK_KEYS| => ReplacingKey(v, c, WALK_KEYS[i], f)),
               seq(|WALK_KEYS|, i requires 0 <= i < |WALK_KEYS| => ReplacingKey(v, c, WALK_KEYS[i], g)),
               seq(|WALK_KEYS|, i requires 0 <= i < |WALK_KEYS| => ReplacingKey(v, c, WALK_KEYS[i], h)));
  }

  lemma {:induction false} ReplacingKeyAdds(v: Json, c: string, key: string, f: Json -> nat, g: Json -> nat,
                                            h: Json -> nat)
    requires v.Obj? && forall u: Json :: u.Obj? && "$ref" !in u.at ==> f(u) + g(u) == h(u)
    ensures ReplacingKey(v, c, key, f) + ReplacingKey(v, c, key, g) == ReplacingKey(v, c, key, h)
    decreases v, 1
  {
    hide PositionOf, Replacing;
    if key in v.at {
      var p, w := PositionOf(key), v.at[key];
      if p.Properties? && w.Obj? {
        forall k | k in w.at { ReplacingAdds(w.at[k], c, false, f, g, h); }
        TotalAdds(ReplacingOf(w, c, f), ReplacingOf(w, c, g), ReplacingOf(w, c, h));
      } else if p.Schema? || (p.SchemaList? && w.Arr?) {
        ReplacingAdds(w, c, false, f, g, h);
      }
    }
  }

  lemma {:induction false} SumSeqHas(s: seq<nat>, i: nat)
    requires i < |s|
    ensures s[i] <= SumSeq(s)
  {
    if i > 0 { SumSeqHas(s[1..], i - 1); }
  }

  lemma TotalHas(m: map<string, nat>, k: string)
    requires k in m
    ensures m[k] <= Total(m)
  {
    TotalWithout(m, k);
  }

  // The sum over a value that is not replaced itself is at least the sum over each child.
  lemma ReplacingChild(v: Json, c: string, isRoot: bool, p: Json, f: Json -> nat)
    requires Child(v, p) && (v.Obj? ==> isRoot || CanonicalForDedup(v) != c)
    ensures Replacing(p, c, false, f) <= Replacing(v, c, isRoot, f)
  {
    hide CanonicalForDedup, PositionOf, WALK_KEYS, ReplacingKey;
    if v.Arr? {
      var i :| 0 <= i < |v.items| && v.items[i] == p;
      SumSeqHas(seq(|v.items|, i requires 0 <= i < |v.items| => Replacing(v.items[i], c, false, f)), i);
    } else {
      var k :| k in v.at && ChildAt(PositionOf(k), v.at[k], p);
      WalkKeysArePositions(k);
      var i :| 0 <= i < |WALK_KEYS| && WALK_KEYS[i] == k;
      SumSeqHas(seq(|WALK_KEYS|, i requires 0 <= i < |WALK_KEYS| => ReplacingKey(v, c, WALK_KEYS[i], f)), i);
      ReplacingChildAt(v, c, k, p, f);
    }
  }

  lemma ReplacingChildAt(v: Json, c: string, key: string, p: Json, f: Json -> nat)
    requires v.Obj? && key in v.at && ChildAt(PositionOf(key), v.at[key], p)
    ensures Replacing(p, c, false, f) <= ReplacingKey(v, c, key, f)
  {
    hide CanonicalForDedup, PositionOf, Replacing;
    var w := v.at[key];
    if PositionOf(key).Properties? {
      var k :| k in w.at && w.at[k] == p;
      TotalHas(ReplacingOf(w, c, f), k);
    }
  }

  lemma NodesChild(v: Json, p: Json)
    requires Child(v, p)
    ensures Nodes(p) <= Nodes(v)
  {
    hide PositionOf, WALK_KEYS, NodesKey;
    if v.Arr? {
      var i :| 0 <= i < |v.items| && v.items[i] == p;
      SumSeqHas(seq(|v.items|, i requires 0 <= i < |v.items| => Nodes(v.items[i])), i);
    } else {
      var k :| k in v.at && ChildAt(PositionOf(k), v.at[k], p);
      WalkKeysArePositions(k);
      var i :| 0 <= i < |WALK_KEYS| && WALK_KEYS[i] == k;
      SumSeqHas(seq(|WALK_KEYS|, i requires 0 <= i < |WALK_KEYS| => NodesKey(v, WALK_KEYS[i])), i);
      NodesChildAt(v, k, p);
    }
  }

  lemma NodesChildAt(v: Json, key: string, p: Json)
    requires v.Obj? && key in v.at && ChildAt(PositionOf(key), v.at[key], p)
    ensures Nodes(p) <= NodesKey(v, key)
  {
    hide PositionOf, Nodes;
    var w := v.at[key];
    if PositionOf(key).Properties? {
      var k :| k in w.at && w.at[k] == p;
      TotalHas(NodesOf(w), k);
    }
  }

  lemma {:induction false} NodesOfPart(v: Json, named: bool, prop: string, isRoot: bool, o: Occurrence)
    requires o in Walk(v, named, prop, isRoot)
    ensures Nodes(o.node) <= Nodes(v)
    decreases v
  {
    hide Walk, IsCandidate, Child, Nodes;
    WalkDescends(v, named, prop, isRoot, o);
    if FromChild(v, o) {
      var p, named', prop' :| Child(v, p) && o in Walk(p, named', prop', false);
      ChildIsSmaller(v, p);
      NodesOfPart(p, named', prop', false, o);
      NodesChild(v, p);
    }
  }

  // Some replaced node holds the sample: replacing takes away its nodes, and one more node for every
  // further replacement.
  lemma {:induction false} SampleIsReplaced(v: Json, named: bool, prop: string, isRoot: bool, o: Occurrence, c: string)
    requires o in Walk(v, named, prop, isRoot) && CanonicalForDedup(o.node) == c
    ensures Replacing(v, c, isRoot, Spare()) + 1 >= Nodes(o.node)
    ensures Replaced(v, c, isRoot) >= 1
    decreases v
  {
    hide Walk, IsCandidate, Child, CanonicalForDedup, Nodes, Replacing;
    WalkDescends(v, named, prop, isRoot, o);
    if v.Obj? && !isRoot && CanonicalForDedup(v) == c {
      WalkedHasNoRef(v, named, prop, isRoot, o);
      NodesOfPart(v, named, prop, isRoot, o);
      ReplacedItself(v, c);
    } else {
      assert FromChild(v, o);
      var p, named', prop' :| Child(v, p) && o in Walk(p, named', prop', false);
      ChildIsSmaller(v, p);
      SampleIsReplaced(p, named', prop', false, o, c);
      ReplacingChild(v, c, isRoot, p, Spare());
      ReplacingChild(v, c, isRoot, p, One());
    }
  }

  lemma WalkedHasNoRef(v: Json, named: bool, prop: string, isRoot: bool, o: Occurrence)
    requires o in Walk(v, named, prop, isRoot)
    ensures v.Obj? ==> "$ref" !in v.at
  {}

  lemma ReplacedItself(v: Json, c: string)
    requires v.Obj? && "$ref" !in v.at && CanonicalForDedup(v) == c
    ensures Replacing(v, c, false, Spare()) + 1 == Nodes(v) && Replacing(v, c, false, One()) == 1
  {
    hide CanonicalForDedup, NodesBelow;
  }

  // ---------- the measure ----------

  /** The number of schema nodes written out below the root of a body. */
  ghost function Inline(b: Json): nat {
    if b.Obj? && "$ref" !in b.at then NodesBelow(b) else 0
  }

  ghost function InlineOf(s: Schemas): map<string, nat> {
    map x | x in s :: Inline(s[x])
  }

  ghost function InlineNodes(s: Schemas): nat {
    Total(InlineOf(s))
  }

  ghost function ReplacingIn(s: Schemas, c: string, f: Json -> nat): nat {
    Total(ReplacingBodies(s, c, f))
  }

  ghost function ReplacingBodies(s: Schemas, c: string, f: Json -> nat): map<string, nat> {
    map x | x in s :: Replacing(s[x], c, true, f)
  }

  ghost function ReplacedIn(s: Schemas, c: string): nat {
    ReplacingIn(s, c, One())
  }

  lemma RootRewrite(b: Json, c: string, n: string)
    requires b.Obj?
    ensures Inline(RewriteSub(b, c, n, true)) + Replacing(b, c, true, AllNodes()) == Inline(b)
  {
    hide CanonicalForDedup, RewriteSub, NodesBelow, ReplacingBelow;
    RewriteSubCases(b, c, n, true);
    RewriteRemoves(b, c, n, true);
  }

  // A hoist takes away the nodes of all replaced occurrences and adds those of the sample.
  lemma HoistRemoves(s: Schemas, c: string, n: string, sample: Json)
    requires n !in s && forall x :: x in s ==> s[x].Obj?
    ensures InlineNodes(HoistOnce(s, c, n, sample)) + ReplacingIn(s, c, AllNodes()) == InlineNodes(s) + Inline(sample)
  {
    hide CanonicalForDedup, RewriteSub, Inline, Replacing, Nodes;
    var t := HoistOnce(s, c, n, sample);
    TotalWithout(InlineOf(t), n);
    forall x | x in s
      ensures Inline(t[x]) + Replacing(s[x], c, true, AllNodes()) == Inline(s[x])
    {
      RootRewrite(s[x], c, n);
    }
    TotalAdds(InlineOf(t) - {n}, ReplacingBodies(s, c, AllNodes()), InlineOf(s));
  }

  lemma ReplacingInAdds(s: Schemas, c: string)
    ensures ReplacingIn(s, c, One()) + ReplacingIn(s, c, Spare()) == ReplacingIn(s, c, AllNodes())
  {
    hide CanonicalForDedup, Replacing;
    SpareAndOne();
    forall x | x in s { ReplacingAdds(s[x], c, true, One(), Spare(), AllNodes()); }
    TotalAdds(ReplacingBodies(s, c, One()), ReplacingBodies(s, c, Spare()), ReplacingBodies(s, c, AllNodes()));
  }

  lemma SpareAndOne()
    ensures forall u: Json :: u.Obj? && "$ref" !in u.at ==> One()(u) + Spare()(u) == AllNodes()(u)
  {
    hide NodesBelow;
  }

  /** The occurrences that one scan of all schemas reports. */
  function Scan(names: seq<string>, s: Schemas): seq<Occurrence> {
    Flatten(seq(|names|,
      i requires 0 <= i < |names| => if names[i] in s then Walk(s[names[i]], false, "", true) else []))
  }

  // Each hoist of a form that the scan reports leaves fewer inline nodes than before, by at least the
  // number of references it puts in.
  lemma HoistDecreases(names: seq<string>, s: Schemas, n: string, o: Occurrence)
    requires n !in s && (forall x :: x in s ==> s[x].Obj?) && o in Scan(names, s) && o.node.Obj? && "$ref" !in o.node.at
    ensures var c := CanonicalForDedup(o.node);
      ReplacedIn(s, c) >= 1 && InlineNodes(HoistOnce(s, c, n, o.node)) + ReplacedIn(s, c) <= InlineNodes(s)
  {
    hide CanonicalForDedup, Walk, Replacing, HoistOnce, InlineNodes, Nodes;
    var c := CanonicalForDedup(o.node);
    var i := FlattenIn(seq(|names|,
      i requires 0 <= i < |names| => if names[i] in s then Walk(s[names[i]], false, "", true) else []), o);
    var x := names[i];
    SampleIsReplaced(s[x], false, "", true, o, c);
    TotalHas(ReplacingBodies(s, c, One()), x);
    TotalHas(ReplacingBodies(s, c, Spare()), x);
    HoistRemoves(s, c, n, o.node);
    ReplacingInAdds(s, c);
    InlineIsNodes(o.node);
  }

  lemma InlineIsNodes(v: Json)
    requires v.Obj? && "$ref" !in v.at
    ensures Nodes(v) == 1 + Inline(v)
  {
    hide NodesBelow;
  }
}
