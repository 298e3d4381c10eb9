/** hoistSharedSubschemas, second loop: hoisted schemas that ended up with fewer than two references
    are written back in place. */
module InlineBack {
  import opened Strings
  import opened Json
  import opened Documents
  import opened Sums

  // ---------- counting references ----------

  /** The number of references to x in v. */
  ghost function CountRefs(v: Json, x: string): nat
    decreases v, 1
  {
    match v
    case Arr(_) => SumSeq(ItemCounts(v, x))
    case Obj(_, _) => if IsRef(v) then (if Target(v) == x then 1 else 0) else Total(KeyCounts(v, x))
    case _ => 0
  }

  ghost function ItemCounts(v: Json, x: string): (s: seq<nat>)
    requires v.Arr?
    decreases v, 0
  {
    seq(|v.items|, i requires 0 <= i < |v.items| => CountRefs(v.items[i], x))
  }

  ghost function KeyCounts(v: Json, x: string): map<string, nat>
    requires v.Obj?
    decreases v, 0
  {
    map k | k in v.at :: CountRefs(v.at[k], x)
  }

  /** The number of values in v, where a reference is one value. */
  ghost function Weight(v: Json): nat
    decreases v, 1
  {
    match v
    case Arr(_) => 1 + SumSeq(ItemWeights(v))
    case Obj(_, _) => if IsRef(v) then 1 else 1 + Total(KeyWeights(v))
    case _ => 1
  }

  ghost function ItemWeights(v: Json): seq<nat>
    requires v.Arr?
    decreases v, 0
  {
    seq(|v.items|, i requires 0 <= i < |v.items| => Weight(v.items[i]))
  }

  ghost function KeyWeights(v: Json): map<string, nat>
    requires v.Obj?
    decreases v, 0
  {
    map k | k in v.at :: Weight(v.at[k])
  }

  // A value is mentioned exactly when its references are at least one.
  lemma {:induction false} CountedIffMentioned(v: Json, x: string)
    ensures CountRefs(v, x) > 0 <==> Mentions(v, x)
  {
    hide IsRef, Target;
    match v
    case Arr(xs) =>
      forall i | 0 <= i < |xs|
        ensures ItemCounts(v, x)[i] > 0 <==> Mentions(xs[i], x)
      {
        CountedIffMentioned(xs[i], x);
      }
      SumSeqZero(ItemCounts(v, x));
    case Obj(_, m) =>
      if !IsRef(v) {
        forall k | k in m ensures KeyCounts(v, x)[k] > 0 <==> Mentions(m[k], x) { CountedIffMentioned(m[k], x); }
        TotalZero(KeyCounts(v, x));
      }
    case _ =>
  }

  function Count(counts: map<string, nat>, x: string): nat {
    if x in counts then counts[x] else 0
  }

  ghost function CountsOf(stack: seq<Json>, x: string): seq<nat> {
    seq(|stack|, i requires 0 <= i < |stack| => CountRefs(stack[i], x))
  }

  ghost function Weights(stack: seq<Json>): seq<nat> {
    seq(|stack|, i requires 0 <= i < |stack| => Weight(stack[i]))
  }

  lemma StackSums(a: seq<Json>, b: seq<Json>, x: string)
    ensures SumSeq(CountsOf(a + b, x)) == SumSeq(CountsOf(a, x)) + SumSeq(CountsOf(b, x))
    ensures SumSeq(Weights(a + b)) == SumSeq(Weights(a)) + SumSeq(Weights(b))
  {
    hide CountRefs, Weight;
    assert CountsOf(a + b, x) == CountsOf(a, x) + CountsOf(b, x);
    assert Weights(a + b) == Weights(a) + Weights(b);
    SumSeqConcat(CountsOf(a, x), CountsOf(b, x));
    SumSeqConcat(Weights(a), Weights(b));
  }

  /** Object.values */
  function ValuesOf(v: Json): seq<Json>
    requires v.Obj? && Elems(v.keys) == v.at.Keys
  {
    seq(|v.keys|, i requires 0 <= i < |v.keys| => assert v.keys[i] in Elems(v.keys); v.at[v.keys[i]])
  }

  lemma ValuesOfSums(v: Json, x: string)
    requires v.Obj? && WellFormed(v) && !IsRef(v)
    ensures SumSeq(CountsOf(ValuesOf(v), x)) == CountRefs(v, x)
    ensures 1 + SumSeq(Weights(ValuesOf(v))) == Weight(v)
    ensures forall i :: 0 <= i < |ValuesOf(v)| ==> WellFormed(ValuesOf(v)[i])
  {
    hide IsRef, NoDup;
    forall i | 0 <= i < |v.keys| ensures v.keys[i] in v.at { assert v.keys[i] in Elems(v.keys); }
    assert CountsOf(ValuesOf(v), x) == Values(v.keys, KeyCounts(v, x));
    assert Weights(ValuesOf(v)) == Values(v.keys, KeyWeights(v));
    SumSeqIsTotal(v.keys, KeyCounts(v, x));
    SumSeqIsTotal(v.keys, KeyWeights(v));
  }

  lemma OneOnStack(node: Json, x: string)
    ensures SumSeq(CountsOf([node], x)) == CountRefs(node, x)
    ensures SumSeq(Weights([node])) == Weight(node)
    ensures SumSeq(CountsOf([], x)) == 0
  {
    hide CountRefs, Weight;
    assert CountsOf([node], x)[1..] == [] && Weights([node])[1..] == [];
  }

  /** What is pushed when node is popped: its parts, unless it is a reference. */
  function Parts(node: Json): seq<Json>
    requires WellFormed(node)
  {
    match node
    case Arr(xs) => xs
    case Obj(_, _) => if IsRef(node) then [] else ValuesOf(node)
    case _ => []
  }

  lemma PartsSums(node: Json, x: string)
    requires WellFormed(node)
    ensures CountRefs(node, x) == SumSeq(CountsOf(Parts(node), x)) + if IsRef(node) && Target(node) == x then 1 else 0
    ensures Weight(node) == 1 + SumSeq(Weights(Parts(node)))
    ensures forall i :: 0 <= i < |Parts(node)| ==> WellFormed(Parts(node)[i])
  {
    hide IsRef, Target, Elems, NoDup, NumChar, ValuesOf;
    match node
    case Arr(xs) =>
      assert CountsOf(xs, x) == ItemCounts(node, x);
      assert Weights(xs) == ItemWeights(node);
    case Obj(_, _) => if !IsRef(node) { ValuesOfSums(node, x); }
    case _ =>
  }

  lemma PopPush(rest: seq<Json>, node: Json, x: string)
    requires WellFormed(node)
    ensures SumSeq(CountsOf(rest + [node], x)) == SumSeq(CountsOf(rest + Parts(node), x)) +
      if IsRef(node) && Target(node) == x then 1 else 0
    ensures SumSeq(Weights(rest + Parts(node))) < SumSeq(Weights(rest + [node]))
    ensures forall i :: 0 <= i < |Parts(node)| ==> WellFormed(Parts(node)[i])
  {
    hide CountRefs, Weight, IsRef, Target, Elems, NoDup, NumChar, CountsOf, Weights, Parts;
    StackSums(rest, [node], x);
    StackSums(rest, Parts(node), x);
    OneOnStack(node, x);
    PartsSums(node, x);
  }

  /** countSchemaRefs, with its explicit stack. */
  method CountSchemaRefs(doc: Json) returns (counts: map<string, nat>)
    requires WellFormed(doc)
    ensures forall x :: Count(counts, x) == CountRefs(doc, x)
  {
    hide CountRefs, Weight, WellFormed, IsRef, Target, CountsOf, Weights, Parts, ValuesOf;
    counts := map[];
    var stack := [doc];
    forall x ensures SumSeq(CountsOf(stack, x)) == CountRefs(doc, x) { OneOnStack(doc, x); }
    while stack != []
      invariant forall i :: 0 <= i < |stack| ==> WellFormed(stack[i])
      invariant forall x :: Count(counts, x) + SumSeq(CountsOf(stack, x)) == CountRefs(doc, x)
      decreases SumSeq(Weights(stack))
    {
      var node := stack[|stack| - 1];
      var rest := stack[..|stack| - 1];
      assert stack == rest + [node];
      PopPush(rest, node, "");
      forall x
        ensures SumSeq(CountsOf(rest + [node], x)) == SumSeq(CountsOf(rest + Parts(node), x)) +
          if IsRef(node) && Target(node) == x then 1 else 0
      {
        PopPush(rest, node, x);
      }
      stack := rest + Parts(node);
      if IsRef(node) {
        counts := counts[Target(node) := Count(counts, Target(node)) + 1];
      }
    }
    forall x ensures SumSeq(CountsOf(stack, x)) == 0 { OneOnStack(doc, x); }
  }

  /** The document as one value: everything else, and the schemas. */
  function Whole(names: seq<string>, s: Schemas, rest: Json): Json {
    Arr([rest, Obj(names, s)])
  }

  /** The number of references to x in the document. */
  ghost function RefCount(s: Schemas, rest: Json, x: string): nat {
    CountRefs(rest, x) + Total(BodyCounts(s, x))
  }

  ghost function BodyCounts(s: Schemas, x: string): map<string, nat> {
    map y | y in s :: CountRefs(s[y], x)
  }

  ghost function BodyWeights(s: Schemas): map<string, nat> {
    map y | y in s :: Weight(s[y])
  }

  lemma WholeCounts(names: seq<string>, s: Schemas, rest: Json, x: string)
    requires forall y :: y in s ==> s[y].Obj?
    ensures CountRefs(Whole(names, s, rest), x) == RefCount(s, rest, x)
  {
    var w := Whole(names, s, rest);
    var all := w.items[1];
    assert !IsRef(all) && !IsRef(w);
    assert KeyCounts(all, x) == BodyCounts(s, x);
    hide CountRefs, IsRef;
    NodeCounts(w, x);
    NodeCounts(all, x);
    var ic := ItemCounts(w, x);
    assert ic[1..] == [CountRefs(all, x)] && ic[1..][1..] == [];
    assert SumSeq(ic) == ic[0] + SumSeq(ic[1..]);
    assert SumSeq(ic[1..]) == CountRefs(all, x);
    assert ic[0] == CountRefs(w.items[0], x);
  }

  // ---------- inlining ----------

  /** inlineRefsTo */
  function InlineRefsTo(v: Json, name: string, definition: Json): Json {
    match v
    case Arr(xs) => Arr(seq(|xs|, i requires 0 <= i < |xs| => InlineRefsTo(xs[i], name, definition)))
    case Obj(ks, m) =>
      if "$ref" in m && m["$ref"] == Str(PREFIX + name) then definition
      else Obj(ks, map k | k in m :: InlineRefsTo(m[k], name, definition))
    case _ => v
  }

  function InlineOnce(s: Schemas, n: string): Schemas
    requires n in s
  {
    map x | x in s && x != n :: InlineRefsTo(s[x], n, s[n])
  }

  lemma InlineNode(v: Json, n: string, b: Json)
    requires !HasRefString(v)
    ensures v.Arr? ==> InlineRefsTo(v, n, b).Arr? && |InlineRefsTo(v, n, b).items| == |v.items|
    ensures v.Arr? ==> forall i :: 0 <= i < |v.items| ==>
      InlineRefsTo(v, n, b).items[i] == InlineRefsTo(v.items[i], n, b)
    ensures v.Obj? ==> InlineRefsTo(v, n, b).Obj? && InlineRefsTo(v, n, b).keys == v.keys
    ensures v.Obj? ==> InlineRefsTo(v, n, b).at.Keys == v.at.Keys
    ensures v.Obj? ==> forall k :: k in v.at ==> InlineRefsTo(v, n, b).at[k] == InlineRefsTo(v.at[k], n, b)
    ensures !v.Arr? && !v.Obj? ==> InlineRefsTo(v, n, b) == v
  {}

  lemma InlineRef(v: Json, n: string, b: Json, names: set<string>)
    requires IsRef(v) && Closed(v, names)
    ensures InlineRefsTo(v, n, b) == if Target(v) == n then b else v
  {
    hide Closed;
    ClosedRef(v, names);
    var s := v.at["$ref"].s;
    assert s == PREFIX + s[|PREFIX|..];
    if Target(v) != n {
      assert (PREFIX + n)[|PREFIX|..] == n;
      forall k | k in v.at ensures InlineRefsTo(v.at[k], n, b) == v.at[k] { InlineNothing(v.at[k], n, b); }
      hide IsRef, Target;
      assert InlineRefsTo(v, n, b).at == v.at;
    }
  }

  // What holds no references is left alone.
  lemma {:induction false} InlineNothing(v: Json, n: string, b: Json)
    requires Closed(v, {})
    ensures InlineRefsTo(v, n, b) == v
  {
    hide IsRef, HasRefString, InlineRefsTo, BareProperties;
    NotRefWithout(v);
    InlineNode(v, n, b);
    match v
    case Arr(xs) =>
      forall i | 0 <= i < |xs| { InlineNothing(xs[i], n, b); }
      assert InlineRefsTo(v, n, b).items == xs;
    case Obj(_, m) =>
      forall k | k in m { InlineNothing(m[k], n, b); }
      assert InlineRefsTo(v, n, b).at == m;
    case _ =>
  }

  // On closed values, inlineRefsTo substitutes the definition for every reference to the name.
  lemma {:induction false} InlineIsSubst(v: Json, names: set<string>, n: string, b: Json)
    requires Closed(v, names)
    ensures InlineRefsTo(v, n, b) == Subst(v, map[n := b])
  {
    hide IsRef, HasRefString, Target, Elems, NoDup, NumChar, InlineRefsTo, Subst, BareProperties;
    var f := map[n := b];
    if HasRefString(v) {
      ClosedRef(v, names);
      InlineRef(v, n, b, names);
      SubstRef(v, f);
    } else {
      InlineNode(v, n, b);
      SubstNode(v, f);
      var x, y := InlineRefsTo(v, n, b), Subst(v, f);
      match v
      case Arr(xs) =>
        forall i | 0 <= i < |xs| ensures x.items[i] == y.items[i] { InlineIsSubst(xs[i], names, n, b); }
        assert x.items == y.items;
      case Obj(ks, m) =>
        forall k | k in m ensures x.at[k] == y.at[k] { InlineIsSubst(m[k], names, n, b); }
        assert x.at == y.at;
      case _ =>
    }
  }

  lemma {:induction false} ClosedWithout(v: Json, names: set<string>, n: string)
    requires Closed(v, names) && !Mentions(v, n)
    ensures Closed(v, names - {n})
  {
    hide IsRef, HasRefString, Target, BareProperties;
    match v
    case Arr(xs) => forall i | 0 <= i < |xs| ensures Closed(xs[i], names - {n}) { ClosedWithout(xs[i], names, n); }
    case Obj(_, m) =>
      if !HasRefString(v) {
        NotRef(v);
        forall k | k in m ensures Closed(m[k], names - {n}) { ClosedWithout(m[k], names, n); }
      }
    case _ =>
  }

  // ---------- what one inlining does to counts and sizes ----------

  lemma SubstKeepsRefs(v: Json, names: set<string>, n: string, b: Json)
    requires Closed(v, names) && !HasRefString(v) && !b.Str?
    ensures !HasRefString(Subst(v, map[n := b])) && !IsRef(Subst(v, map[n := b])) && !IsRef(v)
  {}

  lemma {:induction false} SubstCounts(v: Json, names: set<string>, n: string, b: Json, x: string)
    requires Closed(v, names) && !b.Str? && x != n
    ensures CountRefs(v, x) + CountRefs(v, n) * CountRefs(b, x) == CountRefs(Subst(v, map[n := b]), x)
  {
    hide IsRef, HasRefString, Target, Subst, CountRefs, BareProperties;
    var f := map[n := b];
    var u := Subst(v, f);
    if HasRefString(v) {
      SubstRef(v, f);
      RefCounts(v, n);
      RefCounts(v, x);
    } else {
      SubstNode(v, f);
      SubstKeepsRefs(v, names, n, b);
      NodeCounts(v, x);
      NodeCounts(v, n);
      NodeCounts(u, x);
      match v
      case Arr(xs) =>
        forall i | 0 <= i < |xs| { SubstCounts(xs[i], names, n, b, x); }
        SumLinear(ItemCounts(v, x), ItemCounts(v, n), ItemCounts(u, x), CountRefs(b, x));
      case Obj(_, m) =>
        forall k | k in m { SubstCounts(m[k], names, n, b, x); }
        TotalLinear(KeyCounts(v, x), KeyCounts(v, n), KeyCounts(u, x), CountRefs(b, x));
      case _ =>
    }
  }

  lemma RefCounts(v: Json, x: string)
    requires IsRef(v)
    ensures CountRefs(v, x) == (if Target(v) == x then 1 else 0) && Weight(v) == 1
  {}

  lemma NodeCounts(v: Json, x: string)
    requires !IsRef(v)
    ensures v.Arr? ==> CountRefs(v, x) == SumSeq(ItemCounts(v, x)) && Weight(v) == 1 + SumSeq(ItemWeights(v))
    ensures v.Obj? ==> CountRefs(v, x) == Total(KeyCounts(v, x)) && Weight(v) == 1 + Total(KeyWeights(v))
    ensures !v.Arr? && !v.Obj? ==> CountRefs(v, x) == 0 && Weight(v) == 1
  {}

  lemma WeightPositive(v: Json)
    ensures Weight(v) >= 1
  {}

  lemma {:induction false} SubstWeight(v: Json, names: set<string>, n: string, b: Json, w: nat)
    requires Closed(v, names) && !b.Str? && w + 1 == Weight(b)
    ensures Weight(v) + CountRefs(v, n) * w == Weight(Subst(v, map[n := b]))
    decreases v
  {
    hide IsRef, HasRefString, Target, Subst, CountRefs, Weight, BareProperties;
    var f := map[n := b];
    var u := Subst(v, f);
    if HasRefString(v) {
      ClosedRef(v, names);
      SubstRef(v, f);
      RefCounts(v, n);
    } else {
      SubstNode(v, f);
      SubstKeepsRefs(v, names, n, b);
      NodeCounts(v, n);
      NodeCounts(u, n);
      match v
      case Arr(xs) =>
        forall i | 0 <= i < |xs| { SubstWeight(xs[i], names, n, b, w); }
        SumLinear(ItemWeights(v), ItemCounts(v, n), ItemWeights(u), w);
      case Obj(_, m) =>
        forall k | k in m { SubstWeight(m[k], names, n, b, w); }
        TotalLinear(KeyWeights(v), KeyCounts(v, n), KeyWeights(u), w);
      case _ =>
    }
  }

  ghost function TotalWeight(s: Schemas): nat {
    Total(BodyWeights(s))
  }

  // Inlining a schema with at most one reference adds no reference to any other schema.
  lemma InlineCounts(s: Schemas, rest: Json, n: string, x: string)
    requires RefClosed(s) && n in s && x != n && RefCount(s, rest, n) <= 1
    ensures RefCount(InlineOnce(s, n), rest, x) <= RefCount(s, rest, x)
  {
    hide IsRef, HasRefString, CountRefs, InlineRefsTo, Subst, RefClosed;
    var t := InlineOnce(s, n);
    var w := CountRefs(s[n], x);
    TotalWithout(BodyCounts(s, x), n);
    TotalWithout(BodyCounts(s, n), n);
    assert t.Keys == s.Keys - {n};
    forall y | y in t ensures CountRefs(s[y], x) + CountRefs(s[y], n) * w == CountRefs(t[y], x) {
      InlineBody(s, n, y);
      SubstCounts(s[y], s.Keys, n, s[n], x);
    }
    TotalLinear(BodyCounts(s, x) - {n}, BodyCounts(s, n) - {n}, BodyCounts(t, x), w);
    AtMostOnce(Total(BodyCounts(s, n) - {n}), w);
  }

  lemma AtMostOnce(r: nat, w: nat)
    requires r <= 1
    ensures r * w <= w
  {}

  lemma InlineBody(s: Schemas, n: string, y: string)
    requires RefClosed(s) && n in s && y in s
    ensures InlineRefsTo(s[y], n, s[n]) == Subst(s[y], map[n := s[n]]) && Closed(s[y], s.Keys) && !s[n].Str?
  {
    hide IsRef, HasRefString, InlineRefsTo, Subst;
    assert Body(s[y], s.Keys) && Body(s[n], s.Keys);
    InlineIsSubst(s[y], s.Keys, n, s[n]);
  }

  // Inlining a schema with at most one reference makes the document smaller: no body is duplicated.
  lemma InlineShrinks(s: Schemas, rest: Json, n: string)
    requires RefClosed(s) && n in s && RefCount(s, rest, n) <= 1
    ensures TotalWeight(InlineOnce(s, n)) < TotalWeight(s)
  {
    hide IsRef, HasRefString, CountRefs, InlineRefsTo, Subst, Weight, RefClosed;
    var t := InlineOnce(s, n);
    WeightPositive(s[n]);
    var w := Weight(s[n]) - 1;
    TotalWithout(BodyWeights(s), n);
    TotalWithout(BodyCounts(s, n), n);
    assert t.Keys == s.Keys - {n};
    forall y | y in t ensures Weight(s[y]) + CountRefs(s[y], n) * w == Weight(t[y]) {
      InlineBody(s, n, y);
      SubstWeight(s[y], s.Keys, n, s[n], w);
    }
    TotalLinear(BodyWeights(s) - {n}, BodyCounts(s, n) - {n}, BodyWeights(t), w);
    AtMostOnce(Total(BodyCounts(s, n) - {n}), w);
  }
}
