/** What equal fingerprints mean, how many rounds that takes, and when the strings settle. */
module Equivalence {
  import opened Strings
  import opened Json
  import opened Documents
  import opened Fnv
  import opened Fingerprints

  /** The unfolding of v to depth k that still shows where references were followed. */
  ghost function Anchored(s: Schemas, v: Json, k: nat): Tree
    decreases k
  {
    if k == 0 then Cut
    else if IsRef(v) && Target(v) in s then Via(Anchored(s, s[Target(v)], k - 1))
    else
      match v
      case Arr(xs) => List(seq(|xs|, i requires 0 <= i < |xs| => Anchored(s, xs[i], k - 1)))
      case Obj(_, m) => Map(map key | key in m :: Anchored(s, m[key], k - 1))
      case _ => Leaf(v)
  }

  /** x and y are the same node of the schema graph, up to the names of anchors. */
  ghost predicate SameGraph(s: Schemas, v: Json, w: Json) {
    forall k: nat :: Anchored(s, v, k) == Anchored(s, w, k)
  }

  // ---------- a stable class has one meaning ----------

  lemma StableBodies(s: Schemas, r: nat, x: string, y: string)
    requires UnmarkedSchemas(s) && NoCollision(s, Rounds(s, r)) && Stable(s, r)
    requires x in s && y in s && SameClass(s, r, x, y)
    ensures Match(s[x], s[y], Rounds(s, r)) && Body(s[x], s.Keys) && Body(s[y], s.Keys)
  {
    hide Match, IsRef, HasRefString, NoCollision, Rounds;
    assert SameClass(s, r + 1, x, y);
    RoundIsMatch(s, r, x, y);
  }

  /** The references v and w have the same siblings, as far as they are not forgotten. */
  ghost predicate SameSiblings(v: Json, w: Json, l: Lens)
    requires v.Obj? && w.Obj?
  {
    Besides(v, l) == Besides(w, l) &&
    forall key :: key in Besides(v, l) && key in v.at && key in w.at ==>
      Shape(v.at[key], Below(l, key)) == Shape(w.at[key], Below(l, key))
  }

  /** Matching values whose references have the same siblings, wherever that is not forgotten. */
  ghost predicate SiblingsMatch(v: Json, w: Json, l: Lens)
    decreases v
  {
    match v
    case Arr(xs) =>
      w.Arr? && |w.items| == |xs| ==> forall i :: 0 <= i < |xs| ==> SiblingsMatch(xs[i], w.items[i], Each(l))
    case Obj(_, m) =>
      w.Obj? ==>
        if IsRef(v) then SameSiblings(v, w, l)
        else forall k :: k in m && k in w.at && k in Kept(m.Keys, l) ==> SiblingsMatch(m[k], w.at[k], Below(l, k))
    case _ => true
  }

  /** The schemas named in `within` refer to each other only. */
  ghost predicate SelfContained(s: Schemas, within: set<string>) {
    within <= s.Keys && forall x :: x in within ==> Closed(s[x], within)
  }

  /** Those of them that are of one class have the same siblings beside their references. */
  ghost predicate SiblingsAgree(s: Schemas, r: nat, within: set<string>, drop: set<string>)
    requires within <= s.Keys
  {
    forall x, y :: x in within && y in within && SameClass(s, r, x, y) ==> SiblingsMatch(s[x], s[y], SchemaLens(drop))
  }

  lemma {:induction false} MatchUnfolds(s: Schemas, r: nat, within: set<string>, l: Lens, v: Json, w: Json, k: nat)
    requires UnmarkedSchemas(s) && NoCollision(s, Rounds(s, r)) && Stable(s, r) && "$ref" !in l.drop
    requires SelfContained(s, within) && SiblingsAgree(s, r, within, l.drop)
    requires Closed(v, within) && Closed(w, within) && Match(v, w, Rounds(s, r)) && SiblingsMatch(v, w, l)
    ensures Unfold(s, l, v, k) == Unfold(s, l, w, k)
    decreases k, 1
  {
    hide HasRefString, Target, NoCollision, Rounds, Stable, Unfold, UnmarkedSchemas, Closed, SiblingsAgree,
      SameSiblings, Besides, Below, Kept;
    if IsRef(v) {
      ClosedRef(v, within);
      ClosedRef(w, within);
      RoundsDomain(s, r);
      ClassUnfolds(s, r, within, l, Target(v), Target(w), k);
      if k > 0 {
        ClassUnfolds(s, r, within, l, Target(v), Target(w), k - 1);
        SiblingsUnfold(s, l, v, w, k - 1);
      }
      hide IsRef;
      SiblingSets(v, w, l);
      RefCongruence(s, v, s, w, l, k);
    } else {
      MatchNodeUnfolds(s, r, within, l, v, w, k);
    }
  }

  lemma SiblingSets(v: Json, w: Json, l: Lens)
    requires v.Obj? && w.Obj? && SameSiblings(v, w, l)
    ensures Besides(v, l) == Besides(w, l)
  {
    hide Besides;
  }

  // Siblings of one shape unfold alike, because they hold no references.
  lemma SiblingsUnfold(s: Schemas, l: Lens, v: Json, w: Json, k: nat)
    requires v.Obj? && w.Obj? && SameSiblings(v, w, l) && RefClosed(s) && "$ref" !in l.drop
    requires (forall key :: key in v.at ==> Closed(v.at[key], {}))
    requires forall key :: key in w.at ==> Closed(w.at[key], {})
    ensures forall key :: key in v.at && key in w.at && key in Besides(v, l) ==>
      Unfold(s, Below(l, key), v.at[key], k) == Unfold(s, Below(l, key), w.at[key], k)
  {
    hide Unfold, Besides, Closed, Below, RefClosed, Shape;
    forall key | key in v.at && key in w.at && key in Besides(v, l)
      ensures Unfold(s, Below(l, key), v.at[key], k) == Unfold(s, Below(l, key), w.at[key], k)
    {
      LensDrops(l);
      ShapeUnfolds(s, Below(l, key), v.at[key], w.at[key], {}, k);
    }
  }

  // Members of one class unfold alike.
  lemma {:induction false} ClassUnfolds(s: Schemas, r: nat, within: set<string>, l: Lens, x: string, y: string, k: nat)
    requires UnmarkedSchemas(s) && NoCollision(s, Rounds(s, r)) && Stable(s, r) && "$ref" !in l.drop
    requires SelfContained(s, within) && SiblingsAgree(s, r, within, l.drop)
    requires x in within && y in within && x in Rounds(s, r) && y in Rounds(s, r) && Rounds(s, r)[x] == Rounds(s, r)[y]
    ensures Unfold(s, AtBody(l), s[x], k) == Unfold(s, AtBody(l), s[y], k)
    ensures !IsRef(s[x]) && !IsRef(s[y]) && RefClosed(s)
    decreases k, 0, 1
  {
    hide HasRefString, Target, NoCollision, Rounds, Stable, Unfold, Match, IsRef, SiblingsMatch, Unmarked;
    StableBodies(s, r, x, y);
    LensDrops(l);
    MatchNodeUnfolds(s, r, within, AtBody(l), s[x], s[y], k);
  }

  lemma {:induction false} MatchNodeUnfolds(s: Schemas, r: nat, within: set<string>, l: Lens, v: Json, w: Json, k: nat)
    requires UnmarkedSchemas(s) && NoCollision(s, Rounds(s, r)) && Stable(s, r) && "$ref" !in l.drop
    requires SelfContained(s, within) && SiblingsAgree(s, r, within, l.drop)
    requires Closed(v, within) && Closed(w, within) && Match(v, w, Rounds(s, r)) && SiblingsMatch(v, w, l) && !IsRef(v)
    ensures Unfold(s, l, v, k) == Unfold(s, l, w, k)
    decreases k, 0, 0
  {
    hide IsRef, HasRefString, Target, NoCollision, Rounds, Stable, Unfold, UnmarkedSchemas, SiblingsAgree,
      BareProperties, Below, Each;
    if k == 0 {
      UnfoldCut(s, l, v);
      UnfoldCut(s, l, w);
    } else {
      LensDrops(l);
      ClosedNoRef(v, within);
      MatchNoRef(v, w, Rounds(s, r));
      ClosedNoRef(w, within);
      match v {
        case Arr(xs) =>
          forall i | 0 <= i < |xs| { MatchUnfolds(s, r, within, Each(l), xs[i], w.items[i], k - 1); }
        case Obj(_, m) =>
          forall key | key in m && key in w.at && key in Kept(m.Keys, l) {
            MatchUnfolds(s, r, within, Below(l, key), m[key], w.at[key], k - 1);
          }
        case _ =>
      }
      Congruence(s, v, s, w, l, k);
    }
  }

  lemma MatchNoRef(v: Json, w: Json, fp: Prints)
    requires Match(v, w, fp) && !IsRef(v)
    ensures !IsRef(w)
  {}

  lemma StableClassHasOneMeaning(s: Schemas, r: nat, within: set<string>, x: string, y: string, drop: set<string>)
    requires UnmarkedSchemas(s) && NoCollision(s, Rounds(s, r)) && Stable(s, r) && "$ref" !in drop
    requires SelfContained(s, within) && SiblingsAgree(s, r, within, drop)
    requires x in within && y in within && SameClass(s, r, x, y)
    ensures SameMeaning(s, s[x], s, s[y], SchemaLens(drop))
  {
    assert x in s && y in s;
    hide Match, IsRef, HasRefString, NoCollision, Rounds, Unfold, UnmarkedSchemas, Closed, SiblingsAgree, Stable;
    RoundsDomain(s, r);
    var l := SchemaLens(drop);
    assert AtBody(l) == l;
    forall k: nat ensures Unfold(s, l, s[x], k) == Unfold(s, l, s[y], k) {
      ClassUnfolds(s, r, within, l, x, y, k);
    }
  }

  // ---------- and only if siblings agree ----------

  // Values without references that unfold alike have one shape.
  lemma {:induction false} UnfoldShape(s: Schemas, l: Lens, v: Json, w: Json)
    requires Closed(v, {}) && Closed(w, {}) && SameMeaning(s, v, s, w, l)
    ensures Shape(v, l) == Shape(w, l)
    decreases v
  {
    hide IsRef, HasRefString, Shape, Below, Each, Unfold, BareProperties;
    NotRefWithout(v);
    NotRefWithout(w);
    UnfoldInverts(s, v, s, w, l);
    match v
    case Arr(xs) =>
      forall i | 0 <= i < |xs| { UnfoldShape(s, Each(l), xs[i], w.items[i]); }
      ShapeBuilds(v, w, l);
    case Obj(_, m) =>
      forall k | k in Kept(m.Keys, l) && k in m && k in w.at { UnfoldShape(s, Below(l, k), m[k], w.at[k]); }
      ShapeBuilds(v, w, l);
    case _ =>
  }

  // References that unfold alike have the same siblings.
  lemma RefSiblings(s: Schemas, l: Lens, v: Json, w: Json)
    requires RefClosed(s) && HasRefString(v) && HasRefString(w) && Closed(v, s.Keys) && Closed(w, s.Keys)
    requires SameMeaning(s, v, s, w, l)
    ensures SameSiblings(v, w, l)
  {
    hide IsRef, HasRefString, Target, Besides, Below, Unfold, Closed, Shape;
    ClosedRef(v, s.Keys);
    ClosedRef(w, s.Keys);
    TargetIsBody(s, v);
    TargetIsBody(s, w);
    BesidesInside(v, l);
    BesidesInside(w, l);
    assert Unfold(s, l, v, 1) == Unfold(s, l, w, 1);
    RefTop(s, l, v, 1);
    RefTop(s, l, w, 1);
    forall key | key in Besides(v, l) && key in v.at && key in w.at
      ensures Shape(v.at[key], Below(l, key)) == Shape(w.at[key], Below(l, key))
    {
      forall k: nat ensures Unfold(s, Below(l, key), v.at[key], k) == Unfold(s, Below(l, key), w.at[key], k) {
        assert Unfold(s, l, v, k + 1) == Unfold(s, l, w, k + 1);
        UnfoldBeside(s, l, v, k + 1);
        UnfoldBeside(s, l, w, k + 1);
      }
      UnfoldShape(s, Below(l, key), v.at[key], w.at[key]);
    }
  }

  lemma RefTop(s: Schemas, l: Lens, v: Json, k: nat)
    requires k > 0 && IsRef(v) && Target(v) in s && s[Target(v)].Obj? && !IsRef(s[Target(v)])
    requires Besides(v, l) <= v.at.Keys
    ensures Besides(v, l) == {} ==> Unfold(s, l, v, k).Map?
    ensures Besides(v, l) != {} ==> Unfold(s, l, v, k).Beside? && Unfold(s, l, v, k).siblings.Keys == Besides(v, l)
  {
    if Besides(v, l) != {} { UnfoldBeside(s, l, v, k); }
    hide IsRef, Besides;
  }

  lemma {:induction false} UnfoldsSiblings(s: Schemas, l: Lens, v: Json, w: Json, fp: Prints)
    requires RefClosed(s) && Closed(v, s.Keys) && Closed(w, s.Keys) && Match(v, w, fp) && SameMeaning(s, v, s, w, l)
    ensures SiblingsMatch(v, w, l)
    decreases v
  {
    hide HasRefString, Target, Below, Each, Unfold, BareProperties, RefClosed, SameMeaning, SameSiblings, Kept;
    if IsRef(v) {
      RefSiblings(s, l, v, w);
    } else {
      MatchNoRef(v, w, fp);
      ClosedNoRef(v, s.Keys);
      ClosedNoRef(w, s.Keys);
      UnfoldInverts(s, v, s, w, l);
      hide IsRef;
      match v
      case Arr(xs) => forall i | 0 <= i < |xs| { UnfoldsSiblings(s, Each(l), xs[i], w.items[i], fp); }
      case Obj(_, m) =>
        forall k | k in m && k in w.at && k in Kept(m.Keys, l) { UnfoldsSiblings(s, Below(l, k), m[k], w.at[k], fp); }
      case _ =>
    }
  }

  // The fingerprint is blind to what stands beside a reference: among schemas that refer to each other
  // only, the classes of a stable partition have one meaning each exactly when they agree on that.
  lemma StableClassesHaveOneMeaningIff(s: Schemas, r: nat, within: set<string>, drop: set<string>)
    requires UnmarkedSchemas(s) && NoCollision(s, Rounds(s, r)) && Stable(s, r) && "$ref" !in drop
    requires SelfContained(s, within)
    ensures SiblingsAgree(s, r, within, drop) <==>
      forall x, y :: x in within && y in within && SameClass(s, r, x, y) ==>
        SameMeaning(s, s[x], s, s[y], SchemaLens(drop))
  {
    hide Match, IsRef, HasRefString, NoCollision, Rounds, SameMeaning, SiblingsMatch, Stable, Unmarked;
    if SiblingsAgree(s, r, within, drop) {
      forall x, y | x in within && y in within && SameClass(s, r, x, y)
        ensures SameMeaning(s, s[x], s, s[y], SchemaLens(drop))
      {
        StableClassHasOneMeaning(s, r, within, x, y, drop);
      }
    }
    if forall x, y :: x in within && y in within && SameClass(s, r, x, y) ==>
      SameMeaning(s, s[x], s, s[y], SchemaLens(drop)) {
      forall x, y | x in within && y in within && SameClass(s, r, x, y)
        ensures SiblingsMatch(s[x], s[y], SchemaLens(drop))
      {
        StableBodies(s, r, x, y);
        UnfoldsSiblings(s, SchemaLens(drop), s[x], s[y], Rounds(s, r));
      }
    }
  }

  /** Equal but for key order and what stands beside references. */
  ghost predicate SameButSiblings(v: Json, w: Json) {
    match v
    case Arr(xs) => w.Arr? && |w.items| == |xs| && forall i :: 0 <= i < |xs| ==> SameButSiblings(xs[i], w.items[i])
    case Obj(_, m) =>
      if IsRef(v) then IsRef(w) && Target(w) == Target(v)
      else w.Obj? && !IsRef(w) && w.at.Keys == m.Keys && forall k :: k in m ==> SameButSiblings(m[k], w.at[k])
    case _ => v == w
  }

  lemma {:induction false} SiblingsAreIgnored(v: Json, w: Json, fp: Prints)
    requires SameButSiblings(v, w)
    ensures Match(v, w, fp)
  {
    hide IsRef, Target;
    match v
    case Arr(xs) => forall i | 0 <= i < |xs| { SiblingsAreIgnored(xs[i], w.items[i], fp); }
    case Obj(_, m) => if !IsRef(v) { forall k | k in m { SiblingsAreIgnored(m[k], w.at[k], fp); } }
    case _ =>
  }

  // Schemas that differ only beside references share a fingerprint in every round.
  lemma SiblingsDoNotShow(s: Schemas, r: nat, x: string, y: string)
    requires UnmarkedSchemas(s) && x in s && y in s && SameButSiblings(s[x], s[y])
    ensures SameClass(s, r, x, y)
  {
    hide SameButSiblings, Match, UnmarkedSchemas, Rounds;
    RoundsDomain(s, r);
    if r == 0 {
      StartsTogether(s, x, y);
    } else {
      SiblingsAreIgnored(s[x], s[y], Rounds(s, r - 1));
      MatchedTogether(s, r - 1, x, y);
    }
  }

  // ---------- a stable class is exactly one node of the schema graph ----------

  lemma {:induction false} MatchAnchored(s: Schemas, r: nat, v: Json, w: Json, k: nat)
    requires UnmarkedSchemas(s) && NoCollision(s, Rounds(s, r)) && Stable(s, r)
    requires Closed(v, s.Keys) && Closed(w, s.Keys) && Match(v, w, Rounds(s, r))
    ensures Anchored(s, v, k) == Anchored(s, w, k)
    decreases k, 1
  {
    hide HasRefString, Target, NoCollision, Rounds, Stable, UnmarkedSchemas, Anchored;
    if k == 0 {
      AnchoredCut(s, v);
      AnchoredCut(s, w);
    } else if IsRef(v) {
      RoundsDomain(s, r);
      AnchoredTop(s, v, k - 1);
      AnchoredTop(s, w, k - 1);
      StableBodies(s, r, Target(v), Target(w));
      MatchAnchored(s, r, s[Target(v)], s[Target(w)], k - 1);
    } else {
      MatchNodeAnchored(s, r, v, w, k);
    }
  }

  lemma {:induction false} MatchNodeAnchored(s: Schemas, r: nat, v: Json, w: Json, k: nat)
    requires UnmarkedSchemas(s) && NoCollision(s, Rounds(s, r)) && Stable(s, r) && k > 0
    requires Closed(v, s.Keys) && Closed(w, s.Keys) && Match(v, w, Rounds(s, r)) && !IsRef(v)
    ensures Anchored(s, v, k) == Anchored(s, w, k)
    decreases k, 0
  {
    hide IsRef, HasRefString, Target, NoCollision, Rounds, Stable, UnmarkedSchemas, Anchored;
    AnchoredTop(s, v, k - 1);
    AnchoredTop(s, w, k - 1);
    var t, u := Anchored(s, v, k), Anchored(s, w, k);
    match v
    case Arr(xs) =>
      forall i | 0 <= i < |xs| ensures t.items[i] == u.items[i] {
        MatchAnchored(s, r, xs[i], w.items[i], k - 1);
      }
      assert t.items == u.items;
    case Obj(_, m) =>
      forall key | key in m ensures t.at[key] == u.at[key] {
        MatchAnchored(s, r, m[key], w.at[key], k - 1);
      }
      assert t.at == u.at;
    case _ =>
  }

  lemma AnchoredCut(s: Schemas, v: Json)
    ensures Anchored(s, v, 0) == Cut
  {}

  // Matching bodies get one fingerprint, collision or not.
  lemma MatchedTogether(s: Schemas, r: nat, x: string, y: string)
    requires UnmarkedSchemas(s) && x in s && y in s && Match(s[x], s[y], Rounds(s, r))
    ensures SameClass(s, r + 1, x, y)
  {
    hide Hash, Normalize, Match, IsRef, HasRefString;
    var fp := Rounds(s, r);
    RoundsDomain(s, r);
    NormalizeWellFormed(s[x], s.Keys, fp);
    NormalizeWellFormed(s[y], s.Keys, fp);
    CanonicalInjective(Normalize(s[x], fp), Normalize(s[y], fp));
    AlikeIsMatch(s[x], s[y], s.Keys, fp);
    assert Rounds(s, r + 1)[x] == Fingerprint(s[x], fp);
    assert Rounds(s, r + 1)[y] == Fingerprint(s[y], fp);
  }

  // Equal graphs stay together in every round.
  lemma {:induction false} SameGraphMatches(s: Schemas, r: nat, v: Json, w: Json)
    requires UnmarkedSchemas(s) && Closed(v, s.Keys) && Closed(w, s.Keys) && SameGraph(s, v, w)
    ensures Match(v, w, Rounds(s, r))
    decreases r, 1, v
  {
    hide IsRef, HasRefString, Target, Rounds, SameGraph, UnmarkedSchemas;
    SameGraphInverts(s, v, w);
    if IsRef(v) {
      SameGraphTogether(s, r, Target(v), Target(w));
    } else {
      match v
      case Arr(xs) =>
        forall i | 0 <= i < |xs| ensures Match(xs[i], w.items[i], Rounds(s, r)) {
          SameGraphMatches(s, r, xs[i], w.items[i]);
        }
      case Obj(_, m) =>
        forall k | k in m ensures Match(m[k], w.at[k], Rounds(s, r)) {
          SameGraphMatches(s, r, m[k], w.at[k]);
        }
      case _ =>
    }
  }

  lemma {:induction false} SameGraphTogether(s: Schemas, r: nat, x: string, y: string)
    requires UnmarkedSchemas(s) && x in s && y in s && SameGraph(s, s[x], s[y])
    ensures SameClass(s, r, x, y) && Rounds(s, r).Keys == s.Keys
    decreases r, 0
  {
    hide UnmarkedSchemas, SameGraph, Match, Rounds, Closed, WellFormed, Unmarked, Anchored, SameClass;
    RoundsDomain(s, r);
    if r == 0 {
      StartsTogether(s, x, y);
    } else {
      BodyUnmarked(s, x);
      BodyUnmarked(s, y);
      SameGraphMatches(s, r - 1, s[x], s[y]);
      MatchedTogether(s, r - 1, x, y);
    }
  }

  lemma BodyClosed(s: Schemas, x: string)
    requires RefClosed(s) && x in s
    ensures Closed(s[x], s.Keys) && !IsRef(s[x]) && WellFormed(s[x])
  {
    hide IsRef, HasRefString;
  }

  lemma BodyUnmarked(s: Schemas, x: string)
    requires UnmarkedSchemas(s) && x in s
    ensures Closed(s[x], s.Keys) && !IsRef(s[x]) && WellFormed(s[x]) && Unmarked(s[x])
  {
    hide IsRef, HasRefString;
  }

  // Equal graphs have equal tops and equal graphs below.
  lemma SameGraphInverts(s: Schemas, v: Json, w: Json)
    requires Closed(v, s.Keys) && Closed(w, s.Keys) && SameGraph(s, v, w)
    ensures IsRef(v) <==> IsRef(w)
    ensures IsRef(v) ==> Target(v) in s && Target(w) in s && SameGraph(s, s[Target(v)], s[Target(w)])
    ensures !IsRef(v) ==> (v.Arr? <==> w.Arr?) && (v.Obj? <==> w.Obj?)
    ensures !IsRef(v) && !v.Arr? && !v.Obj? ==> v == w
    ensures v.Arr? ==>
      w.Arr? && |v.items| == |w.items| && forall i :: 0 <= i < |v.items| ==> SameGraph(s, v.items[i], w.items[i])
    ensures v.Obj? && !IsRef(v) ==>
      w.Obj? && v.at.Keys == w.at.Keys && forall k :: k in v.at ==> SameGraph(s, v.at[k], w.at[k])
  {
    hide IsRef, HasRefString, Target;
    assert Anchored(s, v, 1) == Anchored(s, w, 1);
    AnchoredTop(s, v, 0);
    AnchoredTop(s, w, 0);
    if v.Arr? {
      forall i, k: nat | 0 <= i < |v.items| ensures Anchored(s, v.items[i], k) == Anchored(s, w.items[i], k) {
        AnchoredTop(s, v, k);
        AnchoredTop(s, w, k);
        assert Anchored(s, v, k + 1).items[i] == Anchored(s, w, k + 1).items[i];
      }
    } else if IsRef(v) {
      forall k: nat ensures Anchored(s, s[Target(v)], k) == Anchored(s, s[Target(w)], k) {
        assert Anchored(s, v, k + 1) == Anchored(s, w, k + 1);
        AnchoredTop(s, v, k);
        AnchoredTop(s, w, k);
      }
    } else if v.Obj? {
      assert v.at.Keys == Anchored(s, v, 1).at.Keys == w.at.Keys;
      forall key, k: nat | key in v.at ensures Anchored(s, v.at[key], k) == Anchored(s, w.at[key], k) {
        AnchoredTop(s, v, k);
        AnchoredTop(s, w, k);
        assert Anchored(s, v, k + 1).at[key] == Anchored(s, w, k + 1).at[key];
      }
    }
  }

  lemma AnchoredTop(s: Schemas, v: Json, k: nat)
    requires Closed(v, s.Keys)
    ensures var t := Anchored(s, v, k + 1);
      && (t.Via? <==> IsRef(v)) && (IsRef(v) ==> Target(v) in s && t == Via(Anchored(s, s[Target(v)], k)))
      && (t.List? <==> v.Arr?) &&
        (v.Arr? ==> |t.items| == |v.items| && forall i :: 0 <= i < |v.items| ==>
        t.items[i] == Anchored(s, v.items[i], k))
      && (t.Map? <==> v.Obj? && !IsRef(v))
      && (t.Map? ==> t.at.Keys == v.at.Keys && forall key :: key in v.at ==> t.at[key] == Anchored(s, v.at[key], k))
      && (t.Leaf? <==> !v.Arr? && !v.Obj?) && (t.Leaf? ==> t.value == v)
  {
    hide HasRefString, Target;
  }

  // In a stable partition two names share a fingerprint exactly when their schema graphs agree,
  // cyclic references included.
  lemma StableClassesAreGraphEquivalence(s: Schemas, r: nat, x: string, y: string)
    requires UnmarkedSchemas(s) && NoCollision(s, Rounds(s, r)) && Stable(s, r) && x in s && y in s
    ensures SameClass(s, r, x, y) <==> SameGraph(s, s[x], s[y])
  {
    hide Match, IsRef, HasRefString, NoCollision, Rounds, Anchored, Body;
    BodyClosed(s, x);
    BodyClosed(s, y);
    if SameClass(s, r, x, y) {
      StableBodies(s, r, x, y);
      forall k: nat ensures Anchored(s, s[x], k) == Anchored(s, s[y], k) {
        MatchAnchored(s, r, s[x], s[y], k);
      }
    }
    if SameGraph(s, s[x], s[y]) { SameGraphTogether(s, r, x, y); }
  }

  // ---------- the strings settle only on acyclic references ----------

  /** Some chain of r references starts at schema x. */
  ghost predicate RefPath(s: Schemas, x: string, r: nat)
    decreases r
  {
    r == 0 || exists y :: y in s && x in s && Mentions(s[x], y) && RefPath(s, y, r - 1)
  }

  // No two texts printed in the first `rounds` rounds collide, in one round or across rounds.
  ghost predicate NoCollisionEver(s: Schemas, rounds: nat) {
    forall i: nat, j: nat, x, y :: i < rounds && j < rounds && x in s && y in s
      && Fingerprint(s[x], Rounds(s, i)) == Fingerprint(s[y], Rounds(s, j))
      ==> Text(s[x], Rounds(s, i)) == Text(s[y], Rounds(s, j))
  }

  // Two groupings normalize v alike exactly when they agree on every name v mentions.
  lemma {:induction false} NormalizedAlike(v: Json, names: set<string>, fp: Prints, gp: Prints)
    requires Closed(v, names) && fp.Keys == names && gp.Keys == names
    ensures Shape(Normalize(v, fp), EXACT) == Shape(Normalize(v, gp), EXACT)
      <==> forall x :: Mentions(v, x) ==> x in names && fp[x] == gp[x]
  {
    hide HasRefString, Target, Normalize, Shape, Marker, Markers, BareProperties, Kept, EXACT, Each, Below;
    if IsRef(v) {
      NormalizeRef(v, fp);
      NormalizeRef(v, gp);
      MarkersDiffer(fp[Target(v)], gp[Target(v)]);
      assert Mentions(v, Target(v));
    } else {
      ClosedNoRef(v, names);
      hide IsRef;
      NormalizeNode(v, fp);
      NormalizeNode(v, gp);
      KeptExactly();
      var a, b := Normalize(v, fp), Normalize(v, gp);
      if Shape(a, EXACT) == Shape(b, EXACT) { ShapeInverts(a, b, EXACT); }
      match v
      case Arr(xs) =>
        forall i | 0 <= i < |xs|
          ensures Shape(a.items[i], EXACT) == Shape(b.items[i], EXACT) <==>
                  forall x :: Mentions(xs[i], x) ==> x in names && fp[x] == gp[x]
        {
          NormalizedAlike(xs[i], names, fp, gp);
        }
        if forall x :: Mentions(v, x) ==> x in names && fp[x] == gp[x] { ShapeBuilds(a, b, EXACT); }
      case Obj(_, m) =>
        forall k | k in m
          ensures Shape(a.at[k], EXACT) == Shape(b.at[k], EXACT) <==>
                  forall x :: Mentions(m[k], x) ==> x in names && fp[x] == gp[x]
        {
          NormalizedAlike(m[k], names, fp, gp);
        }
        if forall x :: Mentions(v, x) ==> x in names && fp[x] == gp[x] { ShapeBuilds(a, b, EXACT); }
      case _ =>
    }
  }

  lemma MarkersDiffer(f: string, g: string)
    ensures Map(map["__fp__" := Leaf(Str(f))]) == Map(map["__fp__" := Leaf(Str(g))]) <==> f == g
  {
    var m, n := map["__fp__" := Leaf(Str(f))], map["__fp__" := Leaf(Str(g))];
    assert m["__fp__"] == Leaf(Str(f)) && n["__fp__"] == Leaf(Str(g));
  }

  // A fingerprint string is unchanged by round r + 1 exactly when no chain of r references starts
  // there: on a reference cycle the strings change for ever, and only the partition settles.
  lemma {:induction false} StringSettlesIffNoPath(s: Schemas, r: nat, x: string)
    requires UnmarkedSchemas(s) && NoCollisionEver(s, r + 1) && x in s
    ensures x in Rounds(s, r) && x in Rounds(s, r + 1)
    ensures Rounds(s, r + 1)[x] == Rounds(s, r)[x] <==> !RefPath(s, x, r)
  {
    hide Fingerprint, Rounds, IsRef, HasRefString, UnmarkedSchemas, Mentions, NoCollisionEver, RefPath;
    RoundsDomain(s, r);
    PathStep(s, x, r);
    RoundsDomain(s, r + 1);
    if r == 0 {
      FirstRoundChanges(s, x);
    } else {
      NoCollisionBefore(s, r);
      RoundsDomain(s, r - 1);
      forall y | y in s ensures Rounds(s, r)[y] == Rounds(s, r - 1)[y] <==> !RefPath(s, y, r - 1) {
        StringSettlesIffNoPath(s, r - 1, y);
      }
      SettledOneLevel(s, r, x);
    }
  }

  lemma PathStep(s: Schemas, x: string, r: nat)
    requires x in s
    ensures RefPath(s, x, r) <==> r == 0 || exists y :: y in s && Mentions(s[x], y) && RefPath(s, y, r - 1)
  {
    hide Mentions;
  }

  lemma NoCollisionBefore(s: Schemas, r: nat)
    requires NoCollisionEver(s, r + 1)
    ensures NoCollisionEver(s, r)
  {
    hide Fingerprint, Text, Rounds;
  }

  lemma FirstRoundChanges(s: Schemas, x: string)
    requires x in s
    ensures x in Rounds(s, 1) && x in Rounds(s, 0) && Rounds(s, 1)[x] != Rounds(s, 0)[x]
  {
    HashIsEightHexDigits(Text(s[x], Rounds(s, 0)));
  }

  lemma SettledOneLevel(s: Schemas, r: nat, x: string)
    requires UnmarkedSchemas(s) && NoCollisionEver(s, r + 1) && x in s && r > 0
    requires Rounds(s, r).Keys == s.Keys && Rounds(s, r - 1).Keys == s.Keys && Rounds(s, r + 1).Keys == s.Keys
    ensures Rounds(s, r + 1)[x] == Rounds(s, r)[x] <==>
            forall y :: y in s && Mentions(s[x], y) ==> Rounds(s, r)[y] == Rounds(s, r - 1)[y]
  {
    hide IsRef, HasRefString, Normalize, Mentions, Shape, CanonicalJSON, Hash;
    var fp, gp := Rounds(s, r), Rounds(s, r - 1);
    BodyClosed(s, x);
    NormalizeWellFormed(s[x], s.Keys, fp);
    NormalizeWellFormed(s[x], s.Keys, gp);
    CanonicalInjective(Normalize(s[x], fp), Normalize(s[x], gp));
    NormalizedAlike(s[x], s.Keys, fp, gp);
    MentionsClosed(s[x], s.Keys);
    assert Rounds(s, r + 1)[x] == Fingerprint(s[x], fp);
    assert Rounds(s, r)[x] == Fingerprint(s[x], gp);
  }

  // ---------- the round bound is tight ----------

  function ChainName(i: nat): string {
    "Link__schema" + Numeral(i, 10)
  }

  function Link(next: string): Json {
    Obj(["items"], map["items" := MkRef(next)])
  }

  const END := Obj([], map[])

  /** Schemas i, .., n - 1 of a chain: each one's items refer to the next, and the last is empty. */
  function Chain(i: nat, n: nat): Schemas
    requires i <= n
    decreases n - i
  {
    if i == n then map[]
    else Chain(i + 1, n)[ChainName(i) := if i + 1 < n then Link(ChainName(i + 1)) else END]
  }

  lemma ChainNameInjective(i: nat, j: nat)
    requires ChainName(i) == ChainName(j)
    ensures i == j
  {
    var p := "Link__schema";
    assert ChainName(i)[|p|..] == Numeral(i, 10) && ChainName(j)[|p|..] == Numeral(j, 10);
    NumeralInjective(i, j, 10);
  }

  ghost predicate IsLink(i: nat, n: nat, v: Json)
  {
    v == if i + 1 < n then Link(ChainName(i + 1)) else END
  }

  lemma {:induction false} ChainAt(i: nat, n: nat, j: nat)
    requires i <= j < n
    ensures ChainName(j) in Chain(i, n) && IsLink(j, n, Chain(i, n)[ChainName(j)])
    decreases n - i
  {
    hide ChainName, Link;
    if i < j {
      ChainAt(i + 1, n, j);
      if ChainName(j) == ChainName(i) { ChainNameInjective(j, i); }
    }
  }

  lemma {:induction false} ChainOnly(i: nat, n: nat, x: string) returns (j: nat)
    requires i <= n && x in Chain(i, n)
    ensures i <= j < n && x == ChainName(j)
    decreases n - i
  {
    hide ChainName, Link;
    if x == ChainName(i) { j := i; } else { j := ChainOnly(i + 1, n, x); }
  }

  lemma {:induction false} ChainSize(i: nat, n: nat)
    requires i <= n
    ensures |Chain(i, n)| == n - i
    decreases n - i
  {
    hide ChainName, Link;
    if i < n {
      ChainSize(i + 1, n);
      if ChainName(i) in Chain(i + 1, n) {
        var j := ChainOnly(i + 1, n, ChainName(i));
        ChainNameInjective(j, i);
        assert false;
      }
      assert Chain(i, n).Keys == Chain(i + 1, n).Keys + {ChainName(i)};
    }
  }

  lemma LinkIsBody(next: string, names: set<string>)
    requires next in names
    ensures Body(Link(next), names) && Unmarked(Link(next)) && !IsRef(Link(next))
  {
    var v := Link(next);
    assert v.keys == ["items"] && Elems(v.keys) == {"items"} == v.at.Keys;
    assert "$ref" != "items" && "__fp__" != "items" && "__fp__" != "$ref";
    assert Unmarked(MkRef(next));
    assert Closed(MkRef(next), names);
    assert !HasRefString(v);
  }

  lemma ChainIsDocument(n: nat)
    ensures UnmarkedSchemas(Chain(0, n))
  {
    hide ChainName, Link, Chain, IsRef, HasRefString;
    var s := Chain(0, n);
    forall x | x in s ensures Body(s[x], s.Keys) && Unmarked(s[x]) {
      var j := ChainOnly(0, n, x);
      ChainAt(0, n, j);
      if j + 1 < n {
        ChainAt(0, n, j + 1);
        LinkIsBody(ChainName(j + 1), s.Keys);
      } else {
        EndIsBody(s.Keys);
      }
    }
  }

  lemma EndIsBody(names: set<string>)
    ensures Body(END, names) && Unmarked(END)
  {}

  // r rounds cannot tell apart two links that are both at least r links from the end.
  lemma {:induction false} ChainStaysTogether(n: nat, r: nat, i: nat, j: nat)
    requires i + r < n && j + r < n
    ensures ChainName(i) in Chain(0, n) && ChainName(j) in Chain(0, n)
    ensures SameClass(Chain(0, n), r, ChainName(i), ChainName(j))
    decreases r
  {
    hide ChainName, Chain, UnmarkedSchemas, SameClass, Rounds, Link, Match;
    var s := Chain(0, n);
    ChainAt(0, n, i);
    ChainAt(0, n, j);
    ChainIsDocument(n);
    if r == 0 {
      StartsTogether(s, ChainName(i), ChainName(j));
    } else {
      ChainStaysTogether(n, r - 1, i + 1, j + 1);
      LinksMatch(s, r - 1, ChainName(i + 1), ChainName(j + 1));
      MatchedTogether(s, r - 1, ChainName(i), ChainName(j));
    }
  }

  lemma LinksMatch(s: Schemas, r: nat, x: string, y: string)
    requires x in s && y in s && SameClass(s, r, x, y)
    ensures Match(Link(x), Link(y), Rounds(s, r))
  {
    var v, w := Link(x), Link(y);
    assert "$ref" != "items";
    assert !IsRef(v) && !IsRef(w);
    assert Match(MkRef(x), MkRef(y), Rounds(s, r));
    assert v.at.Keys == {"items"} == w.at.Keys;
  }

  lemma {:induction false} ChainMeansDepth(n: nat, i: nat, j: nat)
    requires i < j < n
    ensures ChainName(i) in Chain(0, n) && ChainName(j) in Chain(0, n)
    ensures var s := Chain(0, n);
      Unfold(s, SchemaLens({}), s[ChainName(i)], n - j) != Unfold(s, SchemaLens({}), s[ChainName(j)], n - j)
    decreases n - j
  {
    hide ChainName, Chain, RefClosed, Unfold, Link;
    var s := Chain(0, n);
    ChainAt(0, n, i);
    ChainAt(0, n, j);
    ChainAt(0, n, i + 1);
    ChainIsDocument(n);
    LinkUnfolds(s, ChainName(i + 1), n - j);
    if j + 1 < n {
      ChainMeansDepth(n, i + 1, j + 1);
      LinkUnfolds(s, ChainName(j + 1), n - j);
    } else {
      EndUnfolds(s, n - j);
    }
  }

  lemma LinkUnfolds(s: Schemas, x: string, k: nat)
    requires RefClosed(s) && x in s && k > 0
    ensures Unfold(s, SchemaLens({}), Link(x), k).Map? && "items" in Unfold(s, SchemaLens({}), Link(x), k).at
    ensures Unfold(s, SchemaLens({}), Link(x), k).at["items"] == Unfold(s, SchemaLens({}), s[x], k - 1)
  {
    hide Body;
    BodyClosed(s, x);
    assert !IsRef(Link(x)) by { assert "$ref" != "items"; }
    UnfoldRef(s, SchemaLens({}), MkRef(x), k - 1);
  }

  lemma EndUnfolds(s: Schemas, k: nat)
    requires k > 0
    ensures Unfold(s, SchemaLens({}), END, k) == Map(map[])
  {
    assert !IsRef(END);
  }

  // One round fewer than |names| - 1 is not enough, for any number of names: the two first links of
  // a chain still share a fingerprint, and mean different things.
  lemma RoundBoundIsTight(n: nat)
    requires n >= 2
    ensures var s := Chain(0, n);
      && UnmarkedSchemas(s) && |s| == n
      && ChainName(0) in s && ChainName(1) in s
      && SameClass(s, n - 2, ChainName(0), ChainName(1))
      && !SameMeaning(s, s[ChainName(0)], s, s[ChainName(1)], SchemaLens({}))
  {
    hide ChainName, Chain, Unfold, SameClass, UnmarkedSchemas;
    ChainSize(0, n);
    ChainAt(0, n, 0);
    ChainAt(0, n, 1);
    ChainIsDocument(n);
    ChainStaysTogether(n, n - 2, 0, 1);
    ChainMeansDepth(n, 0, 1);
  }
}
