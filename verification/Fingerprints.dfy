/** Structural fingerprints: partition refinement over the reference graph of a document. */
module Fingerprints {
  import opened Strings
  import opened Json
  import opened Documents
  import opened Fnv

  type Prints = map<string, string>

  /** What a reference is replaced by before printing: the fingerprint of its target. */
  function Marker(digest: string): Json {
    Obj(["__fp__"], map["__fp__" := Str(digest)])
  }

  function Markers(fp: Prints): map<string, Json> {
    map n | n in fp :: Marker(fp[n])
  }

  function Normalize(v: Json, fp: Prints): Json {
    Subst(v, Markers(fp))
  }

  function Text(v: Json, fp: Prints): string {
    CanonicalJSON(Normalize(v, fp))
  }

  /** computeStructuralFingerprint */
  function Fingerprint(v: Json, fp: Prints): string {
    Hash(Text(v, fp))
  }

  function Round(s: Schemas, fp: Prints): Prints {
    map n | n in s :: Fingerprint(s[n], fp)
  }

  /** The fingerprints after r rounds of refinement. */
  function Rounds(s: Schemas, r: nat): Prints {
    if r == 0 then map n | n in s :: "" else Round(s, Rounds(s, r - 1))
  }

  const MAX_ROUNDS := 100

  /** One round: every fingerprint anew. */
  method Recompute(names: seq<string>, s: Schemas, fp: Prints) returns (next: Prints)
    requires Elems(names) == s.Keys
    ensures next == map n | n in s :: Fingerprint(s[n], fp)
  {
    hide Fingerprint;
    next := map[];
    for i := 0 to |names|
      invariant next.Keys == set j | 0 <= j < i :: names[j]
      invariant forall n :: n in next ==> n in s && next[n] == Fingerprint(s[n], fp)
    {
      assert names[i] in Elems(names);
      next := next[names[i] := Fingerprint(s[names[i]], fp)];
    }
    forall n ensures n in s <==> n in next { assert n in s <==> n in Elems(names); }
  }

  lemma FirstRound(s: Schemas)
    ensures Rounds(s, 0) == map n | n in s :: ""
  {}

  lemma NextRound(s: Schemas, r: nat)
    ensures Rounds(s, r + 1) == map n | n in s :: Fingerprint(s[n], Rounds(s, r))
  {
    hide Fingerprint;
  }

  lemma Listed(names: seq<string>, s: Schemas, i: nat)
    requires Elems(names) == s.Keys && i < |names|
    ensures names[i] in s
  {
    assert names[i] in Elems(names);
  }

  lemma NothingChanged(names: seq<string>, s: Schemas, fp: Prints, next: Prints)
    requires Elems(names) == s.Keys == fp.Keys == next.Keys
    requires forall j :: 0 <= j < |names| ==> names[j] in s && next[names[j]] == fp[names[j]]
    ensures next == fp
  {
    forall n | n in s ensures next[n] == fp[n] {
      assert n in Elems(names);
      var j :| 0 <= j < |names| && names[j] == n;
    }
  }

  /** The refinement loop of canonicalizeRecursiveSchemas. */
  method Refine(names: seq<string>, s: Schemas) returns (fp: Prints)
    requires Elems(names) == s.Keys
    ensures exists r :: 0 <= r <= MAX_ROUNDS && fp == Rounds(s, r) && (r == MAX_ROUNDS || Rounds(s, r + 1) == fp)
  {
    hide Fingerprint, Rounds, Elems;
    fp := map n | n in s :: "";
    var iter := 0;
    FirstRound(s);
    while iter < MAX_ROUNDS
      invariant 0 <= iter <= MAX_ROUNDS && fp == Rounds(s, iter) && fp.Keys == s.Keys
    {
      var next := Recompute(names, s, fp);
      NextRound(s, iter);
      var changed := false;
      for i := 0 to |names|
        invariant !changed ==> forall j :: 0 <= j < i ==> names[j] in s && next[names[j]] == fp[names[j]]
        invariant changed ==> next != fp
      {
        Listed(names, s, i);
        if next[names[i]] != fp[names[i]] {
          changed := true;
          break;
        }
      }
      if !changed {
        NothingChanged(names, s, fp, next);
        assert Rounds(s, iter + 1) == fp;
        return;
      }
      fp := next;
      iter := iter + 1;
    }
  }

  // Every fingerprint is eight hexadecimal digits, however long the schemas' texts are and whatever the round, but
  // for the first one, in which all are empty.
  lemma FingerprintsAreDigests(s: Schemas, r: nat, n: string)
    requires n in s
    ensures n in Rounds(s, 0) && Rounds(s, 0)[n] == ""
    ensures n in Rounds(s, r + 1) && |Rounds(s, r + 1)[n]| == 8 && forall c :: c in Rounds(s, r + 1)[n] ==> c in DIGITS
  {
    FirstRound(s);
    NextRound(s, r);
    hide Rounds, Text, Hash;
    HashIsEightHexDigits(Text(s[n], Rounds(s, r)));
  }

  // ---------- what a fingerprint sees ----------

  // No object but a reference uses the key that marks a replaced reference.
  ghost predicate Unmarked(v: Json) {
    match v
    case Arr(xs) => forall i :: 0 <= i < |xs| ==> Unmarked(xs[i])
    case Obj(_, m) => IsRef(v) || ("__fp__" !in m && forall k :: k in m ==> Unmarked(m[k]))
    case _ => true
  }

  ghost predicate UnmarkedSchemas(s: Schemas) {
    RefClosed(s) && forall n :: n in s ==> Unmarked(s[n])
  }

  /** Equal up to key order, when references count as equal if fp prints their targets alike. */
  ghost predicate Match(v: Json, w: Json, fp: Prints) {
    match v
    case Arr(xs) => w.Arr? && |xs| == |w.items| && forall i :: 0 <= i < |xs| ==> Match(xs[i], w.items[i], fp)
    case Obj(_, m) =>
      if IsRef(v) then IsRef(w) && (Target(v) in fp && Target(w) in fp ==> fp[Target(v)] == fp[Target(w)])
      else w.Obj? && !IsRef(w) && m.Keys == w.at.Keys && forall k :: k in m ==> Match(m[k], w.at[k], fp)
    case _ => v == w
  }

  ghost predicate Alike(v: Json, w: Json, fp: Prints) {
    Shape(Normalize(v, fp), EXACT) == Shape(Normalize(w, fp), EXACT)
  }

  lemma NormalizeRef(v: Json, fp: Prints)
    requires IsRef(v) && Target(v) in fp
    ensures Normalize(v, fp) == Marker(fp[Target(v)])
    ensures Shape(Normalize(v, fp), EXACT) == Map(map["__fp__" := Leaf(Str(fp[Target(v)]))])
  {
    MarkerShape(fp[Target(v)]);
  }

  lemma MarkerShape(digest: string)
    ensures Shape(Marker(digest), EXACT) == Map(map["__fp__" := Leaf(Str(digest))])
  {
    hide KeywordView;
  }

  lemma NormalizeNode(v: Json, fp: Prints)
    requires !HasRefString(v)
    ensures v.Arr? ==> Normalize(v, fp).Arr? && |Normalize(v, fp).items| == |v.items|
    ensures v.Arr? ==> forall i :: 0 <= i < |v.items| ==> Normalize(v, fp).items[i] == Normalize(v.items[i], fp)
    ensures v.Obj? ==> Normalize(v, fp).Obj? && Normalize(v, fp).at.Keys == v.at.Keys
    ensures v.Obj? ==> forall k :: k in v.at ==> Normalize(v, fp).at[k] == Normalize(v.at[k], fp)
    ensures !v.Arr? && !v.Obj? ==> Normalize(v, fp) == v
  {
    SubstNode(v, Markers(fp));
  }

  lemma MarkerIsClosed(digest: string)
    ensures WellFormed(Marker(digest)) && Closed(Marker(digest), {}) && BareIfRef(Marker(digest))
  {
    var m := Marker(digest);
    assert Elems(["__fp__"]) == {"__fp__"};
    assert m.at.Keys == {"__fp__"} && "__fp__" != "$ref" && "__fp__" != "properties";
    assert !HasRefString(m);
  }

  lemma NormalizeWellFormed(v: Json, names: set<string>, fp: Prints)
    requires WellFormed(v) && Closed(v, names) && names <= fp.Keys
    ensures WellFormed(Normalize(v, fp))
  {
    var f := Markers(fp);
    forall n | n in f ensures WellFormed(f[n]) && Closed(f[n], {}) && !f[n].Str? && BareIfRef(f[n]) {
      MarkerIsClosed(fp[n]);
      assert f[n] == Marker(fp[n]);
    }
    hide Markers, IsRef, HasRefString, BareIfRef;
    SubstClosed(v, f, names, {});
  }

  // A fingerprint sees the normalized value up to key order, and nothing else.
  lemma {:induction false} AlikeIsMatch(v: Json, w: Json, names: set<string>, fp: Prints)
    requires Closed(v, names) && Closed(w, names) && fp.Keys == names
    requires Unmarked(v) && Unmarked(w)
    ensures Alike(v, w, fp) <==> Match(v, w, fp)
  {
    hide IsRef, HasRefString, Target, Normalize, Marker, Shape, BareProperties, Kept, Below, Each, EXACT;
    if IsRef(v) || IsRef(w) {
      AlikeRef(v, w, names, fp);
    } else {
      ClosedNoRef(v, names);
      ClosedNoRef(w, names);
      KeptExactly();
      NormalizeNode(v, fp);
      NormalizeNode(w, fp);
      var a, b := Normalize(v, fp), Normalize(w, fp);
      if Alike(v, w, fp) {
        ShapeInverts(a, b, EXACT);
      }
      match v
      case Arr(xs) =>
        if w.Arr? && |w.items| == |xs| {
          forall i | 0 <= i < |xs| ensures Alike(xs[i], w.items[i], fp) <==> Match(xs[i], w.items[i], fp) {
            AlikeIsMatch(xs[i], w.items[i], names, fp);
          }
          if Match(v, w, fp) { ShapeBuilds(a, b, EXACT); }
        }
      case Obj(_, m) =>
        if w.Obj? && w.at.Keys == m.Keys {
          forall k | k in m ensures Alike(m[k], w.at[k], fp) <==> Match(m[k], w.at[k], fp) {
            AlikeIsMatch(m[k], w.at[k], names, fp);
          }
          if Match(v, w, fp) { ShapeBuilds(a, b, EXACT); }
        }
      case _ =>
    }
  }

  lemma KeptExactly()
    ensures Each(EXACT) == EXACT && forall keys :: Kept(keys, EXACT) == keys && forall k :: Below(EXACT, k) == EXACT
  {
    forall keys: set<string> ensures Kept(keys, EXACT) == keys { KeptExact(keys); }
  }

  lemma AlikeRef(v: Json, w: Json, names: set<string>, fp: Prints)
    requires Closed(v, names) && Closed(w, names) && fp.Keys == names
    requires Unmarked(v) && Unmarked(w) && (IsRef(v) || IsRef(w))
    ensures Alike(v, w, fp) <==> Match(v, w, fp)
  {
    if IsRef(v) { NormalizeRef(v, fp); } else { NormalizeUnmarked(v, names, fp); }
    if IsRef(w) { NormalizeRef(w, fp); } else { NormalizeUnmarked(w, names, fp); }
    if IsRef(v) && IsRef(w) && Alike(v, w, fp) {
      var m := Shape(Normalize(v, fp), EXACT).at;
      assert m["__fp__"] == Leaf(Str(fp[Target(v)])) == Leaf(Str(fp[Target(w)]));
    }
  }

  lemma NormalizeUnmarked(v: Json, names: set<string>, fp: Prints)
    requires Closed(v, names) && Unmarked(v) && !IsRef(v)
    ensures forall t :: Shape(Normalize(v, fp), EXACT) != Map(map["__fp__" := t])
  {
    hide IsRef, HasRefString;
    NormalizeNode(v, fp);
    var a := Shape(Normalize(v, fp), EXACT);
    if a.Map? {
      assert "__fp__" !in a.at;
      forall t ensures a != Map(map["__fp__" := t]) {
        assert "__fp__" in map["__fp__" := t];
      }
    }
  }

  // ---------- refinement ----------

  // The 32-bit hash kept apart the texts it was given in this round.
  ghost predicate NoCollision(s: Schemas, fp: Prints) {
    forall x, y :: x in s && y in s && Fingerprint(s[x], fp) == Fingerprint(s[y], fp)
      ==> Text(s[x], fp) == Text(s[y], fp)
  }

  ghost predicate CollisionFree(s: Schemas, rounds: nat) {
    forall i: nat :: i < rounds ==> NoCollision(s, Rounds(s, i))
  }

  /** Names x and y are in one class after r rounds. */
  ghost predicate SameClass(s: Schemas, r: nat, x: string, y: string)
    requires x in s && y in s
  {
    Rounds(s, r)[x] == Rounds(s, r)[y]
  }

  lemma {:induction false} RoundsDomain(s: Schemas, r: nat)
    ensures Rounds(s, r).Keys == s.Keys
  {
    if r > 0 { RoundsDomain(s, r - 1); }
  }

  lemma StartsTogether(s: Schemas, x: string, y: string)
    requires x in s && y in s
    ensures SameClass(s, 0, x, y)
    ensures Classes(s, 0) >= 1
  {
    assert Rounds(s, 0)[x] in Rounds(s, 0).Values;
  }

  // One more round groups exactly the names whose bodies match under the previous grouping.
  lemma RoundIsMatch(s: Schemas, r: nat, x: string, y: string)
    requires UnmarkedSchemas(s) && x in s && y in s && NoCollision(s, Rounds(s, r))
    ensures SameClass(s, r + 1, x, y) <==> Match(s[x], s[y], Rounds(s, r))
  {
    hide Hash, Normalize, Match, IsRef, HasRefString;
    var fp := Rounds(s, r);
    RoundsDomain(s, r);
    NormalizeWellFormed(s[x], s.Keys, fp);
    NormalizeWellFormed(s[y], s.Keys, fp);
    CanonicalInjective(Normalize(s[x], fp), Normalize(s[y], fp));
    AlikeIsMatch(s[x], s[y], s.Keys, fp);
    assert Rounds(s, r + 1)[x] == Fingerprint(s[x], fp);
    assert Rounds(s, r + 1)[y] == Fingerprint(s[y], fp);
  }

  // A coarser grouping of the names matches at least as many bodies.
  lemma {:induction false} MatchCoarser(v: Json, w: Json, names: set<string>, fp: Prints, gp: Prints)
    requires Closed(v, names) && Closed(w, names) && fp.Keys == names && gp.Keys == names
    requires forall x, y :: x in names && y in names && fp[x] == fp[y] ==> gp[x] == gp[y]
    requires Match(v, w, fp)
    ensures Match(v, w, gp)
  {
    hide IsRef, HasRefString, Target;
    match v
    case Arr(xs) =>
      forall i | 0 <= i < |xs| ensures Match(xs[i], w.items[i], gp) {
        MatchCoarser(xs[i], w.items[i], names, fp, gp);
      }
    case Obj(_, m) =>
      if !IsRef(v) {
        forall k | k in m ensures Match(m[k], w.at[k], gp) {
          MatchCoarser(m[k], w.at[k], names, fp, gp);
        }
      }
    case _ =>
  }

  // If grouping i is at least as fine as grouping j, so are the rounds after them.
  lemma NextRoundFollows(s: Schemas, i: nat, j: nat, x: string, y: string)
    requires UnmarkedSchemas(s) && NoCollision(s, Rounds(s, i)) && NoCollision(s, Rounds(s, j))
    requires forall a, b :: a in s && b in s && SameClass(s, i, a, b) ==> SameClass(s, j, a, b)
    requires x in s && y in s && SameClass(s, i + 1, x, y)
    ensures SameClass(s, j + 1, x, y)
  {
    hide Match, IsRef, HasRefString, NoCollision, Rounds;
    RoundIsMatch(s, i, x, y);
    RoundIsMatch(s, j, x, y);
    RoundsDomain(s, i);
    RoundsDomain(s, j);
    forall a, b | a in s && b in s && Rounds(s, i)[a] == Rounds(s, i)[b]
      ensures Rounds(s, j)[a] == Rounds(s, j)[b]
    {
      assert SameClass(s, i, a, b);
    }
    MatchCoarser(s[x], s[y], s.Keys, Rounds(s, i), Rounds(s, j));
  }

  // Each round's partition refines the last.
  lemma {:induction false} Refines(s: Schemas, r: nat, x: string, y: string)
    requires UnmarkedSchemas(s) && CollisionFree(s, r + 1)
    requires x in s && y in s && SameClass(s, r + 1, x, y)
    ensures SameClass(s, r, x, y)
  {
    hide SameClass, UnmarkedSchemas, NoCollision;
    if r == 0 {
      StartsTogether(s, x, y);
    } else {
      forall a, b | a in s && b in s && SameClass(s, r, a, b) ensures SameClass(s, r - 1, a, b) {
        Refines(s, r - 1, a, b);
      }
      NextRoundFollows(s, r, r - 1, x, y);
    }
  }

  /** The partition after r rounds is the partition after r + 1. */
  ghost predicate Stable(s: Schemas, r: nat) {
    forall x, y :: x in s && y in s && SameClass(s, r, x, y) ==> SameClass(s, r + 1, x, y)
  }

  // Unchanged fingerprints mean a stable partition.
  lemma FixpointIsStable(s: Schemas, r: nat)
    requires Rounds(s, r + 1) == Rounds(s, r)
    ensures Stable(s, r)
  {}

  lemma StablePersists(s: Schemas, r: nat)
    requires UnmarkedSchemas(s) && CollisionFree(s, r + 2) && Stable(s, r)
    ensures Stable(s, r + 1)
  {
    hide SameClass, UnmarkedSchemas, NoCollision;
    forall x, y | x in s && y in s && SameClass(s, r + 1, x, y) ensures SameClass(s, r + 2, x, y) {
      NextRoundFollows(s, r, r + 1, x, y);
    }
  }

  // ---------- how many rounds are enough ----------

  lemma {:induction false} FewerValuesThanKeys(m: map<string, string>)
    ensures |m.Values| <= |m.Keys|
    decreases |m.Keys|
  {
    if m.Keys == {} {
      assert m.Values == {};
    } else {
      var k :| k in m.Keys;
      var m' := m - {k};
      assert m'.Keys == m.Keys - {k};
      FewerValuesThanKeys(m');
      forall v | v in m.Values ensures v in m'.Values + {m[k]} {
        var j :| j in m && m[j] == v;
        assert j == k || (j in m' && m'[j] == v);
      }
      SubsetSize(m.Values, m'.Values + {m[k]});
    }
  }

  lemma {:induction false} SubsetSize(a: set<string>, b: set<string>)
    requires a <= b
    ensures |a| <= |b|
  {
    if a != {} {
      var x :| x in a;
      SubsetSize(a - {x}, b - {x});
    }
  }

  lemma FewerValuesWhenShared(m: map<string, string>, k: string, l: string)
    requires k in m && l in m && k != l && m[k] == m[l]
    ensures |m.Values| < |m.Keys|
  {
    var m' := m - {k};
    assert m'.Keys == m.Keys - {k};
    FewerValuesThanKeys(m');
    forall v | v in m.Values ensures v in m'.Values {
      var j :| j in m && m[j] == v;
      var i := if j == k then l else j;
      assert i in m' && m'[i] == v;
    }
    SubsetSize(m.Values, m'.Values);
  }

  ghost function Classes(s: Schemas, r: nat): nat {
    |Rounds(s, r).Values|
  }

  // A round that is not the last one adds a class.
  lemma UnstableSplits(s: Schemas, r: nat)
    requires UnmarkedSchemas(s) && CollisionFree(s, r + 1) && !Stable(s, r)
    ensures Classes(s, r) < Classes(s, r + 1)
  {
    hide Fingerprint, IsRef, HasRefString;
    var f, g := Rounds(s, r), Rounds(s, r + 1);
    RoundsDomain(s, r);
    RoundsDomain(s, r + 1);
    forall x, y | x in s && y in s && g[x] == g[y] ensures f[x] == f[y] { Refines(s, r, x, y); }
    var x, y :| x in s && y in s && SameClass(s, r, x, y) && !SameClass(s, r + 1, x, y);
    CoarserHasFewer(f, g, x, y);
  }

  lemma CoarserHasFewer(f: Prints, g: Prints, x: string, y: string)
    requires f.Keys == g.Keys && x in f && y in f && f[x] == f[y] && g[x] != g[y]
    requires forall a, b :: a in g && b in g && g[a] == g[b] ==> f[a] == f[b]
    ensures |f.Values| < |g.Values|
  {
    var h := map v | v in g.Values :: var a :| a in g && g[a] == v; f[a];
    assert h.Keys == g.Values;
    forall a | a in g ensures g[a] in h && h[g[a]] == f[a] { assert g[a] in g.Values; }
    forall v | v in f.Values ensures v in h.Values {
      var a :| a in f && f[a] == v;
      assert h[g[a]] == v;
    }
    SubsetSize(f.Values, h.Values);
    FewerValuesWhenShared(h, g[x], g[y]);
  }

  lemma {:induction false} UnstableHasClasses(s: Schemas, r: nat)
    requires UnmarkedSchemas(s) && CollisionFree(s, r + 1) && !Stable(s, r)
    ensures Classes(s, r) > r
  {
    hide Fingerprint, IsRef, HasRefString, Rounds, Classes, UnmarkedSchemas, NoCollision, SameClass;
    if r == 0 {
      var x, y :| x in s && y in s && SameClass(s, 0, x, y) && !SameClass(s, 1, x, y);
      StartsTogether(s, x, y);
    } else {
      if Stable(s, r - 1) {
        StablePersists(s, r - 1);
        assert false;
      }
      UnstableHasClasses(s, r - 1);
      UnstableSplits(s, r - 1);
    }
  }

  // |names| - 1 rounds are enough, whatever the references do.
  lemma StableByCount(s: Schemas, r: nat)
    requires UnmarkedSchemas(s) && CollisionFree(s, r + 1) && |s| <= r + 1
    ensures Stable(s, r)
  {
    RoundsDomain(s, r + 1);
    FewerValuesThanKeys(Rounds(s, r + 1));
    assert Classes(s, r + 1) <= |s|;
    if !Stable(s, r) {
      UnstableHasClasses(s, r);
      UnstableSplits(s, r);
      assert false;
    }
  }
}
