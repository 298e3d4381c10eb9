/** Documents whose schemas canonicalization merges although they mean different things. */
module Limits {
  import opened Strings
  import opened Json
  import opened Documents
  import opened Fingerprints
  import opened Naming
  import opened Equivalence
  import opened Canonicalize

  // ---------- which names are merged ----------

  // Two names of one class of extracted names get one name.
  lemma ClassIsMerged(names: seq<string>, fp: Prints, rename: map<string, string>, x: string, y: string)
    requires NoDup(names) && Elems(names) == fp.Keys && RenamesClasses(names, fp, rename)
    requires x in fp && y in fp && x != y && fp[x] == fp[y]
    requires forall z :: z in fp && fp[z] == fp[x] ==> IsExtracted(z)
    ensures x in rename && y in rename && rename[x] == rename[y]
  {
    hide IsExtracted;
    var group := Members(names, fp, fp[x]);
    MembersAre(names, fp, fp[x]);
    assert x in names && y in names by { assert x in Elems(names) && y in Elems(names); }
    TwoMembers(group, x, y);
    assert forall i :: 0 <= i < |group| ==> group[i] in group;
  }

  lemma TwoMembers(s: seq<string>, x: string, y: string)
    requires x in s && y in s && x != y
    ensures |s| > 1
  {
    var i :| 0 <= i < |s| && s[i] == x;
    var j :| 0 <= j < |s| && s[j] == y;
  }

  // If they mean different things, not every schema keeps its meaning.
  lemma MergedLosesMeaning(d: Document, r: nat, rename: map<string, string>, sample: map<string, string>, out: Document,
                           x: string, y: string, drop: set<string>)
    requires ClosedDocument(d) && x in d.schemas && y in d.schemas && x != y && SameClass(d.schemas, r, x, y)
    requires forall z :: z in d.schemas ==> IsExtracted(z)
    requires !SameMeaning(d.schemas, d.schemas[x], d.schemas, d.schemas[y], SchemaLens(drop))
    requires RenamesClasses(d.names, Rounds(d.schemas, r), rename) && Sampled(Rounds(d.schemas, r), rename, sample)
    requires Rebuilt(d, rename, sample, out)
    ensures Renamed(x, rename) == Renamed(y, rename)
    ensures !(forall z :: z in d.schemas ==> Keeps(d, out, rename, z, drop))
  {
    hide *;
    RoundsDomain(d.schemas, r);
    Together(d, r, x, y);
    ValidNames(d);
    ClassIsMerged(d.names, Rounds(d.schemas, r), rename, x, y);
    RenamedTo(rename, x, y);
    CanonicalizeKeepsMeaningIff(d, Rounds(d.schemas, r), rename, sample, out, drop);
    NotAlike(d.schemas, rename, x, y, drop);
  }

  lemma Together(d: Document, r: nat, x: string, y: string)
    requires x in d.schemas && y in d.schemas && SameClass(d.schemas, r, x, y)
    requires Rounds(d.schemas, r).Keys == d.schemas.Keys
    ensures Rounds(d.schemas, r)[x] == Rounds(d.schemas, r)[y]
  {
    hide Rounds;
  }

  lemma ValidNames(d: Document)
    requires ClosedDocument(d)
    ensures NoDup(d.names) && Elems(d.names) == d.schemas.Keys
  {}

  lemma RenamedTo(rename: map<string, string>, x: string, y: string)
    requires x in rename && y in rename && rename[x] == rename[y]
    ensures Renamed(x, rename) == Renamed(y, rename)
  {}

  lemma NotAlike(s: Schemas, rename: map<string, string>, x: string, y: string, drop: set<string>)
    requires x in s && y in s && Renamed(x, rename) == Renamed(y, rename)
    requires !SameMeaning(s, s[x], s, s[y], SchemaLens(drop))
    ensures !MergedMeanAlike(s, rename, drop)
  {
    hide SameMeaning, Renamed;
  }

  // ---------- a chain longer than the round cap ----------

  lemma {:induction false} NumeralDigits(n: nat)
    ensures forall i :: 0 <= i < |Numeral(n, 10)| ==> IsDigit(Numeral(n, 10)[i])
    decreases n
  {
    assert forall i :: 0 <= i < 10 ==> IsDigit(DIGITS[i]);
    if n >= 10 { NumeralDigits(n / 10); }
  }

  lemma NumberedIsExtracted(p: string, n: nat)
    ensures IsExtracted(p + "__schema" + Numeral(n, 10))
  {
    NumeralDigits(n);
    NumberSuffixIs(p + "__schema" + Numeral(n, 10), p, Numeral(n, 10));
  }

  lemma ChainIsExtracted(n: nat, x: string)
    requires x in Chain(0, n)
    ensures IsExtracted(x)
  {
    hide IsExtracted, Chain;
    var j := ChainOnly(0, n, x);
    NumberedIsExtracted("Link", j);
    assert "Link" + "__schema" == "Link__schema";
  }

  // A chain of 102 links or more: whenever the loop stops, after 100 rounds or before, the first two
  // links are still in one class, and merging them changes the meaning of some schema.
  lemma LongChainLosesMeaning(d: Document, r: nat, rename: map<string, string>, sample: map<string, string>,
                              out: Document, n: nat)
    requires ClosedDocument(d) && d.schemas == Chain(0, n) && n >= MAX_ROUNDS + 2 && r <= MAX_ROUNDS
    requires RenamesClasses(d.names, Rounds(d.schemas, r), rename) && Sampled(Rounds(d.schemas, r), rename, sample)
    requires Rebuilt(d, rename, sample, out)
    ensures UnmarkedSchemas(d.schemas) && ChainName(0) in d.schemas && ChainName(1) in d.schemas
    ensures Renamed(ChainName(0), rename) == Renamed(ChainName(1), rename)
    ensures !(forall z :: z in d.schemas ==> Keeps(d, out, rename, z, {}))
  {
    hide *;
    ChainIsDocument(n);
    ChainStaysTogether(n, r, 0, 1) by { MaxIs100(); }
    FirstLinksDiffer(n);
    forall z | z in d.schemas ensures IsExtracted(z) { ChainIsExtracted(n, z); }
    ChainNamesDiffer();
    MergedLosesMeaning(d, r, rename, sample, out, ChainName(0), ChainName(1), {});
  }

  lemma MaxIs100()
    ensures MAX_ROUNDS == 100
  {}

  lemma ChainNamesDiffer()
    ensures ChainName(0) != ChainName(1)
  {
    if ChainName(0) == ChainName(1) { ChainNameInjective(0, 1); }
  }

  lemma FirstLinksDiffer(n: nat)
    requires n >= 2
    ensures ChainName(0) in Chain(0, n) && ChainName(1) in Chain(0, n)
    ensures !SameMeaning(Chain(0, n), Chain(0, n)[ChainName(0)], Chain(0, n), Chain(0, n)[ChainName(1)], SchemaLens({}))
  {
    hide ChainName, Chain, Unfold;
    ChainMeansDepth(n, 0, 1);
  }

  // ---------- siblings of references ----------

  const LEFT := "Left" + "__schema" + Numeral(0, 10)
  const RIGHT := "Right" + "__schema" + Numeral(0, 10)
  const GOAL := "Goal" + "__schema" + Numeral(1, 10)

  /** A reference with the sibling `minLength`. */
  function Limited(n: string): Json {
    Obj(["$ref", "minLength"], map["$ref" := Str(PREFIX + n), "minLength" := Num("1")])
  }

  /** Two schemas that differ only in what stands beside a reference. */
  function SiblingSchemas(): Schemas {
    map[LEFT := Obj(["items"], map["items" := Limited(GOAL)]), RIGHT := Link(GOAL), GOAL := END]
  }

  lemma LimitedIsRef(n: string)
    ensures IsRef(Limited(n)) && Target(Limited(n)) == n && WellFormed(Limited(n))
    ensures Limited(n).at.Keys == {"$ref", "minLength"}
    ensures Besides(Limited(n), SchemaLens({})) == {"minLength"}
  {
    var v := Limited(n);
    assert Elems(v.keys) == {"$ref", "minLength"};
    assert v.at["$ref"].s[|PREFIX|..] == n;
    assert v.at.Keys - {"$ref"} == {"minLength"};
    assert Kept({"minLength"}, SchemaLens({})) == {"minLength"};
  }

  lemma LeftIsBody(names: set<string>)
    requires GOAL in names
    ensures Body(Obj(["items"], map["items" := Limited(GOAL)]), names)
    ensures Unmarked(Obj(["items"], map["items" := Limited(GOAL)]))
  {
    hide GOAL;
    LimitedIsRef(GOAL);
    hide Limited, IsRef;
    var v := Obj(["items"], map["items" := Limited(GOAL)]);
    assert Elems(v.keys) == {"items"} == v.at.Keys;
    assert "$ref" != "items" && "__fp__" != "items" && "properties" != "items";
    LimitedIsClosed(GOAL, names);
    assert !HasRefString(v) && !IsRef(v) by { PlainKey(v); }
    assert Unmarked(Limited(GOAL));
  }

  lemma PlainKey(v: Json)
    requires v.Obj? && v.at.Keys == {"items"}
    ensures !HasRefString(v) && !IsRef(v) && BareProperties(v)
  {
    assert "$ref" != "items" && "properties" != "items";
  }

  lemma LimitedIsClosed(n: string, names: set<string>)
    requires n in names
    ensures Closed(Limited(n), names) && HasRefString(Limited(n))
  {
    LimitedIsRef(n);
    var v := Limited(n);
    assert v.at["$ref"].Str? && v.at["minLength"].Num?;
    hide Limited, IsRef, Target;
  }

  lemma SiblingNames()
    ensures LEFT != RIGHT && LEFT != GOAL && RIGHT != GOAL
    ensures IsExtracted(LEFT) && IsExtracted(RIGHT) && IsExtracted(GOAL)
  {
    hide IsExtracted, Numeral;
    NumberedIsExtracted("Left", 0);
    NumberedIsExtracted("Right", 0);
    NumberedIsExtracted("Goal", 1);
    assert LEFT[0] == 'L' && RIGHT[0] == 'R' && GOAL[0] == 'G';
  }

  lemma SiblingSchemasClosed()
    ensures UnmarkedSchemas(SiblingSchemas()) && SiblingSchemas().Keys == {LEFT, RIGHT, GOAL}
    ensures SiblingSchemas()[LEFT] == Obj(["items"], map["items" := Limited(GOAL)])
    ensures SiblingSchemas()[RIGHT] == Link(GOAL) && SiblingSchemas()[GOAL] == END
  {
    SiblingNames();
    hide LEFT, RIGHT, GOAL, IsExtracted, Limited, Link;
    var s := SiblingSchemas();
    LeftIsBody(s.Keys);
    LinkIsBody(GOAL, s.Keys);
    EndIsBody(s.Keys);
    hide Unmarked, IsRef, HasRefString;
    forall n | n in s ensures Body(s[n], s.Keys) && Unmarked(s[n]) {}
  }

  lemma ItemsUnfold(s: Schemas, v: Json)
    requires v.Obj? && v.at.Keys == {"items"}
    ensures var l := SchemaLens({});
      Unfold(s, l, v, 2).Map? && "items" in Unfold(s, l, v, 2).at &&
        Unfold(s, l, v, 2).at["items"] == Unfold(s, l, v.at["items"], 1)
  {
    hide Unfold, IsRef, Below, SchemaLens;
    PlainKey(v);
    ItemsLens();
    var l := SchemaLens({});
    UnfoldObject(s, l, v, 2);
    assert "items" in Kept(v.at.Keys, l) by { NothingDropped("items"); }
  }

  lemma NothingDropped(key: string)
    ensures !Drops(SchemaLens({}), key)
  {}

  lemma SiblingsDiffer(s: Schemas)
    requires s == SiblingSchemas()
    ensures LEFT in s && RIGHT in s && SameButSiblings(s[LEFT], s[RIGHT])
    ensures !SameMeaning(s, s[LEFT], s, s[RIGHT], SchemaLens({}))
  {
    SiblingSchemasClosed();
    LimitedIsRef(GOAL);
    hide *;
    var v, w, l := s[LEFT], s[RIGHT], SchemaLens({});
    LinkParts(GOAL);
    ItemsUnfold(s, v);
    ItemsUnfold(s, w);
    UnfoldBeside(s, l, Limited(GOAL), 1);
    BareUnfolds(s, l);
    SiblingPair(v, w);
    DifferentAt(s, v, w, l, 2);
  }

  lemma DifferentAt(s: Schemas, v: Json, w: Json, l: Lens, k: nat)
    requires Unfold(s, l, v, k) != Unfold(s, l, w, k)
    ensures !SameMeaning(s, v, s, w, l)
  {}

  lemma LinkParts(n: string)
    ensures Link(n).Obj? && Link(n).at.Keys == {"items"} && Link(n).at["items"] == MkRef(n)
  {}

  lemma SiblingPair(v: Json, w: Json)
    requires v.Obj? && w.Obj? && v.at.Keys == {"items"} == w.at.Keys
    requires v.at["items"] == Limited(GOAL) && w.at["items"] == MkRef(GOAL)
    ensures SameButSiblings(v, w)
  {
    PlainKey(v);
    PlainKey(w);
    LimitedIsRef(GOAL);
    hide GOAL, IsRef, Target, Limited;
    assert SameButSiblings(v.at["items"], w.at["items"]);
  }

  lemma ItemsLens()
    ensures Below(SchemaLens({}), "items") == SchemaLens({})
  {}

  lemma BareUnfolds(s: Schemas, l: Lens)
    requires GOAL in s && s[GOAL] == END && l == SchemaLens({})
    ensures !Unfold(s, l, MkRef(GOAL), 1).Beside?
  {
    hide GOAL;
    assert Besides(MkRef(GOAL), l) == {};
    assert !IsRef(END);
    UnfoldRef(s, l, MkRef(GOAL), 1);
    UnfoldIsNode(s, AtBody(l), END, 1);
    hide Unfold;
  }

  // Whatever round the loop stops at, the two schemas are merged, and one of them loses what it says.
  lemma SiblingsAreLost(d: Document, r: nat, rename: map<string, string>, sample: map<string, string>, out: Document)
    requires ClosedDocument(d) && d.schemas == SiblingSchemas()
    requires RenamesClasses(d.names, Rounds(d.schemas, r), rename) && Sampled(Rounds(d.schemas, r), rename, sample)
    requires Rebuilt(d, rename, sample, out)
    ensures LEFT in d.schemas && RIGHT in d.schemas && Renamed(LEFT, rename) == Renamed(RIGHT, rename)
    ensures !(forall z :: z in d.schemas ==> Keeps(d, out, rename, z, {}))
  {
    hide *;
    SiblingSchemasClosed();
    SiblingsDiffer(d.schemas);
    SiblingNames();
    SiblingsDoNotShow(d.schemas, r, LEFT, RIGHT);
    forall z | z in d.schemas ensures IsExtracted(z) {}
    MergedLosesMeaning(d, r, rename, sample, out, LEFT, RIGHT, {});
  }
}
