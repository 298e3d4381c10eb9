/** Merging of extracted schemas that are one node of the schema graph. */
module Canonicalize {
  import opened Strings
  import opened Json
  import opened Documents
  import opened Fingerprints
  import opened Naming
  import Equivalence

  /** The names, in order, whose fingerprint is p. */
  function Members(names: seq<string>, fp: Prints, p: string): seq<string> {
    if names == [] then []
    else if names[0] in fp && fp[names[0]] == p then [names[0]] + Members(names[1..], fp, p)
    else Members(names[1..], fp, p)
  }

  lemma {:induction false} MembersAre(names: seq<string>, fp: Prints, p: string)
    ensures forall x :: x in Members(names, fp, p) <==> x in names && x in fp && fp[x] == p
  {
    if names != [] {
      MembersAre(names[1..], fp, p);
      assert names == [names[0]] + names[1..];
    }
  }

  /** Only groups of several names, all of them extracted ones, are merged. */
  predicate Mergeable(group: seq<string>) {
    |group| > 1 && forall i :: 0 <= i < |group| ==> IsExtracted(group[i])
  }

  /** The base of a group's new name: the common number of its members, or else the fingerprint. */
  ghost predicate IsGroupBase(base: string, group: seq<string>, fingerprint: string) {
    || (forall x :: x in group ==> base == "Schema" + NumberSuffix(x))
    || (base == "Schema_" + fingerprint &&
        exists x, y :: x in group && y in group && NumberSuffix(x) != NumberSuffix(y))
  }

  /** chooseGroupCanonicalName */
  method ChooseGroupCanonicalName(group: seq<string>, fingerprint: string, reserved: set<string>)
    returns (name: string)
    requires group != [] && NoDup(group)
    ensures (forall x :: x in group ==> IsExtracted(x)) ==> IsNameFor(name, group, fingerprint, reserved)
    ensures !(forall x :: x in group ==> IsExtracted(x)) ==> name in group && forall x :: x in group ==> !Less(x, name)
  {
    var sorted := SortKeys(group);
    SortKeysSorts(group);
    assert forall x :: x in sorted <==> x in group by {
      forall x ensures x in sorted <==> x in group { assert x in Elems(sorted) <==> x in Elems(group); }
    }
    assert sorted != [] by { assert group[0] in group; }
    if forall i :: 0 <= i < |sorted| ==> IsExtracted(sorted[i]) {
      var uniform := forall i :: 0 <= i < |sorted| ==> NumberSuffix(sorted[i]) == NumberSuffix(sorted[0]);
      var base := if uniform then "Schema" + NumberSuffix(sorted[0]) else "Schema_" + fingerprint;
      assert IsGroupBase(base, group, fingerprint) by {
        if uniform {
          forall x | x in group ensures base == "Schema" + NumberSuffix(x) {
            var i :| 0 <= i < |sorted| && sorted[i] == x;
          }
        } else {
          var i :| 0 <= i < |sorted| && NumberSuffix(sorted[i]) != NumberSuffix(sorted[0]);
          assert sorted[i] in group && sorted[0] in group;
        }
      }
      name := FreshName(base, "_", reserved);
    } else {
      name := sorted[0];
      forall x | x in group ensures !Less(x, name) {
        var i :| 0 <= i < |sorted| && sorted[i] == x;
        LessTotal(x, name);
      }
    }
  }

  /** c is the first free name for the group. */
  ghost predicate IsNameFor(c: string, group: seq<string>, fingerprint: string, taken: set<string>) {
    exists base :: IsGroupBase(base, group, fingerprint) && FirstFree(c, base, "_", taken)
  }

  /** The new names, in order: each is the first free name for the class of its sample, apart from the names of the
      document and the new names before it, and classes have their turn in the order of their samples. */
  ghost predicate NamedInTurn(names: seq<string>, fp: Prints, sample: map<string, string>, canonicals: seq<string>) {
    && (forall k :: 0 <= k < |canonicals| ==> canonicals[k] in sample && sample[canonicals[k]] in fp)
    && (forall k :: 0 <= k < |canonicals| ==>
      var p := fp[sample[canonicals[k]]];
      IsNameFor(canonicals[k], Members(names, fp, p), p, fp.Keys + Elems(canonicals[..k])))
    && forall j, k :: 0 <= j < k < |canonicals| ==> Less(sample[canonicals[j]], sample[canonicals[k]])
  }

  /** Exactly the names of mergeable classes are renamed, each class to one name of its own. */
  ghost predicate RenamesClasses(names: seq<string>, fp: Prints, rename: map<string, string>) {
    && (forall x :: x in rename <==> x in fp && Mergeable(Members(names, fp, fp[x])))
    && (forall x, y :: x in rename && y in rename ==> (rename[x] == rename[y] <==> fp[x] == fp[y]))
  }

  /** New names are fresh, and each stands for the smallest member of its class. */
  ghost predicate Sampled(fp: Prints, rename: map<string, string>, sample: map<string, string>) {
    && (forall x :: x in rename ==> rename[x] !in fp && rename[x] in sample && !Less(x, sample[rename[x]]))
    && (forall c :: c in sample ==> sample[c] in rename && rename[sample[c]] == c)
  }

  /** out keeps the schemas that are not renamed and adds, under each new name, the body of its sample;
      every reference follows the renaming. */
  ghost predicate Rebuilt(d: Document, rename: map<string, string>, sample: map<string, string>, out: Document) {
    var s := d.schemas;
    && ValidDocument(out)
    && out.schemas.Keys == (s.Keys - rename.Keys) + sample.Keys
    && (forall x :: x in s && x !in rename && x !in sample ==> out.schemas[x] == RewriteAllRefs(s[x], rename))
    && (forall c :: c in sample && sample[c] in s ==> out.schemas[c] == RewriteAllRefs(s[sample[c]], rename))
    && out.rest == RewriteAllRefs(d.rest, rename)
  }

  // The state of the renaming loop after the smallest `done` names.
  ghost predicate Renaming(names: seq<string>, fp: Prints, sorted: seq<string>, done: nat,
                           rename: map<string, string>)
    requires done <= |sorted|
  {
    && (forall x :: x in rename ==> x in fp && Mergeable(Members(names, fp, fp[x])))
    && (forall i :: 0 <= i < done && sorted[i] in fp && Mergeable(Members(names, fp, fp[sorted[i]])) ==>
      sorted[i] in rename)
    && (forall x, y :: x in rename && y in fp && fp[x] == fp[y] ==> y in rename && rename[x] == rename[y])
    && (forall x, y :: x in rename && y in rename && rename[x] == rename[y] ==> fp[x] == fp[y])
  }

  /** canonicalizeRecursiveSchemas. The last four results record the number of rounds, the renaming, the member
      each merged body comes from, and the new names in order. */
  method CanonicalizeRecursiveSchemas(d: Document)
    returns (out: Document, ghost rounds: nat, rename: map<string, string>, sample: map<string, string>,
             canonicals: seq<string>)
    requires ValidDocument(d)
    ensures rounds <= MAX_ROUNDS && (rounds == MAX_ROUNDS || Rounds(d.schemas, rounds + 1) == Rounds(d.schemas, rounds))
    ensures Rounds(d.schemas, rounds).Keys == d.schemas.Keys
    ensures RenamesClasses(d.names, Rounds(d.schemas, rounds), rename)
    ensures Sampled(Rounds(d.schemas, rounds), rename, sample)
    ensures Rebuilt(d, rename, sample, out)
    ensures NamedInTurn(d.names, Rounds(d.schemas, rounds), sample, canonicals)
    ensures exists kept :: out.names == kept + canonicals && ListsRest(kept, d.names, rename.Keys)
  {
    hide Rounds, RewriteAllRefs, Mergeable, Members, NamedInTurn, ListsRest;
    var s := d.schemas;
    var fp := Refine(d.names, s);
    rounds :| 0 <= rounds <= MAX_ROUNDS && fp == Rounds(s, rounds) &&
      (rounds == MAX_ROUNDS || Rounds(s, rounds + 1) == fp);
    RoundsDomain(s, rounds);
    rename, sample, canonicals := RenameGroups(d.names, fp);
    out := Rebuild(d, rename, sample, canonicals);
  }

  /** The loop that gives each mergeable group its name. */
  method RenameGroups(names: seq<string>, fp: Prints)
    returns (rename: map<string, string>, sample: map<string, string>, canonicals: seq<string>)
    requires NoDup(names) && Elems(names) == fp.Keys
    ensures RenamesClasses(names, fp, rename) && Sampled(fp, rename, sample)
    ensures NoDup(canonicals) && Elems(canonicals) == sample.Keys && sample.Keys !! fp.Keys
    ensures rename == map[] ==> sample == map[]
    ensures NamedInTurn(names, fp, sample, canonicals)
  {
    hide Mergeable, Members, Renaming, Sampled, Progress, Extends, SortKeys, IsNameFor, Less, NamedInTurn;
    var sorted := SortKeys(names);
    SortKeysSorts(names);
    rename, sample, canonicals := map[], map[], [];
    var reserved := fp.Keys;
    RenamingStarts(names, fp, sorted);
    NoneNamed(names, fp, sorted);
    for i := 0 to |sorted|
      invariant Progress(names, fp, sorted, i, rename, sample, canonicals)
      invariant reserved == fp.Keys + sample.Keys
      invariant NamedInTurn(names, fp, sample, canonicals) && SampledBefore(sorted, i, sample, canonicals)
    {
      var x := sorted[i];
      assert x in Elems(sorted);
      var group := Members(names, fp, fp[x]);
      if x !in rename && Mergeable(group) {
        GroupOf(names, fp, x);
        MergeableExtracted(group);
        var c := ChooseGroupCanonicalName(group, fp[x], reserved);
        var rename' := rename + map y | y in group :: c;
        GroupStep(names, fp, sorted, i, rename, rename', sample, canonicals, c);
        rename := rename';
        sample := sample[c := x];
        canonicals := canonicals + [c];
        reserved := reserved + {c};
      } else {
        RenamingSkip(names, fp, sorted, i, rename, sample, canonicals);
      }
    }
    RenamingDone(names, fp, sorted, rename, sample, canonicals);
  }

  // The new names so far are for samples among the first `done` names.
  ghost predicate SampledBefore(sorted: seq<string>, done: nat, sample: map<string, string>, canonicals: seq<string>)
    requires done <= |sorted|
  {
    forall k :: 0 <= k < |canonicals| ==> canonicals[k] in sample && sample[canonicals[k]] in sorted[..done]
  }

  lemma NoneNamed(names: seq<string>, fp: Prints, sorted: seq<string>)
    ensures NamedInTurn(names, fp, map[], []) && SampledBefore(sorted, 0, map[], [])
  {}

  lemma NameIsFree(c: string, group: seq<string>, fingerprint: string, taken: set<string>)
    requires IsNameFor(c, group, fingerprint, taken)
    ensures c !in taken
  {
    hide IsGroupBase;
  }

  lemma NextNamed(names: seq<string>, fp: Prints, sorted: seq<string>, i: nat, sample: map<string, string>,
                  canonicals: seq<string>, c: string)
    requires i < |sorted| && Ascending(sorted) && sorted[i] in fp && c !in sample
    requires Elems(canonicals) == sample.Keys && NamedInTurn(names, fp, sample, canonicals)
    requires SampledBefore(sorted, i, sample, canonicals)
    requires IsNameFor(c, Members(names, fp, fp[sorted[i]]), fp[sorted[i]], fp.Keys + sample.Keys)
    ensures NamedInTurn(names, fp, sample[c := sorted[i]], canonicals + [c])
    ensures SampledBefore(sorted, i + 1, sample[c := sorted[i]], canonicals + [c])
  {
    hide Members, IsNameFor, Less, Ascending, Elems;
    var sample', all, n := sample[c := sorted[i]], canonicals + [c], |canonicals|;
    assert sorted[..i + 1] == sorted[..i] + [sorted[i]];
    forall k | 0 <= k < n ensures all[k] == canonicals[k] != c && all[..k] == canonicals[..k] {}
    assert all[n] == c && all[..n] == canonicals;
    forall j | 0 <= j < n ensures Less(sample'[all[j]], sample'[c]) {
      LessThanLater(sorted, i, sample[canonicals[j]]);
    }
  }

  lemma LessThanLater(sorted: seq<string>, i: nat, x: string)
    requires i < |sorted| && Ascending(sorted) && x in sorted[..i]
    ensures Less(x, sorted[i])
  {
    hide Less;
    var m :| 0 <= m < i && sorted[m] == x;
  }

  // Everything the renaming loop keeps true.
  ghost predicate Progress(names: seq<string>, fp: Prints, sorted: seq<string>, done: nat, rename: map<string, string>,
                           sample: map<string, string>, canonicals: seq<string>)
    requires done <= |sorted|
  {
    && Renaming(names, fp, sorted, done, rename) && Sampled(fp, rename, sample)
    && fp.Keys !! sample.Keys && NoDup(canonicals) && Elems(canonicals) == sample.Keys
  }

  lemma GroupStep(names: seq<string>, fp: Prints, sorted: seq<string>, i: nat, rename: map<string, string>,
                  rename': map<string, string>, sample: map<string, string>, canonicals: seq<string>, c: string)
    requires i < |sorted| && Ascending(sorted) && Elems(sorted) == fp.Keys && sorted[i] in fp && sorted[i] !in rename
    requires Progress(names, fp, sorted, i, rename, sample, canonicals) && NoDup(names) && Elems(names) == fp.Keys
    requires NamedInTurn(names, fp, sample, canonicals) && SampledBefore(sorted, i, sample, canonicals)
    requires var group := Members(names, fp, fp[sorted[i]]);
      Mergeable(group) && rename' == rename + (map y | y in group :: c) &&
      IsNameFor(c, group, fp[sorted[i]], fp.Keys + sample.Keys)
    ensures Progress(names, fp, sorted, i + 1, rename', sample[c := sorted[i]], canonicals + [c])
    ensures NamedInTurn(names, fp, sample[c := sorted[i]], canonicals + [c])
    ensures SampledBefore(sorted, i + 1, sample[c := sorted[i]], canonicals + [c])
  {
    var x, group := sorted[i], Members(names, fp, fp[sorted[i]]);
    ProgressListed(names, fp, sorted, i, rename, sample, canonicals);
    hide *;
    NameIsFree(c, group, fp[x], fp.Keys + sample.Keys);
    GroupOf(names, fp, x);
    ExtendsByGroup(fp, rename, group, x, c);
    ProgressStep(names, fp, sorted, i, rename, rename', sample, canonicals, c);
    NextNamed(names, fp, sorted, i, sample, canonicals, c);
  }

  lemma ProgressListed(names: seq<string>, fp: Prints, sorted: seq<string>, i: nat, rename: map<string, string>,
                       sample: map<string, string>, canonicals: seq<string>)
    requires i <= |sorted| && Progress(names, fp, sorted, i, rename, sample, canonicals)
    ensures Elems(canonicals) == sample.Keys
  {
    hide Renaming, Sampled, NoDup, Elems;
  }

  lemma ExtendsByGroup(fp: Prints, rename: map<string, string>, group: seq<string>, x: string, c: string)
    requires x in fp && forall y :: y in group <==> y in fp && fp[y] == fp[x]
    ensures Extends(fp, rename, rename + map y | y in group :: c, x, c)
  {}

  lemma ProgressStep(names: seq<string>, fp: Prints, sorted: seq<string>, i: nat, rename: map<string, string>,
                     rename': map<string, string>, sample: map<string, string>, canonicals: seq<string>, c: string)
    requires i < |sorted| && Ascending(sorted) && Elems(sorted) == fp.Keys && sorted[i] in fp && sorted[i] !in rename
    requires Progress(names, fp, sorted, i, rename, sample, canonicals)
    requires Mergeable(Members(names, fp, fp[sorted[i]])) && Extends(fp, rename, rename', sorted[i], c)
    requires c !in fp && c !in sample
    ensures Progress(names, fp, sorted, i + 1, rename', sample[c := sorted[i]], canonicals + [c])
  {
    hide Mergeable, Members, Renaming, Sampled, Extends, Ascending;
    SampledStep(names, fp, sorted, i, rename, rename', sample, c);
    RenamingStep(names, fp, sorted, i, rename, rename', sample, c);
    assert Elems([c]) == {c};
    AppendedNames(canonicals, [c]);
  }

  /** The document with the renamed schemas merged. */
  method Rebuild(d: Document, rename: map<string, string>, sample: map<string, string>, canonicals: seq<string>)
    returns (out: Document)
    requires ValidDocument(d) && NoDup(canonicals) && Elems(canonicals) == sample.Keys && sample.Keys !! d.schemas.Keys
    requires rename == map[] ==> sample == map[]
    requires forall c :: c in sample ==> sample[c] in d.schemas
    ensures Rebuilt(d, rename, sample, out)
    ensures exists kept :: out.names == kept + canonicals && ListsRest(kept, d.names, rename.Keys)
  {
    hide RewriteAllRefs, Without, ListsRest;
    var s := d.schemas;
    if rename == map[] {
      RewritesNothing(d);
      NothingRenamed(d, canonicals);
      return d;
    }
    var kept := Without(d.names, rename.Keys);
    WithoutKeeps(d.names, rename.Keys);
    WithoutListsRest(d.names, rename.Keys);
    out := Document(kept + canonicals,
                    map x | x in (s.Keys - rename.Keys) + sample.Keys ::
                      RewriteAllRefs(if x in sample then s[sample[x]] else s[x], rename),
                    RewriteAllRefs(d.rest, rename));
    AppendedNames(kept, canonicals);
  }

  lemma NothingRenamed(d: Document, canonicals: seq<string>)
    requires NoDup(d.names) && NoDup(canonicals) && Elems(canonicals) == {}
    ensures d.names == d.names + canonicals && ListsRest(d.names, d.names, {})
  {
    NoDupSize(canonicals);
    forall i, j | 0 <= i < j < |d.names| ensures Before(d.names, d.names[i], d.names[j]) {}
  }

  // rename' also sends the whole class of x to c.
  ghost predicate Extends(fp: Prints, rename: map<string, string>, rename': map<string, string>, x: string, c: string)
    requires x in fp
  {
    && (forall y :: y in rename' <==> y in rename || (y in fp && fp[y] == fp[x]))
    && (forall y :: y in fp && fp[y] == fp[x] ==> y in rename' && rename'[y] == c)
    && (forall y :: y in rename && !(y in fp && fp[y] == fp[x]) ==> y in rename' && rename'[y] == rename[y])
  }

  lemma RewritesNothing(d: Document)
    ensures forall x :: x in d.schemas ==> RewriteAllRefs(d.schemas[x], map[]) == d.schemas[x]
    ensures RewriteAllRefs(d.rest, map[]) == d.rest
  {
    forall x | x in d.schemas
      ensures RewriteAllRefs(d.schemas[x], map[]) == d.schemas[x]
    {
      RewriteNothing(d.schemas[x]);
    }
    RewriteNothing(d.rest);
  }

  lemma GroupOf(names: seq<string>, fp: Prints, x: string)
    requires NoDup(names) && Elems(names) == fp.Keys && x in fp
    ensures var g := Members(names, fp, fp[x]); x in g && NoDup(g)
    ensures forall y :: y in Members(names, fp, fp[x]) <==> y in fp && fp[y] == fp[x]
  {
    MembersAre(names, fp, fp[x]);
    forall y ensures y in names <==> y in fp { assert y in Elems(names) <==> y in fp.Keys; }
    MembersNoDup(names, fp, fp[x]);
  }

  lemma {:induction false} MembersNoDup(names: seq<string>, fp: Prints, p: string)
    requires NoDup(names)
    ensures NoDup(Members(names, fp, p))
  {
    if names != [] {
      MembersNoDup(names[1..], fp, p);
      MembersAre(names[1..], fp, p);
      assert forall i :: 1 <= i < |names| ==> names[i] != names[0];
      assert names[0] !in names[1..];
    }
  }

  lemma MergeableExtracted(g: seq<string>)
    requires Mergeable(g)
    ensures g != [] && forall x :: x in g ==> IsExtracted(x)
  {}

  lemma RenamingStarts(names: seq<string>, fp: Prints, sorted: seq<string>)
    ensures Progress(names, fp, sorted, 0, map[], map[], [])
  {}

  lemma RenamingSkip(names: seq<string>, fp: Prints, sorted: seq<string>, i: nat, rename: map<string, string>,
                     sample: map<string, string>, canonicals: seq<string>)
    requires i < |sorted| && Progress(names, fp, sorted, i, rename, sample, canonicals) && sorted[i] in fp
    requires sorted[i] in rename || !Mergeable(Members(names, fp, fp[sorted[i]]))
    ensures Progress(names, fp, sorted, i + 1, rename, sample, canonicals)
  {
    hide Mergeable, Members, Sampled;
  }

  // The name being renamed is the smallest of its class.
  lemma SmallestFirst(names: seq<string>, fp: Prints, sorted: seq<string>, i: nat, rename: map<string, string>,
                      y: string)
    requires i < |sorted| && Ascending(sorted) && Elems(sorted) == fp.Keys
    requires Renaming(names, fp, sorted, i, rename) && sorted[i] in fp && sorted[i] !in rename
    requires Mergeable(Members(names, fp, fp[sorted[i]])) && y in fp && fp[y] == fp[sorted[i]]
    ensures !Less(y, sorted[i]) && y !in rename
  {
    hide Mergeable, Members, Less;
    assert y in Elems(sorted);
    var j :| 0 <= j < |sorted| && sorted[j] == y;
    LessTotal(sorted[i], y);
    assert y !in rename;
    assert j >= i;
  }

  lemma SampledStep(names: seq<string>, fp: Prints, sorted: seq<string>, i: nat, rename: map<string, string>,
                    rename': map<string, string>, sample: map<string, string>, c: string)
    requires i < |sorted| && Ascending(sorted) && Elems(sorted) == fp.Keys && sorted[i] in fp && sorted[i] !in rename
    requires Renaming(names, fp, sorted, i, rename) && Sampled(fp, rename, sample)
    requires Mergeable(Members(names, fp, fp[sorted[i]])) && Extends(fp, rename, rename', sorted[i], c)
    requires c !in fp && c !in sample
    ensures Sampled(fp, rename', sample[c := sorted[i]])
  {
    hide Mergeable, Members, Less, Renaming, Ascending;
    var x := sorted[i];
    forall y | y in fp && fp[y] == fp[x] ensures !Less(y, x) && y !in rename {
      SmallestFirst(names, fp, sorted, i, rename, y);
    }
  }

  // What the renaming of one more class changes.
  lemma ClassRenamed(fp: Prints, rename: map<string, string>, rename': map<string, string>, sample: map<string, string>,
                     x: string, c: string)
    requires x in fp && x !in rename && Extends(fp, rename, rename', x, c) && Sampled(fp, rename, sample)
    requires c !in sample && rename.Keys <= fp.Keys
    requires forall y, z :: y in rename && z in fp && fp[y] == fp[z] ==> z in rename && rename[y] == rename[z]
    ensures forall y :: y in fp && fp[y] == fp[x] ==> y !in rename && y in rename' && rename'[y] == c
    ensures forall y :: y in rename ==> y in rename' && rename'[y] == rename[y] && rename[y] != c
    ensures forall y :: y in rename' && y !in rename ==> y in fp && fp[y] == fp[x]
  {
    hide Less;
    forall y | y in fp && fp[y] == fp[x] ensures y !in rename { assert y in rename ==> x in rename; }
    forall y | y in rename ensures rename[y] != c { assert rename[y] in sample; }
  }

  lemma RenamingStep(names: seq<string>, fp: Prints, sorted: seq<string>, i: nat, rename: map<string, string>,
                     rename': map<string, string>, sample: map<string, string>, c: string)
    requires i < |sorted| && Ascending(sorted) && Elems(sorted) == fp.Keys && sorted[i] in fp && sorted[i] !in rename
    requires Renaming(names, fp, sorted, i, rename) && Sampled(fp, rename, sample)
    requires Mergeable(Members(names, fp, fp[sorted[i]])) && Extends(fp, rename, rename', sorted[i], c)
    requires c !in sample
    ensures Renaming(names, fp, sorted, i + 1, rename')
  {
    hide Mergeable, Members, Less, Ascending, Sampled, Extends;
    ClassRenamed(fp, rename, rename', sample, sorted[i], c);
  }

  lemma RenamingDone(names: seq<string>, fp: Prints, sorted: seq<string>, rename: map<string, string>,
                     sample: map<string, string>, canonicals: seq<string>)
    requires Elems(sorted) == fp.Keys && Progress(names, fp, sorted, |sorted|, rename, sample, canonicals)
    ensures RenamesClasses(names, fp, rename) && Sampled(fp, rename, sample)
    ensures NoDup(canonicals) && Elems(canonicals) == sample.Keys && sample.Keys !! fp.Keys
    ensures rename == map[] ==> sample == map[]
  {
    hide Mergeable, Members, Less;
    forall x | x in fp && Mergeable(Members(names, fp, fp[x])) ensures x in rename {
      assert x in Elems(sorted);
      var i :| 0 <= i < |sorted| && sorted[i] == x;
    }
    assert sample.Keys == {} || exists c :: c in sample && sample[c] in rename;
  }

  // ---------- merging keeps meaning ----------

  /** The old schema each schema of the merged document takes its body from. */
  ghost function Source(out: Document, sample: map<string, string>): map<string, string> {
    map y | y in out.schemas :: if y in sample then sample[y] else y
  }

  lemma SourceInClass(d: Document, fp: Prints, rename: map<string, string>, sample: map<string, string>,
                      out: Document, x: string)
    requires fp.Keys == d.schemas.Keys && x in fp
    requires RenamesClasses(d.names, fp, rename) && Sampled(fp, rename, sample) && Rebuilt(d, rename, sample, out)
    ensures var y := Renamed(x, rename);
      y in out.schemas && Source(out, sample)[y] in fp && fp[Source(out, sample)[y]] == fp[x]
  {
    hide RewriteAllRefs, Mergeable, Members, Less;
    SampledInFp(d.names, fp, rename, sample, x);
  }

  // Each body comes from a name that ends up where the body is.
  lemma SourceEndsUp(d: Document, fp: Prints, rename: map<string, string>, sample: map<string, string>, out: Document)
    requires fp.Keys == d.schemas.Keys
    requires RenamesClasses(d.names, fp, rename) && Sampled(fp, rename, sample) && Rebuilt(d, rename, sample, out)
    ensures forall y :: y in Source(out, sample) ==> Renamed(Source(out, sample)[y], rename) == y
  {
    hide RewriteAllRefs, Mergeable, Members, Less;
  }

  lemma SourceEntries(d: Document, fp: Prints, rename: map<string, string>, sample: map<string, string>, out: Document)
    requires fp.Keys == d.schemas.Keys
    requires RenamesClasses(d.names, fp, rename) && Sampled(fp, rename, sample) && Rebuilt(d, rename, sample, out)
    ensures Source(out, sample).Keys == out.schemas.Keys
    ensures var rep := Source(out, sample);
      forall y :: y in out.schemas ==>
        rep[y] in d.schemas && out.schemas[y] == RewriteAllRefs(d.schemas[rep[y]], rename)
  {
    hide RewriteAllRefs, Less, Members, Mergeable;
    forall y | y in sample ensures sample[y] in fp && y !in fp {
      SampledInFp(d.names, fp, rename, sample, y);
    }
  }

  lemma SampledInFp(names: seq<string>, fp: Prints, rename: map<string, string>, sample: map<string, string>, c: string)
    requires RenamesClasses(names, fp, rename) && Sampled(fp, rename, sample)
    ensures c in sample ==> sample[c] in fp && c !in fp
  {
    hide Mergeable, Members, Less;
  }

  // References resolve after the pass, collisions or not.
  lemma CanonicalizeCloses(d: Document, fp: Prints, rename: map<string, string>, sample: map<string, string>,
                           out: Document)
    requires ClosedDocument(d) && fp.Keys == d.schemas.Keys
    requires RenamesClasses(d.names, fp, rename) && Sampled(fp, rename, sample) && Rebuilt(d, rename, sample, out)
    ensures ClosedDocument(out)
  {
    hide *;
    RebuiltParts(d, fp, rename, sample, out);
    RebuiltMerges(d, fp, rename, sample, out);
    MergesDocument(d, out, rename, Source(out, sample));
  }

  // The output merges each class into one entry.
  lemma RebuiltMerges(d: Document, fp: Prints, rename: map<string, string>, sample: map<string, string>, out: Document)
    requires fp.Keys == d.schemas.Keys
    requires RenamesClasses(d.names, fp, rename) && Sampled(fp, rename, sample) && Rebuilt(d, rename, sample, out)
    ensures Merges(d.schemas, out.schemas, rename, Source(out, sample))
  {
    hide *;
    var rep := Source(out, sample);
    SourceEntries(d, fp, rename, sample, out);
    forall x | x in d.schemas
      ensures Renamed(x, rename) in out.schemas
    {
      SourceInClass(d, fp, rename, sample, out, x);
    }
    IntroMerges(d.schemas, out.schemas, rename, rep);
  }

  lemma RebuiltParts(d: Document, fp: Prints, rename: map<string, string>, sample: map<string, string>, out: Document)
    requires ClosedDocument(d) && Rebuilt(d, rename, sample, out)
    ensures ValidDocument(out) && out.rest == RewriteAllRefs(d.rest, rename)
  {
    hide RewriteAllRefs, RefClosed;
  }

  lemma IntroMerges(s: Schemas, t: Schemas, rename: map<string, string>, rep: map<string, string>)
    requires rep.Keys == t.Keys && forall x :: x in s ==> Renamed(x, rename) in t
    requires forall y :: y in t ==> rep[y] in s && t[y] == RewriteAllRefs(s[rep[y]], rename)
    ensures Merges(s, t, rename, rep)
  {
    hide RewriteAllRefs, Renamed;
  }

  // Wherever the document referred to x, the new one refers to Renamed(x); the two mean the same, for
  // every schema, exactly when the names merged into one do.
  lemma CanonicalizeKeepsMeaningIff(d: Document, fp: Prints, rename: map<string, string>, sample: map<string, string>,
                                    out: Document, drop: set<string>)
    requires ClosedDocument(d) && fp.Keys == d.schemas.Keys
    requires RenamesClasses(d.names, fp, rename) && Sampled(fp, rename, sample) && Rebuilt(d, rename, sample, out)
    ensures MergedMeanAlike(d.schemas, rename, drop) <==> forall x :: x in d.schemas ==> Keeps(d, out, rename, x, drop)
    ensures MergedMeanAlike(d.schemas, rename, drop) ==>
      SameMeaning(d.schemas, d.rest, out.schemas, out.rest, RestLens(drop))
  {
    hide *;
    RebuiltParts(d, fp, rename, sample, out);
    RebuiltMerges(d, fp, rename, sample, out);
    SourceEndsUp(d, fp, rename, sample, out);
    MergeKeepsMeaningIff(d, out, rename, Source(out, sample), drop);
  }

  /** All names of classes that are merged, and some others. */
  ghost predicate HoldsMerged(d: Document, fp: Prints, within: set<string>) {
    forall x :: x in fp && Mergeable(Members(d.names, fp, fp[x])) ==> x in within
  }

  // A stable partition keeps all meaning, if the hash kept its texts apart and the classes that are
  // merged, with all they refer to, agree on what stands beside references.
  lemma CanonicalizeKeepsMeaning(d: Document, r: nat, rename: map<string, string>, sample: map<string, string>,
                                 out: Document, within: set<string>, drop: set<string>)
    requires ClosedDocument(d) && UnmarkedSchemas(d.schemas) && Rounds(d.schemas, r).Keys == d.schemas.Keys
    requires Stable(d.schemas, r) && NoCollision(d.schemas, Rounds(d.schemas, r))
    requires Equivalence.SelfContained(d.schemas, within) && HoldsMerged(d, Rounds(d.schemas, r), within)
    requires Equivalence.SiblingsAgree(d.schemas, r, within, drop) && "$ref" !in drop
    requires RenamesClasses(d.names, Rounds(d.schemas, r), rename) && Sampled(Rounds(d.schemas, r), rename, sample)
    requires Rebuilt(d, rename, sample, out)
    ensures forall x :: x in d.schemas ==> Keeps(d, out, rename, x, drop)
    ensures SameMeaning(d.schemas, d.rest, out.schemas, out.rest, RestLens(drop))
  {
    hide *;
    StableMeansAlike(d, r, rename, sample, within, drop);
    CanonicalizeKeepsMeaningIff(d, Rounds(d.schemas, r), rename, sample, out, drop);
  }

  lemma StableMeansAlike(d: Document, r: nat, rename: map<string, string>, sample: map<string, string>,
                         within: set<string>, drop: set<string>)
    requires UnmarkedSchemas(d.schemas) && Rounds(d.schemas, r).Keys == d.schemas.Keys
    requires Stable(d.schemas, r) && NoCollision(d.schemas, Rounds(d.schemas, r))
    requires Equivalence.SelfContained(d.schemas, within) && HoldsMerged(d, Rounds(d.schemas, r), within)
    requires Equivalence.SiblingsAgree(d.schemas, r, within, drop) && "$ref" !in drop
    requires RenamesClasses(d.names, Rounds(d.schemas, r), rename) && Sampled(Rounds(d.schemas, r), rename, sample)
    ensures MergedMeanAlike(d.schemas, rename, drop)
  {
    hide *;
    var s := d.schemas;
    forall x, y | x in s && y in s && Renamed(x, rename) == Renamed(y, rename)
      ensures SameMeaning(s, s[x], s, s[y], SchemaLens(drop))
    {
      if x != y {
        EndsUpInClass(d, r, rename, sample, within, x, y);
        Equivalence.StableClassHasOneMeaning(s, r, within, x, y, drop);
      } else {
        SameName(s, x, drop);
      }
    }
    MeantAlike(s, rename, drop);
  }

  lemma MeantAlike(s: Schemas, rename: map<string, string>, drop: set<string>)
    requires forall x, y :: x in s && y in s && Renamed(x, rename) == Renamed(y, rename) ==>
      SameMeaning(s, s[x], s, s[y], SchemaLens(drop))
    ensures MergedMeanAlike(s, rename, drop)
  {
    hide SameMeaning, Renamed;
  }

  lemma SameName(s: Schemas, x: string, drop: set<string>)
    requires x in s
    ensures SameMeaning(s, s[x], s, s[x], SchemaLens(drop))
  {
    hide Unfold;
  }

  // Different names that end up as one are of one class, which is merged.
  lemma EndsUpInClass(d: Document, r: nat, rename: map<string, string>, sample: map<string, string>,
                      within: set<string>, x: string, y: string)
    requires Rounds(d.schemas, r).Keys == d.schemas.Keys && x in d.schemas && y in d.schemas
    requires RenamesClasses(d.names, Rounds(d.schemas, r), rename) && Sampled(Rounds(d.schemas, r), rename, sample)
    requires Renamed(x, rename) == Renamed(y, rename) && x != y && HoldsMerged(d, Rounds(d.schemas, r), within)
    ensures SameClass(d.schemas, r, x, y) && x in within && y in within
  {
    hide Rounds, Mergeable, Members, Less;
  }

  // The partition after r rounds is stable when the strings did not change, when there are no more than
  // r classes, or when there are no more than r + 1 names: so always when 101 names had all 100 rounds.
  lemma WhenStable(s: Schemas, r: nat)
    requires UnmarkedSchemas(s) && CollisionFree(s, r + 1)
    requires Rounds(s, r + 1) == Rounds(s, r) || Classes(s, r) <= r || |s| <= r + 1
    ensures Stable(s, r) && NoCollision(s, Rounds(s, r))
  {
    hide Rounds, UnmarkedSchemas, NoCollision, Stable, Classes;
    if Rounds(s, r + 1) == Rounds(s, r) {
      FixpointIsStable(s, r);
    } else if Classes(s, r) <= r {
      if !Stable(s, r) { UnstableHasClasses(s, r); }
    } else {
      StableByCount(s, r);
    }
    assert NoCollision(s, Rounds(s, r));
  }

  // Public names survive: a name that does not end in `__schema` and digits keeps its entry, and every
  // name the pass adds was unused.
  lemma PublicNamesSurvive(d: Document, fp: Prints, rename: map<string, string>, sample: map<string, string>,
                           out: Document, x: string)
    requires ValidDocument(d) && fp.Keys == d.schemas.Keys
    requires RenamesClasses(d.names, fp, rename) && Sampled(fp, rename, sample) && Rebuilt(d, rename, sample, out)
    ensures x in d.schemas && x !in out.schemas ==> exists stem, digits :: IsNumbered(x, stem, digits)
    ensures x in out.schemas && x !in d.schemas ==> x in rename.Values
  {
    hide RewriteAllRefs, IsExtracted, IsNumbered, Members, Less;
    if x in d.schemas && x !in out.schemas {
      GroupOf(d.names, fp, x);
      ExtractedIffNumbered(x);
    }
  }

  // Exactly those names are renamed whose class has another member and only numbered ones.
  lemma RenamedAreNumbered(d: Document, fp: Prints, rename: map<string, string>, x: string)
    requires ValidDocument(d) && fp.Keys == d.schemas.Keys && RenamesClasses(d.names, fp, rename)
    ensures x in rename <==>
      (x in fp && (exists y :: y in fp && y != x && fp[y] == fp[x]) &&
        forall y :: y in fp && fp[y] == fp[x] ==> exists stem, digits :: IsNumbered(y, stem, digits))
  {
    hide IsExtracted, IsNumbered, Members;
    if x in fp {
      var g := Members(d.names, fp, fp[x]);
      GroupOf(d.names, fp, x);
      forall y { ExtractedIffNumbered(y); }
      HasAnother(g, x);
      assert Mergeable(g) <==> |g| > 1 && forall y :: y in g ==> IsExtracted(y);
    }
  }

  lemma HasAnother(g: seq<string>, x: string)
    requires x in g && NoDup(g)
    ensures |g| > 1 <==> exists y :: y in g && y != x
  {
    if |g| > 1 {
      assert g[0] != g[1];
      var y := if g[0] == x then g[1] else g[0];
      assert y in g && y != x;
    }
  }
}
