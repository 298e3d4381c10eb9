/** Collapsing of per-type copies `<prefix><Id>` of a registered schema into one shared `<Id>`. */
module Collapse {
  import opened Strings
  import opened Json
  import opened Documents
  import opened Naming

  function InsertByLength(id: string, ids: seq<string>): seq<string> {
    if ids == [] || |id| > |ids[0]| then [id] + ids else [ids[0]] + InsertByLength(id, ids[1..])
  }

  /** The ids, longest first. */
  function LongestFirst(ids: seq<string>): seq<string> {
    if ids == [] then [] else InsertByLength(ids[0], LongestFirst(ids[1..]))
  }

  ghost predicate Descending(ids: seq<string>) {
    forall i, j :: 0 <= i < j < |ids| ==> |ids[i]| >= |ids[j]|
  }

  lemma {:induction false} InsertDescends(id: string, ids: seq<string>)
    requires Descending(ids)
    ensures Descending(InsertByLength(id, ids))
    ensures forall x :: x in InsertByLength(id, ids) <==> x == id || x in ids
  {
    if ids != [] && |id| <= |ids[0]| {
      InsertDescends(id, ids[1..]);
      assert ids == [ids[0]] + ids[1..];
      var t := InsertByLength(id, ids[1..]);
      forall j | 0 <= j < |t| ensures |ids[0]| >= |t[j]| {
        assert t[j] in t;
      }
    }
  }

  lemma {:induction false} LongestFirstSorts(ids: seq<string>)
    ensures Descending(LongestFirst(ids))
    ensures forall x :: x in LongestFirst(ids) <==> x in ids
  {
    if ids != [] {
      LongestFirstSorts(ids[1..]);
      InsertDescends(ids[0], LongestFirst(ids[1..]));
      assert ids == [ids[0]] + ids[1..];
    }
  }

  predicate ProperSuffix(name: string, id: string) {
    |name| > |id| && EndsWith(name, id)
  }

  function FirstSuffix(name: string, ids: seq<string>): Option<string> {
    if ids == [] then None
    else if ProperSuffix(name, ids[0]) then Some(ids[0])
    else FirstSuffix(name, ids[1..])
  }

  /** The id that `name` is a copy of, if any. Registered names are copies of nothing. */
  function CopyOf(name: string, ids: seq<string>): Option<string> {
    if name in ids then None else FirstSuffix(name, LongestFirst(ids))
  }

  lemma {:induction false} FirstSuffixIsLongest(name: string, ids: seq<string>)
    requires Descending(ids)
    ensures FirstSuffix(name, ids).None? <==> forall c :: c in ids ==> !ProperSuffix(name, c)
    ensures FirstSuffix(name, ids).Some? ==>
      var id := FirstSuffix(name, ids).value;
      id in ids && ProperSuffix(name, id) && forall c :: c in ids && ProperSuffix(name, c) ==> |c| <= |id|
  {
    hide ProperSuffix;
    if ids != [] {
      FirstIsLongest(ids);
      FirstSuffixIsLongest(name, ids[1..]);
      hide Descending;
      assert forall c :: c in ids <==> c == ids[0] || c in ids[1..];
    }
  }

  lemma FirstIsLongest(ids: seq<string>)
    requires Descending(ids) && ids != []
    ensures Descending(ids[1..]) && forall c :: c in ids ==> |c| <= |ids[0]|
  {
    forall c | c in ids ensures |c| <= |ids[0]| {
      var j :| 0 <= j < |ids| && ids[j] == c;
    }
  }

  /** The name is the id with something before it. */
  ghost predicate IsPrefixed(name: string, id: string) {
    exists stem: string :: stem != "" && name == stem + id
  }

  lemma ProperSuffixIff(name: string, id: string)
    ensures ProperSuffix(name, id) <==> IsPrefixed(name, id)
  {
    if ProperSuffix(name, id) {
      var stem := name[..|name| - |id|];
      assert name == stem + id;
    }
  }

  lemma CopyOfIs(name: string, ids: seq<string>, id: string)
    ensures CopyOf(name, ids) == Some(id) <==>
      && name !in ids && id in ids && ProperSuffix(name, id)
      && forall c :: c in ids && c != id && ProperSuffix(name, c) ==> |c| < |id|
    ensures CopyOf(name, ids).None? <==> name in ids || forall c :: c in ids ==> !ProperSuffix(name, c)
  {
    LongestFirstSorts(ids);
    FirstSuffixIsLongest(name, LongestFirst(ids));
    forall c, d | ProperSuffix(name, c) && ProperSuffix(name, d) && |c| == |d| ensures c == d {}
  }

  // A copy goes to the longest registered id that it is prefixed to, and exactly unregistered names that are
  // prefixed to some id are copies.
  lemma CopyOfIsLongestSuffix(name: string, ids: seq<string>, id: string)
    ensures CopyOf(name, ids) == Some(id) <==>
      && name !in ids && id in ids && IsPrefixed(name, id)
      && forall c :: c in ids && c != id && IsPrefixed(name, c) ==> |c| < |id|
    ensures CopyOf(name, ids).None? <==> name in ids || forall c :: c in ids ==> !IsPrefixed(name, c)
  {
    CopyOfIs(name, ids, id);
    hide CopyOf, ProperSuffix, IsPrefixed;
    forall c ensures ProperSuffix(name, c) <==> IsPrefixed(name, c) { ProperSuffixIff(name, c); }
  }

  /** The renaming of all copies. */
  function CopyNames(names: seq<string>, ids: seq<string>): map<string, string> {
    map x | x in names && CopyOf(x, ids).Some? :: CopyOf(x, ids).value
  }

  function FirstRenamedTo(names: seq<string>, rename: map<string, string>, y: string): Option<string> {
    if names == [] then None
    else if names[0] in rename && rename[names[0]] == y then Some(names[0])
    else FirstRenamedTo(names[1..], rename, y)
  }

  /** The schema whose body y gets: its own when it has one, and the first copy's otherwise. */
  function Provider(names: seq<string>, rename: map<string, string>, y: string): Option<string> {
    if y in names && y !in rename then Some(y) else FirstRenamedTo(names, rename, y)
  }

  /** out holds every name that is not a copy and every id with a copy, each with its provider's body. */
  ghost predicate Collapsed(d: Document, rename: map<string, string>, out: Document) {
    && ValidDocument(out)
    && out.rest == RewriteAllRefs(d.rest, rename)
    && (forall x :: x in d.schemas ==> Renamed(x, rename) in out.schemas)
    && (forall y :: y in out.schemas ==>
          var p := Provider(d.names, rename, y);
          p.Some? && p.value in d.schemas && Renamed(p.value, rename) == y &&
          out.schemas[y] == RewriteAllRefs(d.schemas[p.value], rename))
  }

  /** Which names are copies, and of what. */
  method CopiesOf(names: seq<string>, ids: seq<string>) returns (rename: map<string, string>)
    ensures rename == CopyNames(names, ids)
  {
    hide CopyOf;
    rename := map[];
    for i := 0 to |names|
      invariant rename == CopyNames(names[..i], ids)
    {
      assert names[..i + 1] == names[..i] + [names[i]];
      var copied := CopyOf(names[i], ids);
      if copied.Some? {
        rename := rename[names[i] := copied.value];
      }
    }
    assert names[..|names|] == names;
  }

  /** collapseRegisteredIdCopies */
  method CollapseRegisteredIdCopies(d: Document, ids: seq<string>) returns (out: Document)
    requires ValidDocument(d)
    ensures Collapsed(d, CopyNames(d.names, ids), out)
    ensures CopyNames(d.names, ids) == map[] ==> out == d
  {
    hide CopyNames, CopyOf, RewriteAllRefs, Partly, Collapsed, Put, Renamed;
    var rename := CopiesOf(d.names, ids);
    CopyTargetsStay(d.names, ids);
    if rename == map[] {
      NothingToCollapse(d);
      return d;
    }
    out := Document([], map[], RewriteAllRefs(d.rest, rename));
    NothingVisited(d, rename, out);
    for i := 0 to |d.names|
      invariant ValidDocument(out) && out.rest == RewriteAllRefs(d.rest, rename)
      invariant Partly(d, rename, i, out)
    {
      var name := d.names[i];
      assert name in Elems(d.names);
      var body := RewriteAllRefs(d.schemas[name], rename);
      CollapseStep(d, rename, i, out);
      if name !in rename {
        out := Put(out, name, body);
      } else if rename[name] !in out.schemas {
        out := Put(out, rename[name], body);
      }
    }
    PartlyIsCollapsed(d, rename, out);
  }

  /** Assignment of one property of the new schemas object. */
  function Put(d: Document, name: string, body: Json): Document {
    Document(if name in d.schemas then d.names else d.names + [name], d.schemas[name := body], d.rest)
  }

  // v is the body that y gets from the first n names.
  ghost predicate Provided(d: Document, rename: map<string, string>, n: nat, y: string, v: Json)
    requires n <= |d.names|
  {
    var p := Provider(d.names[..n], rename, y);
    p.Some? && p.value in d.schemas && Renamed(p.value, rename) == y && v == RewriteAllRefs(d.schemas[p.value], rename)
  }

  // The new schemas after the first n old ones have been visited.
  ghost predicate Partly(d: Document, rename: map<string, string>, n: nat, out: Document)
    requires n <= |d.names|
  {
    && (forall i :: 0 <= i < n ==> Renamed(d.names[i], rename) in out.schemas)
    && (forall y :: y in out.schemas ==> Provided(d, rename, n, y, out.schemas[y]))
  }

  // The names copies go to are not copies themselves.
  lemma CopyTargetsStay(names: seq<string>, ids: seq<string>)
    ensures var rename := CopyNames(names, ids); forall x :: x in rename ==> rename[x] !in rename
  {
    var rename := CopyNames(names, ids);
    forall x | x in rename ensures rename[x] !in rename {
      CopyOfIs(x, ids, rename[x]);
    }
  }

  lemma {:induction false} FirstRenamedToSnoc(names: seq<string>, x: string, rename: map<string, string>, y: string)
    ensures FirstRenamedTo(names + [x], rename, y) ==
      if FirstRenamedTo(names, rename, y).Some? then FirstRenamedTo(names, rename, y)
      else if x in rename && rename[x] == y then Some(x) else None
    ensures FirstRenamedTo(names, rename, y).None? ==> forall z :: z in names ==> !(z in rename && rename[z] == y)
    ensures FirstRenamedTo(names, rename, y).Some? ==>
      var z := FirstRenamedTo(names, rename, y).value; z in names && z in rename && rename[z] == y
  {
    if names == [] {
      assert names + [x] == [x];
    } else {
      FirstRenamedToSnoc(names[1..], x, rename, y);
      assert (names + [x])[1..] == names[1..] + [x];
      assert names == [names[0]] + names[1..];
    }
  }

  lemma NothingVisited(d: Document, rename: map<string, string>, out: Document)
    requires out.schemas == map[]
    ensures Partly(d, rename, 0, out)
  {}

  lemma PutValid(d: Document, y: string, body: Json)
    requires ValidDocument(d)
    ensures ValidDocument(Put(d, y, body))
  {
    assert y in d.names <==> y in Elems(d.names);
    assert Elems(d.names + [y]) == Elems(d.names) + {y};
  }

  // How one more visited name changes what y's body comes from.
  lemma NextProvider(names: seq<string>, name: string, rename: map<string, string>, y: string)
    requires name !in names && forall x :: x in rename ==> rename[x] !in rename
    ensures Provider(names + [name], rename, y) ==
      if y == name && name !in rename then Some(name)
      else if Provider(names, rename, y).Some? then Provider(names, rename, y)
      else if name in rename && rename[name] == y then Some(name) else None
    ensures Provider(names, rename, y).Some? ==>
      Provider(names, rename, y).value in names && Renamed(Provider(names, rename, y).value, rename) == y
  {
    FirstRenamedToSnoc(names, name, rename, y);
  }

  lemma CollapseStep(d: Document, rename: map<string, string>, i: nat, out: Document)
    requires ValidDocument(d) && ValidDocument(out) && i < |d.names| && Partly(d, rename, i, out)
    requires forall x :: x in rename ==> rename[x] !in rename
    requires d.names[i] in d.schemas
    ensures var name := d.names[i];
      var body := RewriteAllRefs(d.schemas[name], rename);
      var out' := if name !in rename then Put(out, name, body)
                  else if rename[name] !in out.schemas then Put(out, rename[name], body) else out;
      ValidDocument(out') && out'.rest == out.rest && Partly(d, rename, i + 1, out')
  {
    hide RewriteAllRefs, Provider, ValidDocument, Provided, Renamed;
    var name := d.names[i];
    var body := RewriteAllRefs(d.schemas[name], rename);
    PutValid(out, name, body);
    PutValid(out, Renamed(name, rename), body);
    RenamedIs(name, rename);
    if Renamed(name, rename) !in out.schemas {
      ProviderVisited(d, rename, i, out, Renamed(name, rename));
    }
    forall y, v | y !in out.schemas || Provided(d, rename, i, y, v)
      ensures Provided(d, rename, i, y, v) && (y != name || name in rename) ==> Provided(d, rename, i + 1, y, v)
    {
      ProvidedNext(d, rename, i, y, v);
    }
    ProvidedNext(d, rename, i, Renamed(name, rename), body);
  }

  lemma RenamedIs(x: string, rename: map<string, string>)
    ensures Renamed(x, rename) == if x in rename then rename[x] else x
  {}

  lemma ProvidedNext(d: Document, rename: map<string, string>, i: nat, y: string, v: Json)
    requires ValidDocument(d) && i < |d.names| && d.names[i] in d.schemas
    requires forall x :: x in rename ==> rename[x] !in rename
    ensures Provided(d, rename, i, y, v) && (y != d.names[i] || d.names[i] in rename) ==>
      Provided(d, rename, i + 1, y, v)
    ensures y == Renamed(d.names[i], rename) && v == RewriteAllRefs(d.schemas[d.names[i]], rename) ==>
      (d.names[i] in rename ==> Provider(d.names[..i], rename, y).None?) ==> Provided(d, rename, i + 1, y, v)
  {
    hide RewriteAllRefs, Provider;
    NotBefore(d, i);
    assert d.names[..i + 1] == d.names[..i] + [d.names[i]];
    NextProvider(d.names[..i], d.names[i], rename, y);
  }

  lemma NotBefore(d: Document, i: nat)
    requires ValidDocument(d) && i < |d.names|
    ensures d.names[i] !in d.names[..i]
  {
    assert forall j :: 0 <= j < i ==> d.names[j] != d.names[i];
  }

  // A name without an entry yet has no provider among the names visited.
  lemma ProviderVisited(d: Document, rename: map<string, string>, i: nat, out: Document, y: string)
    requires ValidDocument(d) && i < |d.names| && Partly(d, rename, i, out) && y !in out.schemas
    requires forall x :: x in rename ==> rename[x] !in rename
    ensures Provider(d.names[..i], rename, y).None?
  {
    hide RewriteAllRefs, Provider;
    NotBefore(d, i);
    NextProvider(d.names[..i], d.names[i], rename, y);
    assert forall z :: z in d.names[..i] ==> Renamed(z, rename) in out.schemas;
  }

  lemma PartlyIsCollapsed(d: Document, rename: map<string, string>, out: Document)
    requires ValidDocument(d) && ValidDocument(out) && out.rest == RewriteAllRefs(d.rest, rename)
    requires Partly(d, rename, |d.names|, out)
    ensures Collapsed(d, rename, out)
  {
    hide RewriteAllRefs;
    assert d.names[..|d.names|] == d.names;
    forall x | x in d.schemas ensures Renamed(x, rename) in out.schemas {
      assert x in Elems(d.names);
      var i :| 0 <= i < |d.names| && d.names[i] == x;
    }
  }

  lemma NothingToCollapse(d: Document)
    requires ValidDocument(d)
    ensures Collapsed(d, map[], d)
  {
    RewriteNothing(d.rest);
    forall y | y in d.schemas
      ensures Provider(d.names, map[], y) == Some(y) && RewriteAllRefs(d.schemas[y], map[]) == d.schemas[y]
    {
      assert y in Elems(d.names);
      RewriteNothing(d.schemas[y]);
    }
  }

  // ---------- what the pass keeps ----------

  // An existing bare entry wins, wherever it stands among the copies.
  lemma BareEntryWins(d: Document, ids: seq<string>, out: Document, id: string)
    requires ValidDocument(d) && Collapsed(d, CopyNames(d.names, ids), out) && id in d.schemas && id in ids
    ensures id in out.schemas && out.schemas[id] == RewriteAllRefs(d.schemas[id], CopyNames(d.names, ids))
  {
    hide RewriteAllRefs, CopyOf;
    CopyOfIs(id, ids, id);
    var rename := CopyNames(d.names, ids);
    assert id !in rename && id in Elems(d.names);
    assert Renamed(id, rename) == id;
    assert Provider(d.names, rename, id) == Some(id);
  }

  lemma {:induction false} FirstRenamedIs(names: seq<string>, rename: map<string, string>, i: nat)
    requires i < |names| && names[i] in rename
    requires forall j :: 0 <= j < i && names[j] in rename ==> rename[names[j]] != rename[names[i]]
    ensures FirstRenamedTo(names, rename, rename[names[i]]) == Some(names[i])
  {
    if i > 0 { FirstRenamedIs(names[1..], rename, i - 1); }
  }

  // Without one, the first copy in the order of the document gives the shared entry its body.
  lemma FirstCopyWins(d: Document, ids: seq<string>, out: Document, i: nat, id: string)
    requires ValidDocument(d) && Collapsed(d, CopyNames(d.names, ids), out) && i < |d.names| && id !in d.schemas
    requires CopyOf(d.names[i], ids) == Some(id) && forall j :: 0 <= j < i ==> CopyOf(d.names[j], ids) != Some(id)
    ensures d.names[i] in d.schemas && id in out.schemas
    ensures out.schemas[id] == RewriteAllRefs(d.schemas[d.names[i]], CopyNames(d.names, ids))
  {
    hide RewriteAllRefs, CopyOf;
    var rename := CopyNames(d.names, ids);
    assert d.names[i] in Elems(d.names) && id !in d.names by { assert id in d.names ==> id in Elems(d.names); }
    FirstRenamedIs(d.names, rename, i);
    assert Renamed(d.names[i], rename) == id;
  }

  // A second run finds nothing to do.
  lemma CollapseIsIdempotent(d: Document, ids: seq<string>, out: Document)
    requires ValidDocument(d) && Collapsed(d, CopyNames(d.names, ids), out)
    ensures CopyNames(out.names, ids) == map[]
  {
    hide RewriteAllRefs, CopyOf;
    var rename := CopyNames(d.names, ids);
    forall y | y in out.names ensures CopyOf(y, ids).None? {
      assert y in Elems(out.names);
      var x := Provider(d.names, rename, y).value;
      assert x in Elems(d.names);
      CopyOfIs(y, ids, y);
      if x in rename { CopyOfIs(x, ids, y); }
    }
  }

  // Exactly the copies disappear, and only registered ids can be new.
  lemma CollapsedNames(d: Document, ids: seq<string>, out: Document, x: string)
    requires ValidDocument(d) && Collapsed(d, CopyNames(d.names, ids), out)
    ensures x in d.schemas ==> (x in out.schemas <==> CopyOf(x, ids).None?)
    ensures x in out.schemas && x !in d.schemas ==> x in ids
  {
    hide RewriteAllRefs, CopyOf;
    var rename := CopyNames(d.names, ids);
    if x in d.schemas {
      assert x in Elems(d.names);
      assert CopyOf(x, ids).None? ==> Renamed(x, rename) == x;
    }
    if x in out.schemas {
      var p := Provider(d.names, rename, x).value;
      CopyOfIs(x, ids, x);
      if p in rename { CopyOfIs(p, ids, x); }
    }
  }

  // Every collapsed document has all its references resolved.
  lemma CollapseCloses(d: Document, ids: seq<string>, out: Document)
    requires ClosedDocument(d) && Collapsed(d, CopyNames(d.names, ids), out)
    ensures ClosedDocument(out)
  {
    hide RewriteAllRefs, CopyNames, Provider, RefClosed;
    MergesDocument(d, out, CopyNames(d.names, ids), Providers(d, CopyNames(d.names, ids), out));
  }

  ghost function Providers(d: Document, rename: map<string, string>, out: Document): map<string, string>
    requires Collapsed(d, rename, out)
  {
    map y | y in out.schemas :: Provider(d.names, rename, y).value
  }

  // The pass keeps the meaning of every schema exactly when all schemas that end up under one name, the
  // bare entry included, mean the same.
  lemma CollapseKeepsMeaningIffCopiesAgree(d: Document, ids: seq<string>, out: Document, drop: set<string>)
    requires ClosedDocument(d) && Collapsed(d, CopyNames(d.names, ids), out)
    ensures MergedMeanAlike(d.schemas, CopyNames(d.names, ids), drop) <==>
      forall x :: x in d.schemas ==> Keeps(d, out, CopyNames(d.names, ids), x, drop)
    ensures MergedMeanAlike(d.schemas, CopyNames(d.names, ids), drop) ==>
      SameMeaning(d.schemas, d.rest, out.schemas, out.rest, RestLens(drop))
  {
    hide RewriteAllRefs, CopyNames, Provider, SameMeaning, RefClosed, Keeps, MergedMeanAlike;
    var rename := CopyNames(d.names, ids);
    MergeKeepsMeaningIff(d, out, rename, Providers(d, rename, out), drop);
  }
}
