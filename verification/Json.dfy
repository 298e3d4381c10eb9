/** JSON values with ordered object keys, their two serializations, and the order-free shape
    that serialization identifies. */
module Json {
  import opened Strings

  datatype Json =
    | Null
    | Bool(b: bool)
    | Num(lexeme: string)
    | Str(s: string)
    | Arr(items: seq<Json>)
    | Obj(keys: seq<string>, at: map<string, Json>)

  /** A number is carried by the text JSON.stringify gives it. */
  predicate NumChar(c: char) {
    '0' <= c <= '9' || c == '-' || c == '+' || c == '.' || c == 'e' || c == 'E'
  }

  /** The value counts as true in a condition. */
  predicate Truthy(v: Json) {
    match v
    case Null => false
    case Bool(b) => b
    case Num(l) => l != "0"
    case Str(s) => s != ""
    case _ => true
  }

  /** Every object lists each of its keys once; every number has a lexeme. */
  ghost predicate WellFormed(v: Json) {
    match v
    case Num(l) => l != [] && forall i :: 0 <= i < |l| ==> NumChar(l[i])
    case Arr(xs) => forall i :: 0 <= i < |xs| ==> WellFormed(xs[i])
    case Obj(ks, m) => NoDup(ks) && Elems(ks) == m.Keys && forall k :: k in m ==> WellFormed(m[k])
    case _ => true
  }

  // ---------- shapes: what is left of a value when key order and some keys are forgotten ----------

  /** Where a value stands: in a schema, in a map of schemas, or in plain data. Flat disregards this. */
  datatype View = Flat | OfSchema | OfSchemas | OfData

  /** The keys that are forgotten, which only schemas (or, seen flat, all objects) can lose. */
  datatype Lens = Lens(view: View, drop: set<string>)

  predicate Drops(l: Lens, key: string) {
    key in l.drop && (l.view.Flat? || l.view.OfSchema?)
  }

  /** Which values a keyword of JSON Schema holds. */
  function KeywordView(key: string): View {
    if key == "properties" || key == "patternProperties" || key == "$defs" || key == "definitions"
      || key == "dependentSchemas" then OfSchemas
    else if key == "items" || key == "additionalProperties" || key == "propertyNames" || key == "not"
      || key == "oneOf" || key == "anyOf" || key == "allOf" || key == "prefixItems" || key == "contains"
      || key == "if" || key == "then" || key == "else" || key == "unevaluatedItems"
      || key == "unevaluatedProperties" then OfSchema
    else OfData
  }

  function ViewBelow(view: View, key: string): View {
    match view
    case Flat => Flat
    case OfSchema => KeywordView(key)
    case OfSchemas => OfSchema
    case OfData => OfData
  }

  function Below(l: Lens, key: string): Lens {
    Lens(ViewBelow(l.view, key), l.drop)
  }

  // The items of an array stand where the array stands.
  function Each(l: Lens): Lens {
    Lens(if l.view.OfSchemas? then OfData else l.view, l.drop)
  }

  /** How the body of a referenced schema is seen. */
  function AtBody(l: Lens): Lens {
    Lens(OfSchema, l.drop)
  }

  function Kept(keys: set<string>, l: Lens): set<string> {
    set k | k in keys && !Drops(l, k)
  }

  datatype Tree =
    | Cut
    | Leaf(value: Json)
    | List(items: seq<Tree>)
    | Map(at: map<string, Tree>)
    | Via(body: Tree)
    | Beside(siblings: map<string, Tree>, body: Tree)

  ghost function Shape(v: Json, l: Lens): Tree
    decreases v
  {
    match v
    case Arr(xs) => List(seq(|xs|, i requires 0 <= i < |xs| => Shape(xs[i], Each(l))))
    case Obj(_, m) => Map(map k | k in m && !Drops(l, k) :: Shape(m[k], Below(l, k)))
    case _ => Leaf(v)
  }

  /** Nothing is forgotten but key order. */
  const EXACT := Lens(Flat, {})

  // ---------- serialization ----------

  function HexDigit(n: nat): char
    requires n < 16
  {
    DIGITS[n]
  }

  /** How JSON.stringify writes one character of a string. */
  function Escape(c: char): string {
    if c == '\"' then ['\\', '\"']
    else if c == '\\' then ['\\', '\\']
    else if c == 8 as char then ['\\', 'b']
    else if c == 9 as char then ['\\', 't']
    else if c == 10 as char then ['\\', 'n']
    else if c == 12 as char then ['\\', 'f']
    else if c == 13 as char then ['\\', 'r']
    else if c < 32 as char then
      ['\\', 'u', '0', '0', HexDigit((c as int) / 16), HexDigit((c as int) % 16)]
    else [c]
  }

  function EscapeAll(s: string): string {
    if s == [] then [] else Escape(s[0]) + EscapeAll(s[1..])
  }

  function Quote(s: string): string {
    ['\"'] + EscapeAll(s) + ['\"']
  }

  function Join(parts: seq<string>): string {
    if parts == [] then []
    else if |parts| == 1 then parts[0]
    else parts[0] + [','] + Join(parts[1..])
  }

  /** JSON.stringify: object keys in their own order. */
  function Stringify(v: Json): string {
    match v
    case Null => "null"
    case Bool(b) => if b then "true" else "false"
    case Num(l) => l
    case Str(s) => Quote(s)
    case Arr(xs) => ['['] + Join(seq(|xs|, i requires 0 <= i < |xs| => Stringify(xs[i]))) + [']']
    case Obj(ks, m) =>
      ['{'] + Join(seq(|ks|, i requires 0 <= i < |ks| =>
        if ks[i] in m then Quote(ks[i]) + [':'] + Stringify(m[ks[i]]) else [])) + ['}']
  }

  /** canonicalJSON: object keys sorted. */
  function CanonicalJSON(v: Json): string {
    match v
    case Arr(xs) => ['['] + Join(seq(|xs|, i requires 0 <= i < |xs| => CanonicalJSON(xs[i]))) + [']']
    case Obj(ks, m) =>
      var sorted := SortKeys(ks);
      ['{'] + Join(seq(|sorted|, i requires 0 <= i < |sorted| =>
        if sorted[i] in m then Quote(sorted[i]) + [':'] + CanonicalJSON(m[sorted[i]]) else [])) + ['}']
    case _ => Stringify(v)
  }

  /** The same value with the keys of every object sorted. */
  function Sorted(v: Json): Json {
    match v
    case Arr(xs) => Arr(seq(|xs|, i requires 0 <= i < |xs| => Sorted(xs[i])))
    case Obj(ks, m) => Obj(SortKeys(ks), map k | k in m :: Sorted(m[k]))
    case _ => v
  }

  // ---------- unique readability ----------

  // What may follow a value inside a JSON text.
  predicate Ends(s: string) {
    s == [] || s[0] == ',' || s[0] == ']' || s[0] == '}'
  }

  // p and q cannot be confused: texts that begin with them part where they end.
  ghost predicate Unambiguous(p: string, q: string) {
    forall r, s :: p + r == q + s && Ends(r) && Ends(s) ==> p == q && r == s
  }

  lemma HexPair(c: char, d: char)
    requires c < 32 as char && d < 32 as char
    requires HexDigit((c as int) / 16) == HexDigit((d as int) / 16)
    requires HexDigit((c as int) % 16) == HexDigit((d as int) % 16)
    ensures c == d
  {
    DigitRoundTrip((c as int) / 16);
    DigitRoundTrip((d as int) / 16);
    DigitRoundTrip((c as int) % 16);
    DigitRoundTrip((d as int) % 16);
  }

  // An escape is told by at most four of its characters.
  lemma EscapeDetermined(c: char, d: char)
    requires Escape(c)[0] == Escape(d)[0]
    requires |Escape(c)| > 1 && |Escape(d)| > 1 ==> Escape(c)[1] == Escape(d)[1]
    requires |Escape(c)| > 2 && |Escape(d)| > 2 ==> Escape(c)[4] == Escape(d)[4] && Escape(c)[5] == Escape(d)[5]
    ensures c == d
  {
    hide HexDigit;
    if |Escape(c)| > 2 && |Escape(d)| > 2 {
      HexPair(c, d);
    }
  }

  lemma EscapePrefixFree(c: char, d: char, r: string, s: string)
    requires Escape(c) + r == Escape(d) + s
    ensures c == d && r == s
  {
    var e, f := Escape(c), Escape(d);
    EscapeLength(c);
    EscapeLength(d);
    hide Escape;
    assert e[0] == (e + r)[0] == (f + s)[0] == f[0];
    if |e| > 1 && |f| > 1 {
      assert e[1] == (e + r)[1] == (f + s)[1] == f[1];
    }
    if |e| > 2 && |f| > 2 {
      assert e[4] == (e + r)[4] == (f + s)[4] == f[4];
      assert e[5] == (e + r)[5] == (f + s)[5] == f[5];
    }
    EscapeDetermined(c, d);
    assert r == (e + r)[|e|..] && s == (f + s)[|f|..];
  }

  lemma EscapeLength(c: char)
    ensures |Escape(c)| == 1 || |Escape(c)| == 2 || |Escape(c)| == 6
  {}

  lemma EscapeStarts(c: char)
    ensures Escape(c) != [] && Escape(c)[0] != '\"'
  {}

  lemma Regroup(a: string, b: string, c: string, d: string)
    ensures (a + b) + c + d == a + (b + c + d)
  {}

  // The text of a string's characters and closing quote, split after the first character.
  lemma EscapeAllSplits(a: string, r: string)
    ensures var t := EscapeAll(a) + ['\"'] + r;
      if a == [] then t == ['\"'] + r
      else t == Escape(a[0]) + (EscapeAll(a[1..]) + ['\"'] + r) && t[0] != '\"'
  {
    hide Escape;
    if a != [] {
      EscapeStarts(a[0]);
      Regroup(Escape(a[0]), EscapeAll(a[1..]), ['\"'], r);
    }
  }

  lemma {:induction false} EscapeAllReads(a: string, b: string, r: string, s: string)
    requires EscapeAll(a) + ['\"'] + r == EscapeAll(b) + ['\"'] + s
    ensures a == b && r == s
  {
    hide Escape;
    EscapeAllSplits(a, r);
    EscapeAllSplits(b, s);
    if a == [] {
      assert r == (['\"'] + r)[1..] && s == (['\"'] + s)[1..];
    } else {
      EscapePrefixFree(a[0], b[0], EscapeAll(a[1..]) + ['\"'] + r, EscapeAll(b[1..]) + ['\"'] + s);
      EscapeAllReads(a[1..], b[1..], r, s);
      assert a == [a[0]] + a[1..] && b == [b[0]] + b[1..];
    }
  }

  lemma QuoteReads(a: string, b: string, r: string, s: string)
    requires Quote(a) + r == Quote(b) + s
    ensures a == b && r == s
  {
    hide EscapeAll;
    WithoutFirst('\"', EscapeAll(a), ['\"'], r);
    WithoutFirst('\"', EscapeAll(b), ['\"'], s);
    EscapeAllReads(a, b, r, s);
  }

  lemma NumReads(a: string, b: string, r: string, s: string)
    requires a + r == b + s && Ends(r) && Ends(s)
    requires forall i :: 0 <= i < |a| ==> NumChar(a[i])
    requires forall i :: 0 <= i < |b| ==> NumChar(b[i])
    ensures a == b && r == s
  {
    var t := a + r;
    assert forall i :: 0 <= i < |a| ==> NumChar(t[i]);
    assert forall i :: 0 <= i < |b| ==> NumChar((b + s)[i]);
    assert r != [] ==> t[|a|] == r[0];
    assert s != [] ==> (b + s)[|b|] == s[0];
    assert |a| == |b|;
    assert a == t[..|a|] && b == t[..|b|] && r == t[|a|..] && s == t[|b|..];
  }

  // What follows the first part of a joined list and of the bracket that closes it.
  ghost function After(ps: seq<string>, close: char, r: string): string
    requires ps != []
  {
    if |ps| == 1 then [close] + r else [','] + (Join(ps[1..]) + [close] + r)
  }

  lemma JoinSplits(ps: seq<string>, close: char, r: string)
    requires close == ']' || close == '}'
    requires forall i :: 0 <= i < |ps| ==> ps[i] != [] && !Ends(ps[i])
    ensures ps == [] ==> Join(ps) + [close] + r == [close] + r
    ensures ps != [] ==> Join(ps) + [close] + r == ps[0] + After(ps, close, r)
    ensures ps != [] ==> Ends(After(ps, close, r)) && !Ends(ps[0] + After(ps, close, r))
  {
    if ps != [] {
      JoinSplitsOff(ps[0], ps[1..], close, r);
      assert ps == [ps[0]] + ps[1..];
      assert ps[0] != [] && !Ends(ps[0]);
    }
  }

  lemma JoinSplitsOff(p: string, rest: seq<string>, close: char, r: string)
    ensures Join([p] + rest) + [close] + r == p + After([p] + rest, close, r)
  {
    var ps := [p] + rest;
    assert ps[1..] == rest;
    if rest == [] {
      assert p + [close] + r == p + ([close] + r);
    } else {
      Regroup5(p, [','], Join(rest), [close], r);
    }
  }

  lemma Regroup5(a: string, b: string, c: string, d: string, e: string)
    ensures a + b + c + d + e == a + (b + (c + d + e))
  {}

  // The first parts read back.
  lemma HeadReads(ps: seq<string>, qs: seq<string>, close: char, r: string, s: string)
    requires close == ']' || close == '}'
    requires Join(ps) + [close] + r == Join(qs) + [close] + s
    requires ps != [] && qs != [] ==> Unambiguous(ps[0], qs[0])
    requires forall i :: 0 <= i < |ps| ==> ps[i] != [] && !Ends(ps[i])
    requires forall j :: 0 <= j < |qs| ==> qs[j] != [] && !Ends(qs[j])
    ensures ps == [] <==> qs == []
    ensures ps == [] ==> r == s
    ensures ps != [] ==> ps[0] == qs[0] && After(ps, close, r) == After(qs, close, s)
  {
    hide Join, After;
    JoinSplits(ps, close, r);
    JoinSplits(qs, close, s);
    assert r == ([close] + r)[1..] && s == ([close] + s)[1..];
  }

  // A list of unambiguous, non-empty parts reads back from its joined text up to the bracket
  // that closes it.
  lemma {:induction false} JoinReads(ps: seq<string>, qs: seq<string>, close: char, r: string, s: string)
    requires close == ']' || close == '}'
    requires Join(ps) + [close] + r == Join(qs) + [close] + s
    requires forall i, j :: 0 <= i < |ps| && 0 <= j < |qs| ==> Unambiguous(ps[i], qs[j])
    requires forall i :: 0 <= i < |ps| ==> ps[i] != [] && !Ends(ps[i])
    requires forall j :: 0 <= j < |qs| ==> qs[j] != [] && !Ends(qs[j])
    ensures ps == qs && r == s
  {
    hide *;
    HeadReads(ps, qs, close, r, s);
    if ps != [] {
      AfterReads(ps, qs, close, r, s);
      if |ps| > 1 { JoinReads(ps[1..], qs[1..], close, r, s); }
      assert ps == [ps[0]] + ps[1..] && qs == [qs[0]] + qs[1..];
    }
  }

  // What follows the first part says whether it is the last one.
  lemma AfterReads(ps: seq<string>, qs: seq<string>, close: char, r: string, s: string)
    requires ps != [] && qs != [] && (close == ']' || close == '}') && After(ps, close, r) == After(qs, close, s)
    ensures |ps| == 1 <==> |qs| == 1
    ensures |ps| == 1 ==> r == s
    ensures |ps| > 1 ==> Join(ps[1..]) + [close] + r == Join(qs[1..]) + [close] + s
  {
    hide Join;
    var x, y := After(ps, close, r), After(qs, close, s);
    assert x[0] == if |ps| == 1 then close else ',';
    assert y[0] == if |qs| == 1 then close else ',';
    assert x[1..] == if |ps| == 1 then r else Join(ps[1..]) + [close] + r;
    assert y[1..] == if |qs| == 1 then s else Join(qs[1..]) + [close] + s;
  }

  lemma ValueStarts(v: Json)
    requires WellFormed(v)
    ensures Stringify(v) != [] && !Ends(Stringify(v))
  {
    if v.Num? { assert NumChar(v.lexeme[0]); }
  }

  ghost function Items(v: Json): seq<string>
    requires v.Arr?
  {
    seq(|v.items|, i requires 0 <= i < |v.items| => Stringify(v.items[i]))
  }

  ghost function Entry(k: string, v: Json): string {
    Quote(k) + [':'] + Stringify(v)
  }

  ghost function Entries(v: Json): seq<string>
    requires v.Obj? && Elems(v.keys) == v.at.Keys
  {
    seq(|v.keys|, i requires 0 <= i < |v.keys| => assert v.keys[i] in Elems(v.keys); Entry(v.keys[i], v.at[v.keys[i]]))
  }

  lemma EntryReads(k: string, v: Json, l: string, w: Json)
    requires Unambiguous(Stringify(v), Stringify(w))
    ensures Unambiguous(Entry(k, v), Entry(l, w))
    ensures Entry(k, v) == Entry(l, w) ==> k == l && Stringify(v) == Stringify(w)
  {
    forall r, s | Entry(k, v) + r == Entry(l, w) + s && Ends(r) && Ends(s)
      ensures Entry(k, v) == Entry(l, w) && r == s && k == l && Stringify(v) == Stringify(w)
    {
      EntryReadsBefore(k, Stringify(v), l, Stringify(w), r, s);
    }
    assert Entry(k, v) + [] == Entry(k, v) && Entry(l, w) + [] == Entry(l, w);
  }

  lemma EntryReadsBefore(k: string, v: string, l: string, w: string, r: string, s: string)
    requires Unambiguous(v, w) && Ends(r) && Ends(s)
    requires Quote(k) + [':'] + v + r == Quote(l) + [':'] + w + s
    ensures k == l && v == w && r == s
  {
    hide Quote, Ends;
    var x, y := [':'] + (v + r), [':'] + (w + s);
    assert Quote(k) + [':'] + v + r == Quote(k) + x;
    assert Quote(l) + [':'] + w + s == Quote(l) + y;
    QuoteReads(k, l, x, y);
    assert x[1..] == v + r && y[1..] == w + s;
  }

  // Unique readability: no JSON text is a proper beginning of another, and a text determines
  // its value.
  lemma {:induction false} Reads(v: Json, w: Json)
    requires WellFormed(v) && WellFormed(w)
    ensures Unambiguous(Stringify(v), Stringify(w))
    ensures Stringify(v) == Stringify(w) ==> v == w
    decreases v, 3
  {
    forall r, s | Stringify(v) + r == Stringify(w) + s && Ends(r) && Ends(s)
      ensures v == w && r == s
    {
      ReadsValue(v, w, r, s);
    }
    assert Stringify(v) + [] == Stringify(v) && Stringify(w) + [] == Stringify(w);
    assert Ends([]);
  }

  lemma {:induction false} ReadsValue(v: Json, w: Json, r: string, s: string)
    requires WellFormed(v) && WellFormed(w)
    requires Stringify(v) + r == Stringify(w) + s && Ends(r) && Ends(s)
    ensures v == w && r == s
    decreases v, 2
  {
    SameKind(v, w, r, s);
    match v
    case Null =>
      assert r == (Stringify(v) + r)[4..] && s == (Stringify(w) + s)[4..];
    case Bool(b) =>
      assert r == (Stringify(v) + r)[if b then 4 else 5..] && s == (Stringify(w) + s)[if w.b then 4 else 5..];
    case Num(l) => NumReads(l, w.lexeme, r, s);
    case Str(t) => QuoteReads(t, w.s, r, s);
    case Arr(xs) => ReadsArray(v, w, r, s);
    case Obj(ks, m) => ReadsObject(v, w, r, s);
  }

  lemma SameKind(v: Json, w: Json, r: string, s: string)
    requires WellFormed(v) && WellFormed(w)
    requires Stringify(v) + r == Stringify(w) + s
    ensures v.Null? <==> w.Null?
    ensures v.Bool? <==> w.Bool?
    ensures v.Bool? ==> v.b == w.b
    ensures v.Num? <==> w.Num?
    ensures v.Str? <==> w.Str?
    ensures v.Arr? <==> w.Arr?
    ensures v.Obj? <==> w.Obj?
  {
    hide Quote;
    ValueStarts(v);
    ValueStarts(w);
    assert (Stringify(v) + r)[0] == Stringify(v)[0] == Stringify(w)[0];
    FirstChar(v);
    FirstChar(w);
  }

  lemma FirstChar(v: Json)
    requires WellFormed(v)
    ensures Stringify(v) != []
    ensures var c := Stringify(v)[0];
      && (c == 'n' <==> v.Null?) && (c == 't' <==> v.Bool? && v.b) && (c == 'f' <==> v.Bool? && !v.b)
      && (NumChar(c) <==> v.Num?) && (c == '\"' <==> v.Str?) && (c == '[' <==> v.Arr?) && (c == '{' <==> v.Obj?)
  {
    if v.Num? { assert NumChar(v.lexeme[0]); }
  }

  lemma {:induction false} ReadsArray(v: Json, w: Json, r: string, s: string)
    requires v.Arr? && w.Arr? && WellFormed(v) && WellFormed(w)
    requires Stringify(v) + r == Stringify(w) + s
    ensures v == w && r == s
    decreases v, 1
  {
    hide Stringify, Unambiguous;
    forall i, j | 0 <= i < |Items(v)| && 0 <= j < |Items(w)|
      ensures Unambiguous(Items(v)[i], Items(w)[j])
      ensures Items(v)[i] == Items(w)[j] ==> v.items[i] == w.items[j]
    {
      Reads(v.items[i], w.items[j]);
    }
    ReadsItems(v, w, r, s);
  }

  lemma ReadsItems(v: Json, w: Json, r: string, s: string)
    requires v.Arr? && w.Arr? && WellFormed(v) && WellFormed(w)
    requires Stringify(v) + r == Stringify(w) + s
    requires forall i, j :: 0 <= i < |Items(v)| && 0 <= j < |Items(w)| ==>
      Unambiguous(Items(v)[i], Items(w)[j]) && (Items(v)[i] == Items(w)[j] ==> v.items[i] == w.items[j])
    ensures v == w && r == s
  {
    hide Unambiguous, Stringify;
    ItemsText(v, r);
    ItemsText(w, s);
    JoinReads(Items(v), Items(w), ']', r, s);
    assert |v.items| == |Items(v)| == |w.items|;
    forall i | 0 <= i < |v.items| ensures v.items[i] == w.items[i] {
      assert Items(v)[i] == Items(w)[i];
    }
    assert v.items == w.items;
  }

  lemma ItemsText(v: Json, r: string)
    requires v.Arr? && WellFormed(v)
    ensures (Stringify(v) + r)[1..] == Join(Items(v)) + [']'] + r
    ensures forall i :: 0 <= i < |Items(v)| ==> Items(v)[i] != [] && !Ends(Items(v)[i])
  {
    forall i | 0 <= i < |v.items| ensures Items(v)[i] != [] && !Ends(Items(v)[i]) { ValueStarts(v.items[i]); }
    assert Stringify(v) == ['['] + Join(Items(v)) + [']'];
  }

  lemma {:induction false} ReadsObject(v: Json, w: Json, r: string, s: string)
    requires v.Obj? && w.Obj? && WellFormed(v) && WellFormed(w)
    requires Stringify(v) + r == Stringify(w) + s
    ensures v == w && r == s
    decreases v, 1
  {
    hide Stringify, Unambiguous, Entry;
    forall i, j | 0 <= i < |Entries(v)| && 0 <= j < |Entries(w)|
      ensures Unambiguous(Entries(v)[i], Entries(w)[j])
      ensures Entries(v)[i] == Entries(w)[j] ==> SameEntry(v, i, w, j)
    {
      ReadsEntry(v, i, w, j);
    }
    ReadsEntries(v, w, r, s);
  }

  lemma {:induction false} ReadsEntry(v: Json, i: nat, w: Json, j: nat)
    requires v.Obj? && w.Obj? && WellFormed(v) && WellFormed(w)
    requires i < |Entries(v)| && j < |Entries(w)|
    ensures Unambiguous(Entries(v)[i], Entries(w)[j])
    ensures Entries(v)[i] == Entries(w)[j] ==> SameEntry(v, i, w, j)
    decreases v, 0
  {
    hide Unambiguous, Stringify;
    assert v.keys[i] in Elems(v.keys) && w.keys[j] in Elems(w.keys);
    Reads(v.at[v.keys[i]], w.at[w.keys[j]]);
    EntryReads(v.keys[i], v.at[v.keys[i]], w.keys[j], w.at[w.keys[j]]);
  }

  lemma ReadsEntries(v: Json, w: Json, r: string, s: string)
    requires v.Obj? && w.Obj? && WellFormed(v) && WellFormed(w)
    requires Stringify(v) + r == Stringify(w) + s
    requires forall i, j :: 0 <= i < |Entries(v)| && 0 <= j < |Entries(w)| ==>
      Unambiguous(Entries(v)[i], Entries(w)[j]) && (Entries(v)[i] == Entries(w)[j] ==> SameEntry(v, i, w, j))
    ensures v == w && r == s
  {
    hide Unambiguous, Stringify, Entry, Elems, NoDup, Join;
    EntriesText(v, r);
    EntriesText(w, s);
    JoinReads(Entries(v), Entries(w), '}', r, s);
    EntriesDetermine(v, w);
  }

  ghost predicate SameEntry(v: Json, i: nat, w: Json, j: nat)
    requires v.Obj? && w.Obj? && i < |v.keys| && j < |w.keys|
  {
    v.keys[i] == w.keys[j] && v.keys[i] in v.at && v.keys[i] in w.at && v.at[v.keys[i]] == w.at[w.keys[j]]
  }

  lemma EntriesDetermine(v: Json, w: Json)
    requires v.Obj? && w.Obj? && Elems(v.keys) == v.at.Keys && Elems(w.keys) == w.at.Keys
    requires Entries(v) == Entries(w)
    requires forall i, j :: 0 <= i < |Entries(v)| && 0 <= j < |Entries(w)| ==>
      (Entries(v)[i] == Entries(w)[j] ==> SameEntry(v, i, w, j))
    ensures v == w
  {
    assert |v.keys| == |Entries(v)| == |w.keys|;
    forall i | 0 <= i < |v.keys| ensures SameEntry(v, i, w, i) && v.keys[i] == w.keys[i] {
      assert Entries(v)[i] == Entries(w)[i];
    }
    assert v.keys == w.keys;
    forall k | k in v.at ensures k in w.at && v.at[k] == w.at[k] {
      assert k in Elems(v.keys);
      var i :| 0 <= i < |v.keys| && v.keys[i] == k;
      assert SameEntry(v, i, w, i);
    }
    assert v.at.Keys == w.at.Keys;
  }

  lemma EntriesText(v: Json, r: string)
    requires v.Obj? && WellFormed(v)
    ensures (Stringify(v) + r)[1..] == Join(Entries(v)) + ['}'] + r
    ensures forall i :: 0 <= i < |Entries(v)| ==> Entries(v)[i] != [] && !Ends(Entries(v)[i])
  {
    EntriesOf(v);
    EntriesAreTexts(v);
    hide *;
    WithoutFirst('{', Join(Entries(v)), ['}'], r);
  }

  lemma WithoutFirst(c: char, a: string, b: string, r: string)
    ensures ([c] + a + b + r)[1..] == a + b + r
  {
    assert [c] + a + b + r == [c] + (a + b + r);
  }

  lemma EntriesOf(v: Json)
    requires v.Obj? && WellFormed(v)
    ensures Stringify(v) == ['{'] + Join(Entries(v)) + ['}']
  {
    hide Quote, Join, NoDup;
    var parts := seq(|v.keys|, i requires 0 <= i < |v.keys| =>
        if v.keys[i] in v.at then Quote(v.keys[i]) + [':'] + Stringify(v.at[v.keys[i]]) else []);
    forall i | 0 <= i < |v.keys| ensures parts[i] == Entries(v)[i] {
      assert v.keys[i] in Elems(v.keys);
    }
    assert parts == Entries(v);
  }

  lemma EntriesAreTexts(v: Json)
    requires v.Obj? && WellFormed(v)
    ensures forall i :: 0 <= i < |Entries(v)| ==> Entries(v)[i] != [] && !Ends(Entries(v)[i])
  {
    hide Stringify, NoDup;
    forall i | 0 <= i < |v.keys| ensures v.keys[i] in v.at { assert v.keys[i] in Elems(v.keys); }
  }

  // Two values print alike exactly when they are the same value with the same key order.
  lemma StringifyInjective(v: Json, w: Json)
    requires WellFormed(v) && WellFormed(w)
    ensures Stringify(v) == Stringify(w) <==> v == w
  {
    Reads(v, w);
  }

  /** A JSON decoder that undoes JSON.stringify. */
  ghost predicate Decodes(parse: string -> Option<Json>) {
    forall v :: WellFormed(v) ==> parse(Stringify(v)) == Some(v)
  }

  ghost function ReadText(t: string): Option<Json> {
    if exists v :: WellFormed(v) && Stringify(v) == t then
      var v :| WellFormed(v) && Stringify(v) == t;
      Some(v)
    else None
  }

  // There is such a decoder, because a text determines its value.
  lemma DecoderExists()
    ensures Decodes(ReadText)
  {
    hide Stringify, WellFormed;
    forall v | WellFormed(v) ensures ReadText(Stringify(v)) == Some(v) {
      var w := ReadText(Stringify(v)).value;
      StringifyInjective(v, w);
    }
  }

  // ---------- canonical text ----------

  lemma {:induction false} SortedWellFormed(v: Json)
    requires WellFormed(v)
    ensures WellFormed(Sorted(v))
    ensures Shape(Sorted(v), EXACT) == Shape(v, EXACT)
  {
    hide Elems, NoDup, SortKeys, KeywordView;
    match v
    case Arr(xs) =>
      forall i | 0 <= i < |xs| ensures WellFormed(Sorted(xs[i])) && Shape(Sorted(xs[i]), EXACT) == Shape(xs[i], EXACT) {
        SortedWellFormed(xs[i]);
      }
    case Obj(ks, m) =>
      forall k | k in m { SortedWellFormed(m[k]); }
      SortedObject(v);
    case _ =>
  }

  lemma SortedObject(v: Json)
    requires v.Obj? && WellFormed(v)
    requires forall k :: k in v.at ==>
      WellFormed(Sorted(v.at[k])) && Shape(Sorted(v.at[k]), EXACT) == Shape(v.at[k], EXACT)
    ensures WellFormed(Sorted(v)) && Shape(Sorted(v), EXACT) == Shape(v, EXACT)
  {
    SortedEntries(v);
    hide *;
    SortedObjectForm(v, Sorted(v));
    SortedObjectShape(v, Sorted(v));
  }

  lemma SortedEntries(v: Json)
    requires v.Obj?
    ensures var w := Sorted(v);
      w.Obj? && w.keys == SortKeys(v.keys) && w.at.Keys == v.at.Keys &&
      forall k :: k in w.at ==> w.at[k] == Sorted(v.at[k])
  {
    hide SortKeys;
  }

  lemma SortedObjectForm(v: Json, w: Json)
    requires v.Obj? && w.Obj? && WellFormed(v) && w.keys == SortKeys(v.keys) && w.at.Keys == v.at.Keys
    requires forall k :: k in w.at ==> WellFormed(w.at[k])
    ensures WellFormed(w)
  {
    SortKeysSorts(v.keys);
    hide Elems, NoDup, SortKeys;
  }

  lemma SortedObjectShape(v: Json, w: Json)
    requires v.Obj? && w.Obj? && w.at.Keys == v.at.Keys
    requires forall k :: k in w.at ==> Shape(w.at[k], EXACT) == Shape(v.at[k], EXACT)
    ensures Shape(w, EXACT) == Shape(v, EXACT)
  {
    hide KeywordView;
    assert Shape(w, EXACT).at == Shape(v, EXACT).at;
  }

  // The sorting serializer is the plain one applied to the sorted value.
  lemma {:induction false} CanonicalIsSorted(v: Json)
    requires WellFormed(v)
    ensures CanonicalJSON(v) == Stringify(Sorted(v))
  {
    match v
    case Arr(xs) =>
      forall i | 0 <= i < |xs| ensures CanonicalJSON(xs[i]) == Stringify(Sorted(xs[i])) {
        CanonicalIsSorted(xs[i]);
      }
      assert seq(|xs|, i requires 0 <= i < |xs| => CanonicalJSON(xs[i])) ==
             seq(|xs|, i requires 0 <= i < |xs| => Stringify(Sorted(v).items[i]));
    case Obj(ks, m) =>
      var sorted := SortKeys(ks);
      SortKeysSorts(ks);
      var w := Sorted(v);
      forall i | 0 <= i < |sorted|
        ensures sorted[i] in m && CanonicalJSON(m[sorted[i]]) == Stringify(w.at[sorted[i]])
      {
        assert sorted[i] in Elems(sorted);
        CanonicalIsSorted(m[sorted[i]]);
      }
      assert seq(|sorted|, i requires 0 <= i < |sorted| =>
          if sorted[i] in m then Quote(sorted[i]) + [':'] + CanonicalJSON(m[sorted[i]]) else []) ==
             seq(|sorted|, i requires 0 <= i < |sorted| =>
          if sorted[i] in w.at then Quote(sorted[i]) + [':'] + Stringify(w.at[sorted[i]]) else []);
    case _ =>
  }

  // Equal shapes have equal tops, and children of equal shape.
  lemma ShapeInverts(v: Json, w: Json, l: Lens)
    requires Shape(v, l) == Shape(w, l)
    ensures v.Arr? <==> w.Arr?
    ensures v.Obj? <==> w.Obj?
    ensures !v.Arr? && !v.Obj? ==> v == w
    ensures v.Arr? ==> |v.items| == |w.items|
    ensures v.Arr? ==> forall i :: 0 <= i < |v.items| ==> Shape(v.items[i], Each(l)) == Shape(w.items[i], Each(l))
    ensures v.Obj? ==> Kept(v.at.Keys, l) == Kept(w.at.Keys, l)
    ensures v.Obj? ==> forall k :: k in Kept(v.at.Keys, l) ==> k in v.at && k in w.at
    ensures v.Obj? ==> forall k :: k in Kept(v.at.Keys, l) ==>
      Shape(v.at[k], Below(l, k)) == Shape(w.at[k], Below(l, k))
  {
    hide Drops, Below, Each;
    if v.Arr? {
      var xs, ys := Shape(v, l).items, Shape(w, l).items;
      assert |v.items| == |xs| == |ys| == |w.items|;
      forall i | 0 <= i < |v.items| ensures Shape(v.items[i], Each(l)) == Shape(w.items[i], Each(l)) {
        assert xs[i] == ys[i];
      }
    } else if v.Obj? {
      var m, n := Shape(v, l).at, Shape(w, l).at;
      assert Kept(v.at.Keys, l) == m.Keys == n.Keys == Kept(w.at.Keys, l);
      forall k | k in Kept(v.at.Keys, l)
        ensures k in v.at && k in w.at && Shape(v.at[k], Below(l, k)) == Shape(w.at[k], Below(l, k))
      {
        assert m[k] == n[k];
      }
    }
  }

  // Equal tops and children of equal shape make equal shapes.
  lemma ShapeBuilds(v: Json, w: Json, l: Lens)
    requires v.Arr? || v.Obj?
    requires v.Arr? ==> w.Arr? && |v.items| == |w.items|
    requires v.Arr? ==> forall i :: 0 <= i < |v.items| ==> Shape(v.items[i], Each(l)) == Shape(w.items[i], Each(l))
    requires v.Obj? ==> w.Obj? && Kept(v.at.Keys, l) == Kept(w.at.Keys, l)
    requires v.Obj? ==> forall k :: k in Kept(v.at.Keys, l) && k in v.at && k in w.at ==>
      Shape(v.at[k], Below(l, k)) == Shape(w.at[k], Below(l, k))
    ensures Shape(v, l) == Shape(w, l)
  {
    hide Drops, Below, Each;
    if v.Arr? {
      assert Shape(v, l).items == Shape(w, l).items;
    } else {
      var m, n := Shape(v, l).at, Shape(w, l).at;
      assert m.Keys == Kept(v.at.Keys, l) && n.Keys == Kept(w.at.Keys, l);
      forall k | k in m.Keys ensures m[k] == n[k] {
        assert k in Kept(v.at.Keys, l) && k in Kept(w.at.Keys, l);
      }
      assert m == n;
    }
  }

  lemma KeptExact(keys: set<string>)
    ensures Kept(keys, EXACT) == keys && forall k :: Below(EXACT, k) == EXACT
    ensures Each(EXACT) == EXACT
  {}

  lemma {:induction false} SameShapeSorted(v: Json, w: Json)
    requires WellFormed(v) && WellFormed(w) && Shape(v, EXACT) == Shape(w, EXACT)
    ensures Sorted(v) == Sorted(w)
  {
    hide Shape, SortKeys, Elems, NoDup, NumChar;
    KeptExact({});
    hide Each, Below, Kept, EXACT;
    ShapeInverts(v, w, EXACT);
    match v
    case Arr(xs) =>
      forall i | 0 <= i < |xs| ensures Sorted(xs[i]) == Sorted(w.items[i]) {
        SameShapeSorted(xs[i], w.items[i]);
      }
      assert Sorted(v).items == Sorted(w).items;
    case Obj(ks, m) =>
      KeptExact(m.Keys);
      KeptExact(w.at.Keys);
      SortKeysUnique(ks, w.keys);
      forall k | k in m ensures Sorted(m[k]) == Sorted(w.at[k]) {
        SameShapeSorted(m[k], w.at[k]);
      }
      assert Sorted(v).at == Sorted(w).at;
    case _ =>
  }

  // canonicalJSON is injective up to key order: equal texts are exactly equal unordered values.
  lemma CanonicalInjective(v: Json, w: Json)
    requires WellFormed(v) && WellFormed(w)
    ensures CanonicalJSON(v) == CanonicalJSON(w) <==> Shape(v, EXACT) == Shape(w, EXACT)
  {
    CanonicalIsSorted(v);
    CanonicalIsSorted(w);
    SortedWellFormed(v);
    SortedWellFormed(w);
    Reads(Sorted(v), Sorted(w));
    if Shape(v, EXACT) == Shape(w, EXACT) { SameShapeSorted(v, w); }
  }

  // ---------- annotations ----------

  const ANNOTATION_KEYS: set<string> :=
    {"default", "description", "title", "example", "examples", "readOnly", "writeOnly", "deprecated"}

  /** What stripAnnotations leaves: annotation keys are forgotten in every object. */
  const STRIPPED := Lens(Flat, ANNOTATION_KEYS)

  /** What a schema says: annotation keywords are forgotten in schemas, and nothing is in data or
      among property names. */
  const SENSE := Lens(OfSchema, ANNOTATION_KEYS)

  function Without(ks: seq<string>, drop: set<string>): seq<string> {
    if ks == [] then []
    else if ks[0] in drop then Without(ks[1..], drop)
    else [ks[0]] + Without(ks[1..], drop)
  }

  /** stripAnnotations: annotation keys dropped from every object, at every level. */
  function StripAnnotations(v: Json): Json {
    match v
    case Arr(xs) => Arr(seq(|xs|, i requires 0 <= i < |xs| => StripAnnotations(xs[i])))
    case Obj(ks, m) =>
      Obj(Without(ks, ANNOTATION_KEYS), map k | k in m && k !in ANNOTATION_KEYS :: StripAnnotations(m[k]))
    case _ => v
  }

  function CanonicalForDedup(v: Json): string {
    CanonicalJSON(StripAnnotations(v))
  }

  /** part lists, once each and in the same order, the keys of `whole` outside drop. */
  ghost predicate ListsRest(part: seq<string>, whole: seq<string>, drop: set<string>) {
    && NoDup(part) && (forall x :: x in part <==> x in whole && x !in drop)
    && forall i, j :: 0 <= i < j < |part| ==> Before(whole, part[i], part[j])
  }

  ghost predicate Before(s: seq<string>, x: string, y: string) {
    exists i, j :: 0 <= i < j < |s| && s[i] == x && s[j] == y
  }

  lemma {:induction false} WithoutListsRest(ks: seq<string>, drop: set<string>)
    requires NoDup(ks)
    ensures ListsRest(Without(ks, drop), ks, drop)
  {
    WithoutKeeps(ks, drop);
    var part := Without(ks, drop);
    forall x ensures x in part <==> x in ks && x !in drop {
      assert x in Elems(part) <==> x in Elems(ks) - drop;
    }
    forall i, j | 0 <= i < j < |part| ensures Before(ks, part[i], part[j]) { WithoutInOrder(ks, drop, i, j); }
  }

  lemma {:induction false} WithoutInOrder(ks: seq<string>, drop: set<string>, i: nat, j: nat)
    requires i < j < |Without(ks, drop)|
    ensures Before(ks, Without(ks, drop)[i], Without(ks, drop)[j])
  {
    hide Before;
    var part := Without(ks, drop);
    if ks[0] in drop {
      WithoutInOrder(ks[1..], drop, i, j);
      BeforeLater(ks, part[i], part[j]);
    } else if i > 0 {
      WithoutInOrder(ks[1..], drop, i - 1, j - 1);
      BeforeLater(ks, part[i], part[j]);
    } else {
      WithoutHas(ks[1..], drop, j - 1);
      FirstIsBefore(ks, part[j]);
    }
  }

  lemma {:induction false} WithoutHas(ks: seq<string>, drop: set<string>, i: nat)
    requires i < |Without(ks, drop)|
    ensures Without(ks, drop)[i] in ks
  {
    if ks[0] in drop {
      WithoutHas(ks[1..], drop, i);
    } else if i > 0 {
      WithoutHas(ks[1..], drop, i - 1);
    }
  }

  lemma FirstIsBefore(s: seq<string>, y: string)
    requires s != [] && y in s[1..]
    ensures Before(s, s[0], y)
  {
    var k :| 0 <= k < |s[1..]| && s[1..][k] == y;
    assert s[k + 1] == y;
  }

  lemma BeforeLater(s: seq<string>, x: string, y: string)
    requires s != [] && Before(s[1..], x, y)
    ensures Before(s, x, y)
  {
    var i, j :| 0 <= i < j < |s[1..]| && s[1..][i] == x && s[1..][j] == y;
    assert s[i + 1] == x && s[j + 1] == y;
  }

  lemma {:induction false} WithoutKeeps(ks: seq<string>, drop: set<string>)
    requires NoDup(ks)
    ensures NoDup(Without(ks, drop)) && Elems(Without(ks, drop)) == Elems(ks) - drop
  {
    if ks != [] {
      WithoutKeeps(ks[1..], drop);
      var rest := Without(ks[1..], drop);
      forall x ensures x in Without(ks, drop) <==> x in ks && x !in drop {
        assert x in rest <==> x in Elems(rest);
        assert x in ks[1..] <==> x in Elems(ks[1..]);
        assert ks == [ks[0]] + ks[1..];
      }
      assert ks[0] !in rest by {
        assert forall x :: x in rest ==> x in Elems(rest);
        assert forall i :: 1 <= i < |ks| ==> ks[i] != ks[0];
        assert forall x :: x in ks[1..] ==> x != ks[0];
      }
    }
  }

  lemma {:induction false} StripShape(v: Json)
    requires WellFormed(v)
    ensures WellFormed(StripAnnotations(v))
    ensures Shape(StripAnnotations(v), EXACT) == Shape(v, STRIPPED)
  {
    hide Without, Elems, NoDup, KeywordView;
    match v
    case Arr(xs) =>
      forall i | 0 <= i < |xs|
        ensures WellFormed(StripAnnotations(xs[i])) && Shape(StripAnnotations(xs[i]), EXACT) == Shape(xs[i], STRIPPED)
      {
        StripShape(xs[i]);
      }
    case Obj(ks, m) =>
      forall k | k in m { StripShape(m[k]); }
      StripObject(v);
    case _ =>
  }

  lemma StripObject(v: Json)
    requires v.Obj? && WellFormed(v)
    requires forall k :: k in v.at ==>
      WellFormed(StripAnnotations(v.at[k])) && Shape(StripAnnotations(v.at[k]), EXACT) == Shape(v.at[k], STRIPPED)
    ensures WellFormed(StripAnnotations(v)) && Shape(StripAnnotations(v), EXACT) == Shape(v, STRIPPED)
  {
    StrippedEntries(v);
    hide *;
    StripObjectForm(v, StripAnnotations(v));
    StripObjectShape(v, StripAnnotations(v));
  }

  lemma StripObjectForm(v: Json, w: Json)
    requires v.Obj? && w.Obj? && WellFormed(v) && w.keys == Without(v.keys, ANNOTATION_KEYS)
    requires w.at.Keys == v.at.Keys - ANNOTATION_KEYS && forall k :: k in w.at ==> WellFormed(w.at[k])
    ensures WellFormed(w)
  {
    WithoutKeeps(v.keys, ANNOTATION_KEYS);
    hide Without, Elems, NoDup, ANNOTATION_KEYS;
  }

  lemma StripObjectShape(v: Json, w: Json)
    requires v.Obj? && w.Obj? && w.at.Keys == v.at.Keys - ANNOTATION_KEYS
    requires forall k :: k in w.at ==> Shape(w.at[k], EXACT) == Shape(v.at[k], STRIPPED)
    ensures Shape(w, EXACT) == Shape(v, STRIPPED)
  {
    hide KeywordView, ANNOTATION_KEYS;
    assert Shape(w, EXACT).at == Shape(v, STRIPPED).at;
  }

  lemma StrippedEntries(v: Json)
    requires v.Obj?
    ensures var w := StripAnnotations(v);
      w.Obj? && w.keys == Without(v.keys, ANNOTATION_KEYS) && w.at.Keys == v.at.Keys - ANNOTATION_KEYS &&
      forall k :: k in w.at ==> w.at[k] == StripAnnotations(v.at[k])
  {
    hide Without, ANNOTATION_KEYS;
  }

  // Two schemas are one hoist target exactly when they agree up to key order and annotations.
  lemma CanonicalForDedupInjective(v: Json, w: Json)
    requires WellFormed(v) && WellFormed(w)
    ensures CanonicalForDedup(v) == CanonicalForDedup(w) <==> Shape(v, STRIPPED) == Shape(w, STRIPPED)
  {
    StripShape(v);
    StripShape(w);
    CanonicalInjective(StripAnnotations(v), StripAnnotations(w));
  }

  // ---------- texts ----------

  lemma EscapeFirst(c: char, s: string, t: string)
    requires t == [c] + s
    ensures EscapeAll(t) == Escape(c) + EscapeAll(s)
  {
    hide Escape;
    assert t[1..] == s;
  }

  lemma KnownEscapes()
    ensures Escape('a') == "a" && Escape('/') == "/" && Escape('\"') == "\\\"" && Escape('\\') == "\\\\"
    ensures Escape('\n') == "\\n" && Escape('\t') == "\\t" && Escape('\r') == "\\r"
    ensures Escape('\U{8}') == "\\b" && Escape('\U{C}') == "\\f" && Escape('\U{1F}') == "\\u001f"
  {}

  lemma NothingToEscape()
    ensures EscapeAll([]) == []
  {}

  lemma KnownString()
    ensures Quote("a\"\\\n\U{1F}") == "\"a\\\"\\\\\\n\\u001f\""
  {
    hide Escape, EscapeAll;
    NothingToEscape();
    KnownEscapes();
    EscapeFirst('\U{1F}', [], ['\U{1F}']);
    EscapeFirst('\n', ['\U{1F}'], ['\n', '\U{1F}']);
    EscapeFirst('\\', ['\n', '\U{1F}'], ['\\', '\n', '\U{1F}']);
    EscapeFirst('\"', ['\\', '\n', '\U{1F}'], ['\"', '\\', '\n', '\U{1F}']);
    EscapeFirst('a', ['\"', '\\', '\n', '\U{1F}'], ['a', '\"', '\\', '\n', '\U{1F}']);
    assert EscapeAll(['\U{1F}']) == "\\u001f";
    assert EscapeAll(['\n', '\U{1F}']) == "\\n\\u001f";
    assert EscapeAll(['\\', '\n', '\U{1F}']) == "\\\\\\n\\u001f";
    assert EscapeAll(['\"', '\\', '\n', '\U{1F}']) == "\\\"\\\\\\n\\u001f";
  }

  lemma KnownControls()
    ensures Quote("\U{8}\t\U{C}\r/") == "\"\\b\\t\\f\\r/\""
  {
    hide Escape, EscapeAll;
    NothingToEscape();
    KnownEscapes();
    EscapeFirst('/', [], ['/']);
    EscapeFirst('\r', ['/'], ['\r', '/']);
    EscapeFirst('\U{C}', ['\r', '/'], ['\U{C}', '\r', '/']);
    EscapeFirst('\t', ['\U{C}', '\r', '/'], ['\t', '\U{C}', '\r', '/']);
    EscapeFirst('\U{8}', ['\t', '\U{C}', '\r', '/'], ['\U{8}', '\t', '\U{C}', '\r', '/']);
    assert EscapeAll(['/']) == "/";
    assert EscapeAll(['\r', '/']) == "\\r/";
    assert EscapeAll(['\U{C}', '\r', '/']) == "\\f\\r/";
    assert EscapeAll(['\t', '\U{C}', '\r', '/']) == "\\t\\f\\r/";
  }

  lemma PairText(a: string, b: string)
    ensures Join([a, b]) == a + "," + b && Join([a]) == a && Join([]) == ""
  {
    assert [a, b][1..] == [b];
  }

  // Texts with every kind of value, as section 25.5.2 of ECMA-262 prescribes them.
  lemma KnownTexts(m: map<string, Json>)
    requires m.Keys == {"k", "e"} && m["k"] == Num("-1.5") && m["e"] == Obj([], map[])
    ensures Stringify(Arr([Null, Bool(true)])) == "[null,true]" && Stringify(Arr([Bool(false)])) == "[false]"
    ensures Stringify(Obj(["k", "e"], m)) == "{\"k\":-1.5,\"e\":{}}"
    ensures Stringify(Str("a\"\\\n\U{1F}")) == "\"a\\\"\\\\\\n\\u001f\""
    ensures Stringify(Str("\U{8}\t\U{C}\r/")) == "\"\\b\\t\\f\\r/\""
  {
    KnownString();
    KnownControls();
    ListTexts();
    ObjectText(m);
    hide Quote;
  }

  lemma ListTexts()
    ensures Stringify(Arr([Null, Bool(true)])) == "[null,true]" && Stringify(Arr([Bool(false)])) == "[false]"
  {
    PairText("null", "true");
    PairText("false", "");
    var xs := [Null, Bool(true)];
    assert seq(|xs|, i requires 0 <= i < |xs| => Stringify(xs[i])) == ["null", "true"];
    var ys := [Bool(false)];
    assert seq(|ys|, i requires 0 <= i < |ys| => Stringify(ys[i])) == ["false"];
    hide Join;
  }

  lemma PlainQuotes()
    ensures Quote("k") == "\"k\"" && Quote("e") == "\"e\""
  {
    assert Escape('k') == "k" && Escape('e') == "e";
    hide Escape;
    assert "k"[1..] == "" && "e"[1..] == "";
  }

  lemma EmptyObjectText()
    ensures Stringify(Obj([], map[])) == "{}"
  {
    var v := Obj([], map[]);
    EntriesOf(v);
    hide Stringify;
    assert |Entries(v)| == 0;
    assert Entries(v) == [];
  }

  lemma EntryTexts()
    ensures Entry("k", Num("-1.5")) == "\"k\":-1.5" && Entry("e", Obj([], map[])) == "\"e\":{}"
  {
    PlainQuotes();
    EmptyObjectText();
    assert Stringify(Num("-1.5")) == "-1.5";
    hide Quote, Stringify;
  }

  lemma SampleWellFormed(m: map<string, Json>)
    requires m.Keys == {"k", "e"} && m["k"] == Num("-1.5") && m["e"] == Obj([], map[])
    ensures WellFormed(Obj(["k", "e"], m))
  {
    assert "k" != "e" && Elems(["k", "e"]) == {"k", "e"};
    assert WellFormed(m["k"]) && WellFormed(m["e"]);
  }

  lemma ObjectText(m: map<string, Json>)
    requires m.Keys == {"k", "e"} && m["k"] == Num("-1.5") && m["e"] == Obj([], map[])
    ensures Stringify(Obj(["k", "e"], m)) == "{\"k\":-1.5,\"e\":{}}"
  {
    var v := Obj(["k", "e"], m);
    SampleWellFormed(m);
    EntriesOf(v);
    EntryTexts();
    PairText("\"k\":-1.5", "\"e\":{}");
    EntryAt(v, 0);
    EntryAt(v, 1);
    hide *;
    assert Entries(v) == ["\"k\":-1.5", "\"e\":{}"];
  }

  lemma EntryAt(v: Json, i: nat)
    requires v.Obj? && Elems(v.keys) == v.at.Keys && i < |v.keys|
    ensures |Entries(v)| == |v.keys| && v.keys[i] in v.at && Entries(v)[i] == Entry(v.keys[i], v.at[v.keys[i]])
  {
    hide Entry;
    assert v.keys[i] in Elems(v.keys);
  }
}
