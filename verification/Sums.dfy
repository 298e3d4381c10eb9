/** Sums over sequences and over maps, where the order of the keys cannot matter. */
module Sums {
  import opened Strings

  ghost function SumSeq(s: seq<nat>): nat {
    if s == [] then 0 else s[0] + SumSeq(s[1..])
  }

  ghost function Total(m: map<string, nat>): nat {
    if m.Keys == {} then 0
    else
      var k :| k in m.Keys;
      assert (m - {k}).Keys == m.Keys - {k};
      m[k] + Total(m - {k})
  }

  lemma {:induction false} TotalWithout(m: map<string, nat>, k: string)
    requires k in m
    ensures Total(m) == m[k] + Total(m - {k})
    decreases m.Keys
  {
    var j :| j in m.Keys && Total(m) == m[j] + Total(m - {j});
    if j != k {
      TotalWithout(m - {j}, k);
      TotalWithout(m - {k}, j);
      assert m - {j} - {k} == m - {k} - {j};
    }
  }

  ghost function Values(ks: seq<string>, m: map<string, nat>): (s: seq<nat>)
    ensures |s| == |ks|
  {
    seq(|ks|, i requires 0 <= i < |ks| => if ks[i] in m then m[ks[i]] else 0)
  }

  // The sum over a listing of the keys is the sum over the map.
  lemma {:induction false} SumSeqIsTotal(ks: seq<string>, m: map<string, nat>)
    requires NoDup(ks) && Elems(ks) == m.Keys
    ensures SumSeq(Values(ks, m)) == Total(m)
    decreases |ks|
  {
    if ks != [] {
      var k, rest := ks[0], ks[1..];
      FirstKey(ks, m);
      SumSeqIsTotal(rest, m - {k});
      TotalWithout(m, k);
    }
  }

  lemma FirstKey(ks: seq<string>, m: map<string, nat>)
    requires ks != [] && NoDup(ks) && Elems(ks) == m.Keys
    ensures ks[0] in m && Values(ks, m)[0] == m[ks[0]]
    ensures NoDup(ks[1..]) && Elems(ks[1..]) == (m - {ks[0]}).Keys
    ensures Values(ks, m)[1..] == Values(ks[1..], m - {ks[0]})
  {
    assert ks[0] in Elems(ks);
    assert ks[0] !in ks[1..] by { assert forall i :: 1 <= i < |ks| ==> ks[i] != ks[0]; }
    RestOfKeys(ks);
    hide Elems, NoDup;
    forall i | 0 <= i < |ks| - 1 ensures ks[1..][i] != ks[0] { assert ks[1..][i] in ks[1..]; }
    assert Values(ks, m)[1..] == Values(ks[1..], m - {ks[0]});
  }

  lemma RestOfKeys(ks: seq<string>)
    requires ks != [] && NoDup(ks)
    ensures Elems(ks[1..]) == Elems(ks) - {ks[0]}
  {
    assert ks == [ks[0]] + ks[1..];
    assert forall i :: 1 <= i < |ks| ==> ks[i] != ks[0];
  }

  lemma {:induction false} TotalLinear(a: map<string, nat>, b: map<string, nat>, c: map<string, nat>, w: nat)
    requires a.Keys == b.Keys == c.Keys
    requires forall k :: k in a ==> a[k] + b[k] * w == c[k]
    ensures Total(a) + Total(b) * w == Total(c)
    decreases a.Keys
  {
    if a.Keys == {} {
      assert Total(b) == 0;
    } else {
      var k :| k in a.Keys;
      TotalWithout(a, k);
      TotalWithout(b, k);
      TotalWithout(c, k);
      TotalLinear(a - {k}, b - {k}, c - {k}, w);
      Distribute(b[k], Total(b - {k}), w);
    }
  }

  lemma Distribute(x: nat, y: nat, w: nat)
    ensures (x + y) * w == x * w + y * w
  {}

  lemma {:induction false} SumLinear(a: seq<nat>, b: seq<nat>, c: seq<nat>, w: nat)
    requires |a| == |b| == |c|
    requires forall i :: 0 <= i < |a| ==> a[i] + b[i] * w == c[i]
    ensures SumSeq(a) + SumSeq(b) * w == SumSeq(c)
  {
    if a != [] {
      SumLinear(a[1..], b[1..], c[1..], w);
      Distribute(b[0], SumSeq(b[1..]), w);
    }
  }

  lemma {:induction false} SumSeqConcat(s: seq<nat>, t: seq<nat>)
    ensures SumSeq(s + t) == SumSeq(s) + SumSeq(t)
  {
    if s == [] {
      assert s + t == t;
    } else {
      SumSeqConcat(s[1..], t);
      assert (s + t)[1..] == s[1..] + t;
    }
  }

  // A sum is zero exactly when every term is.
  lemma {:induction false} SumSeqZero(s: seq<nat>)
    ensures SumSeq(s) == 0 <==> forall i :: 0 <= i < |s| ==> s[i] == 0
  {
    if s != [] {
      SumSeqZero(s[1..]);
      assert s == [s[0]] + s[1..];
    }
  }

  lemma {:induction false} TotalZero(m: map<string, nat>)
    ensures Total(m) == 0 <==> forall k :: k in m ==> m[k] == 0
    decreases m.Keys
  {
    if m.Keys != {} {
      var k :| k in m.Keys;
      TotalWithout(m, k);
      TotalZero(m - {k});
      assert forall j :: j in m ==> j == k || (j in m - {k} && (m - {k})[j] == m[j]);
    }
  }
}
