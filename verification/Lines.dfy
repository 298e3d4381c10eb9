/** Newline-delimited streams: the lines that are seen do not depend on how the stream is cut. */
module Lines {
  import opened Strings
  import opened Json

  const NL := '\n'

  /** The first position of c, or |s|. */
  function IndexOf(s: string, c: char): (i: nat)
    ensures i <= |s| && c !in s[..i] && (i < |s| ==> s[i] == c)
  {
    if s == [] || s[0] == c then 0
    else
      var i := IndexOf(s[1..], c);
      assert s[..i + 1] == [s[0]] + s[1..][..i];
      i + 1
  }

  /** The complete lines of a stream, without their newlines. */
  function LinesOf(s: string): seq<string>
    decreases |s|
  {
    var i := IndexOf(s, NL);
    if i == |s| then [] else [s[..i]] + LinesOf(s[i + 1..])
  }

  /** What follows the last newline. */
  function RestOf(s: string): string
    decreases |s|
  {
    var i := IndexOf(s, NL);
    if i == |s| then s else RestOf(s[i + 1..])
  }

  function Unlines(lines: seq<string>): string {
    if lines == [] then [] else lines[0] + [NL] + Unlines(lines[1..])
  }

  lemma {:induction false} IndexOfConcat(a: string, b: string, c: char)
    requires c !in a
    ensures IndexOf(a + [c] + b, c) == |a|
  {
    var s := a + [c] + b;
    if a != [] {
      assert s[0] == a[0] && a[0] in a && s[1..] == a[1..] + [c] + b;
      IndexOfConcat(a[1..], b, c);
    }
  }

  lemma {:induction false} IndexOfNone(s: string, c: char)
    requires c !in s
    ensures IndexOf(s, c) == |s|
  {
    if s != [] {
      assert s[0] in s;
      IndexOfNone(s[1..], c);
    }
  }

  // The first line of a stream, and the stream after it.
  lemma FirstLine(line: string, tail: string)
    requires NL !in line
    ensures LinesOf(line + [NL] + tail) == [line] + LinesOf(tail) && RestOf(line + [NL] + tail) == RestOf(tail)
  {
    IndexOfConcat(line, tail, NL);
    hide IndexOf;
    var s := line + [NL] + tail;
    assert s[..|line|] == line && s[|line| + 1..] == tail;
  }

  lemma NoLine(s: string)
    requires NL !in s
    ensures LinesOf(s) == [] && RestOf(s) == s
  {
    IndexOfNone(s, NL);
  }

  lemma UnlinesFirst(line: string, lines: seq<string>, rest: string)
    ensures Unlines([line] + lines) + rest == line + [NL] + (Unlines(lines) + rest)
  {
    assert ([line] + lines)[1..] == lines;
    Regroup(line + [NL], Unlines(lines), rest, []);
  }

  // Lines and rest put together are the stream, and neither holds a newline.
  lemma {:induction false} StreamSplits(s: string)
    ensures s == Unlines(LinesOf(s)) + RestOf(s)
    ensures NL !in RestOf(s) && forall i :: 0 <= i < |LinesOf(s)| ==> NL !in LinesOf(s)[i]
    decreases |s|
  {
    hide IndexOf, Unlines, LinesOf, RestOf;
    var i := IndexOf(s, NL);
    if i < |s| {
      var line, tail := s[..i], s[i + 1..];
      StreamSplits(tail);
      UnlinesFirst(line, LinesOf(tail), RestOf(tail));
      assert s == line + [NL] + tail;
      FirstLine(line, tail);
    } else {
      assert s[..i] == s;
      NoLine(s);
      UnlinesEmpty();
      assert [] + s == s;
    }
  }

  lemma UnlinesEmpty()
    ensures Unlines([]) == []
  {}

  // And no other lines and rest are.
  lemma {:induction false} LinesUnique(lines: seq<string>, rest: string)
    requires NL !in rest && forall i :: 0 <= i < |lines| ==> NL !in lines[i]
    ensures LinesOf(Unlines(lines) + rest) == lines && RestOf(Unlines(lines) + rest) == rest
  {
    hide LinesOf, RestOf, Unlines;
    UnlinesEmpty();
    if lines == [] {
      assert [] + rest == rest;
      NoLine(rest);
    } else {
      assert lines == [lines[0]] + lines[1..];
      LinesUnique(lines[1..], rest);
      UnlinesFirst(lines[0], lines[1..], rest);
      FirstLine(lines[0], Unlines(lines[1..]) + rest);
    }
  }

  lemma {:induction false} UnlinesConcat(a: seq<string>, b: seq<string>, rest: string)
    ensures Unlines(a + b) + rest == Unlines(a) + (Unlines(b) + rest)
  {
    hide Unlines;
    UnlinesEmpty();
    if a == [] {
      assert a + b == b;
      assert [] + (Unlines(b) + rest) == Unlines(b) + rest;
    } else {
      UnlinesConcat(a[1..], b, rest);
      assert a == [a[0]] + a[1..] && a + b == [a[0]] + (a[1..] + b);
      UnlinesFirst(a[0], a[1..] + b, rest);
      UnlinesFirst(a[0], a[1..], Unlines(b) + rest);
    }
  }

  // Reading a stream in two pieces yields the lines of the whole, the rest carried over.
  lemma LinesInTwo(a: string, b: string)
    ensures LinesOf(a + b) == LinesOf(a) + LinesOf(RestOf(a) + b)
    ensures RestOf(a + b) == RestOf(RestOf(a) + b)
  {
    hide LinesOf, RestOf, Unlines;
    var lines, more := LinesOf(a), LinesOf(RestOf(a) + b);
    var rest := RestOf(RestOf(a) + b);
    StreamSplits(a);
    StreamSplits(RestOf(a) + b);
    UnlinesConcat(lines, more, rest);
    Regroup(Unlines(lines), RestOf(a), b, []);
    assert a + b == Unlines(lines) + (RestOf(a) + b);
    assert a + b == Unlines(lines + more) + rest;
    LinesUnique(lines + more, rest);
  }

  function Concat(chunks: seq<string>): string {
    if chunks == [] then [] else chunks[0] + Concat(chunks[1..])
  }

  // ---------- white space at the ends ----------

  /** Drops the characters that are space at both ends. */
  function Trim(s: string, space: char -> bool): string {
    if s == [] then []
    else if space(s[0]) then Trim(s[1..], space)
    else TrimRight(s, space)
  }

  function TrimRight(s: string, space: char -> bool): string {
    if s != [] && space(s[|s| - 1]) then TrimRight(s[..|s| - 1], space) else s
  }

  lemma TrimNothing(s: string, space: char -> bool)
    requires s != [] ==> !space(s[0]) && !space(s[|s| - 1])
    ensures Trim(s, space) == s
  {}

  ghost predicate IsPadding(s: string, space: char -> bool) {
    forall i :: 0 <= i < |s| ==> space(s[i])
  }

  // What is trimmed off is exactly the space at the ends, and of space nothing is left.
  lemma {:induction false} TrimPadded(before: string, text: string, after: string, space: char -> bool)
    requires IsPadding(before, space) && IsPadding(after, space)
    requires text != "" ==> !space(text[0]) && !space(text[|text| - 1])
    ensures Trim(before + text + after, space) == text
  {
    var s := before + text + after;
    if before == "" {
      assert s == text + after;
      if text == "" {
        assert s == after;
        TrimAll(after, space);
      } else {
        TrimAfter(text, after, space);
      }
    } else {
      assert s[0] == before[0] && s[1..] == before[1..] + text + after;
      TrimPadded(before[1..], text, after, space);
    }
  }

  lemma {:induction false} TrimAll(s: string, space: char -> bool)
    requires IsPadding(s, space)
    ensures Trim(s, space) == ""
  {
    if s != "" { TrimAll(s[1..], space); }
  }

  lemma {:induction false} TrimAfter(text: string, after: string, space: char -> bool)
    requires text != "" && !space(text[|text| - 1]) && IsPadding(after, space)
    ensures TrimRight(text + after, space) == text
  {
    var s := text + after;
    if after == "" {
      assert s == text;
    } else {
      assert s[..|s| - 1] == text + after[..|after| - 1];
      TrimAfter(text, after[..|after| - 1], space);
    }
  }

  // ---------- JSON texts are lines ----------

  lemma EscapeIsPlain(c: char)
    ensures NL !in Escape(c)
  {
    assert forall n: nat :: n < 16 ==> HexDigit(n) != NL;
  }

  lemma {:induction false} EscapeAllIsPlain(s: string)
    ensures NL !in EscapeAll(s)
  {
    hide Escape;
    if s != [] {
      EscapeIsPlain(s[0]);
      EscapeAllIsPlain(s[1..]);
    }
  }

  lemma {:induction false} JoinIsPlain(parts: seq<string>)
    requires forall i :: 0 <= i < |parts| ==> NL !in parts[i]
    ensures NL !in Join(parts)
  {
    if |parts| > 1 { JoinIsPlain(parts[1..]); }
  }

  // JSON.stringify writes no newline, whatever the strings inside hold.
  lemma {:induction false} StringifyIsLine(v: Json)
    requires WellFormed(v)
    ensures NL !in Stringify(v)
  {
    hide Elems, NoDup, EscapeAll, Join;
    match v
    case Str(s) => EscapeAllIsPlain(s);
    case Num(l) => assert forall i :: 0 <= i < |l| ==> NumChar(l[i]);
    case Arr(xs) =>
      forall i | 0 <= i < |xs| ensures NL !in Stringify(xs[i]) { StringifyIsLine(xs[i]); }
      JoinIsPlain(seq(|xs|, i requires 0 <= i < |xs| => Stringify(xs[i])));
    case Obj(ks, m) =>
      var parts := seq(|ks|, i requires 0 <= i < |ks| =>
        if ks[i] in m then Quote(ks[i]) + [':'] + Stringify(m[ks[i]]) else []);
      forall i | 0 <= i < |ks| ensures NL !in parts[i] {
        EscapeAllIsPlain(ks[i]);
        if ks[i] in m { StringifyIsLine(m[ks[i]]); }
      }
      JoinIsPlain(parts);
    case _ =>
  }

  lemma BracketsEnd(v: Json)
    requires v.Arr? || v.Obj?
    ensures Stringify(v) != [] && (Stringify(v)[0] == '[' || Stringify(v)[0] == '{')
    ensures Stringify(v)[|Stringify(v)| - 1] == ']' || Stringify(v)[|Stringify(v)| - 1] == '}'
  {}
}
