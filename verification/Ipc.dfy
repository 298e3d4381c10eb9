/** The newline-delimited JSON protocol between a worker and its parent, and how responses find their
    requests. */
module Ipc {
  import opened Strings
  import opened Json
  import opened Lines

  // ---------- reading messages ----------

  /** What String.prototype.trim cuts off. */
  predicate IsSpace(c: char) {
    '\t' <= c <= '\r' || c == ' ' || c == '\U{A0}' || c == '\U{1680}' || '\U{2000}' <= c <= '\U{200A}'
    || c == '\U{2028}' || c == '\U{2029}' || c == '\U{202F}' || c == '\U{205F}' || c == '\U{3000}' || c == '\U{FEFF}'
  }

  /** White space and line terminators of ECMA-262, sections 12.2 and 12.3. */
  const SPACES: set<char> :=
    {'\U{9}', '\U{A}', '\U{B}', '\U{C}', '\U{D}', ' ', '\U{A0}', '\U{1680}', '\U{2000}', '\U{2001}', '\U{2002}',
     '\U{2003}', '\U{2004}', '\U{2005}', '\U{2006}', '\U{2007}', '\U{2008}', '\U{2009}', '\U{200A}', '\U{2028}',
     '\U{2029}', '\U{202F}', '\U{205F}', '\U{3000}', '\U{FEFF}'}

  lemma SpacesAre(c: char)
    ensures IsSpace(c) <==> c in SPACES
  {}

  /** The two readers: the core worker trims a line before parsing it, the bridge only to see whether
      it is empty. */
  datatype Reader = CoreWorker | Bridge

  /** The message on a line, if there is one; parse is JSON.parse. */
  function MessageOn(reader: Reader, line: string, parse: string -> Option<Json>): Option<Json> {
    var trimmed := Trim(line, IsSpace);
    if trimmed == "" then None else if reader.CoreWorker? then parse(trimmed) else parse(line)
  }

  // A line of white space holds no message. Of any other line the core worker parses what is left without the
  // white space around it, and the bridge all of it.
  lemma MessageOnLine(line: string, before: string, text: string, after: string, parse: string -> Option<Json>)
    requires line == before + text + after && IsPadding(before, IsSpace) && IsPadding(after, IsSpace)
    requires text != "" ==> !IsSpace(text[0]) && !IsSpace(text[|text| - 1])
    ensures MessageOn(CoreWorker, line, parse) == if text == "" then None else parse(text)
    ensures MessageOn(Bridge, line, parse) == if text == "" then None else parse(line)
  {
    TrimPadded(before, text, after, IsSpace);
    hide IsSpace;
  }

  function MessagesOn(reader: Reader, lines: seq<string>, parse: string -> Option<Json>): seq<Json> {
    if lines == [] then [] else AsSeq(MessageOn(reader, lines[0], parse)) + MessagesOn(reader, lines[1..], parse)
  }

  function AsSeq(v: Option<Json>): seq<Json> {
    if v.Some? then [v.value] else []
  }

  lemma {:induction false} MessagesConcat(reader: Reader, a: seq<string>, b: seq<string>, parse: string -> Option<Json>)
    ensures MessagesOn(reader, a + b, parse) == MessagesOn(reader, a, parse) + MessagesOn(reader, b, parse)
  {
    hide MessageOn, AsSeq;
    if a == [] {
      assert a + b == b;
    } else {
      Reassociate(AsSeq(MessageOn(reader, a[0], parse)), MessagesOn(reader, a[1..], parse),
        MessagesOn(reader, b, parse));
      MessagesConcat(reader, a[1..], b, parse);
      assert (a + b)[1..] == a[1..] + b;
    }
  }

  class Connection {
    const reader: Reader
    const parse: string -> Option<Json>
    var buffer: string
    var received: seq<Json>

    constructor (reader: Reader, parse: string -> Option<Json>)
      ensures this.reader == reader && this.parse == parse && buffer == [] && received == []
    {
      this.reader, this.parse := reader, parse;
      buffer, received := [], [];
    }

    /** The data handler of the socket. */
    method OnData(data: string)
      modifies this
      ensures buffer == RestOf(old(buffer) + data)
      ensures received == old(received) + MessagesOn(reader, LinesOf(old(buffer) + data), parse)
    {
      hide MessageOn, IndexOf;
      buffer := buffer + data;
      ghost var all := buffer;
      var idx := IndexOf(buffer, NL);
      while idx < |buffer|
        invariant idx == IndexOf(buffer, NL) && RestOf(buffer) == RestOf(all)
        invariant received + MessagesOn(reader, LinesOf(buffer), parse) ==
          old(received) + MessagesOn(reader, LinesOf(all), parse)
        decreases |buffer|
      {
        var line := buffer[..idx];
        assert LinesOf(buffer) == [line] + LinesOf(buffer[idx + 1..]);
        assert LinesOf(buffer)[0] == line && LinesOf(buffer)[1..] == LinesOf(buffer[idx + 1..]);
        buffer := buffer[idx + 1..];
        match MessageOn(reader, line, parse) {
          case Some(v) => received := received + [v];
          case None =>
        }
        idx := IndexOf(buffer, NL);
      }
    }
  }

  /** Messages delivered from successive pieces of data, and the buffer that is left. */
  ghost function Feed(reader: Reader, buffer: string, chunks: seq<string>, parse: string -> Option<Json>): (seq<Json>,
                      string)
    decreases |chunks|
  {
    if chunks == [] then ([], buffer)
    else
      var (ms, rest) := Feed(reader, RestOf(buffer + chunks[0]), chunks[1..], parse);
      (MessagesOn(reader, LinesOf(buffer + chunks[0]), parse) + ms, rest)
  }

  /** Data that arrives piece by piece. */
  method OnAllData(c: Connection, chunks: seq<string>)
    modifies c
    ensures (c.received, c.buffer)
      == (old(c.received) + Feed(c.reader, old(c.buffer), chunks, c.parse).0,
        Feed(c.reader, old(c.buffer), chunks, c.parse).1)
  {
    hide MessagesOn, LinesOf, RestOf;
    ghost var all := Feed(c.reader, c.buffer, chunks, c.parse);
    assert chunks[0..] == chunks;
    var i := 0;
    while i < |chunks|
      invariant 0 <= i <= |chunks|
      invariant c.received + Feed(c.reader, c.buffer, chunks[i..], c.parse).0 == old(c.received) + all.0
      invariant Feed(c.reader, c.buffer, chunks[i..], c.parse).1 == all.1
    {
      assert chunks[i..][0] == chunks[i] && chunks[i..][1..] == chunks[i + 1..];
      ghost var rest := Feed(c.reader, RestOf(c.buffer + chunks[i]), chunks[i + 1..], c.parse);
      Reassociate(c.received, MessagesOn(c.reader, LinesOf(c.buffer + chunks[i]), c.parse), rest.0);
      c.OnData(chunks[i]);
      i := i + 1;
    }
    assert Feed(c.reader, c.buffer, chunks[i..], c.parse) == ([], c.buffer);
    assert c.received + [] == c.received;
  }

  // The messages seen do not depend on how the data is cut.
  lemma {:induction false} ChunksDoNotMatter(reader: Reader, buffer: string, chunks: seq<string>,
                                             parse: string -> Option<Json>)
    requires NL !in buffer
    ensures Feed(reader, buffer, chunks, parse)
      == (MessagesOn(reader, LinesOf(buffer + Concat(chunks)), parse), RestOf(buffer + Concat(chunks)))
    decreases |chunks|
  {
    if chunks == [] {
      hide LinesOf, RestOf, MessagesOn;
      assert buffer + [] == buffer;
      NoLine(buffer);
      NoMessages(reader, parse);
    } else {
      var a, b := buffer + chunks[0], Concat(chunks[1..]);
      assert buffer + Concat(chunks) == a + b;
      FeedFirst(reader, buffer, chunks, parse);
      hide *;
      StreamSplits(a);
      ChunksDoNotMatter(reader, RestOf(a), chunks[1..], parse);
      LinesInTwo(a, b);
      MessagesConcat(reader, LinesOf(a), LinesOf(RestOf(a) + b), parse);
    }
  }

  lemma NoMessages(reader: Reader, parse: string -> Option<Json>)
    ensures MessagesOn(reader, [], parse) == []
  {}

  lemma FeedFirst(reader: Reader, buffer: string, chunks: seq<string>, parse: string -> Option<Json>)
    requires chunks != []
    ensures var a := buffer + chunks[0];
      var later := Feed(reader, RestOf(a), chunks[1..], parse);
      Feed(reader, buffer, chunks, parse) == (MessagesOn(reader, LinesOf(a), parse) + later.0, later.1)
  {
    hide LinesOf, RestOf, MessagesOn;
  }

  // ---------- sending ----------

  /** What send writes for a list of messages. */
  function SendAll(ms: seq<Json>): string {
    if ms == [] then [] else Stringify(ms[0]) + [NL] + SendAll(ms[1..])
  }

  function Texts(ms: seq<Json>): seq<string> {
    seq(|ms|, i requires 0 <= i < |ms| => Stringify(ms[i]))
  }

  lemma {:induction false} SentIsLines(ms: seq<Json>)
    ensures SendAll(ms) == Unlines(Texts(ms))
  {
    hide Stringify;
    if ms != [] {
      SentIsLines(ms[1..]);
      assert Texts(ms)[1..] == Texts(ms[1..]);
    }
  }

  lemma MessageReads(reader: Reader, v: Json, parse: string -> Option<Json>)
    requires WellFormed(v) && v.Obj? && Decodes(parse)
    ensures NL !in Stringify(v) && MessageOn(reader, Stringify(v), parse) == Some(v)
  {
    hide Stringify, WellFormed;
    StringifyIsLine(v);
    BracketsEnd(v);
    TrimNothing(Stringify(v), IsSpace);
  }

  lemma {:induction false} TextsRead(reader: Reader, ms: seq<Json>, parse: string -> Option<Json>)
    requires (forall i :: 0 <= i < |ms| ==> WellFormed(ms[i]) && ms[i].Obj?) && Decodes(parse)
    ensures MessagesOn(reader, Texts(ms), parse) == ms
  {
    hide Stringify, WellFormed, MessageOn, Decodes;
    if ms != [] {
      MessageReads(reader, ms[0], parse);
      TextsRead(reader, ms[1..], parse);
      assert Texts(ms)[1..] == Texts(ms[1..]);
      assert ms == [ms[0]] + ms[1..];
    }
  }

  // Messages sent, cut anywhere and read by either reader arrive as the same messages in order.
  lemma MessagesSurvive(reader: Reader, ms: seq<Json>, chunks: seq<string>, parse: string -> Option<Json>)
    requires (forall i :: 0 <= i < |ms| ==> WellFormed(ms[i]) && ms[i].Obj?) && Decodes(parse)
    requires Concat(chunks) == SendAll(ms)
    ensures Feed(reader, [], chunks, parse) == (ms, [])
  {
    hide Stringify, WellFormed, MessagesOn, Decodes, Unlines, LinesOf, RestOf;
    ChunksDoNotMatter(reader, [], chunks, parse);
    assert [] + Concat(chunks) == SendAll(ms);
    SentIsLines(ms);
    forall i | 0 <= i < |ms| ensures NL !in Texts(ms)[i] { MessageReads(reader, ms[i], parse); }
    LinesUnique(Texts(ms), []);
    assert Unlines(Texts(ms)) + [] == Unlines(Texts(ms));
    TextsRead(reader, ms, parse);
  }

  // ---------- requests and responses ----------

  /** A request is settled by a response or by its own timer. */
  datatype Result = Resolved(body: Json) | Failed(error: Json) | TimedOut

  datatype Event =
    | Send(id: string)
    | Response(id: string, success: bool, body: Json)
    | Timeout(id: string)

  datatype Requests = Requests(
    sent: set<string>, pending: set<string>, armed: set<string>, settled: map<string, seq<Result>>)

  function ResultOf(e: Event): Result {
    match e
    case Response(_, success, body) => if success then Resolved(body) else Failed(body)
    case _ => TimedOut
  }

  // One more resolve or reject call for the promise of id.
  function Settle(settled: map<string, seq<Result>>, id: string, r: Result): map<string, seq<Result>> {
    settled[id := (if id in settled then settled[id] else []) + [r]]
  }

  /** One event. Identifiers are never reused, and a timer that is not armed does not fire. */
  function Next(s: Requests, e: Event): Requests {
    match e
    case Send(id) =>
      if id in s.sent then s else s.(sent := s.sent + {id}, pending := s.pending + {id}, armed := s.armed + {id})
    case Response(id, _, _) =>
      if id !in s.pending then s
      else s.(pending := s.pending - {id}, armed := s.armed - {id}, settled := Settle(s.settled, id, ResultOf(e)))
    case Timeout(id) =>
      if id !in s.armed then s
      else s.(pending := s.pending - {id}, armed := s.armed - {id}, settled := Settle(s.settled, id, TimedOut))
  }

  function StateAfter(es: seq<Event>): Requests {
    if es == [] then Requests({}, {}, {}, map[]) else Next(StateAfter(es[..|es| - 1]), es[|es| - 1])
  }

  class CoreRequests {
    var sent: set<string>
    var pendingCoreRequests: set<string>
    var timers: set<string>
    var settled: map<string, seq<Result>>

    constructor ()
      ensures Value() == StateAfter([])
    {
      sent, pendingCoreRequests, timers, settled := {}, {}, {}, map[];
    }

    ghost function Value(): Requests
      reads this
    {
      Requests(sent, pendingCoreRequests, timers, settled)
    }

    /** sendIpcRequest, with a fresh identifier */
    method SendIpcRequest(id: string)
      requires id !in sent
      modifies this
      ensures Value() == Next(old(Value()), Send(id))
    {
      sent := sent + {id};
      timers := timers + {id};
      pendingCoreRequests := pendingCoreRequests + {id};
    }

    method ResolveCoreResponse(id: string, success: bool, body: Json)
      modifies this
      ensures Value() == Next(old(Value()), Response(id, success, body))
    {
      if id !in pendingCoreRequests { return; }
      timers := timers - {id};
      pendingCoreRequests := pendingCoreRequests - {id};
      if success {
        settled := Settle(settled, id, Resolved(body));
      } else {
        settled := Settle(settled, id, Failed(body));
      }
    }

    method OnTimeout(id: string)
      requires id in timers
      modifies this
      ensures Value() == Next(old(Value()), Timeout(id))
    {
      timers := timers - {id};
      pendingCoreRequests := pendingCoreRequests - {id};
      settled := Settle(settled, id, TimedOut);
    }
  }

  // The events of es after the request id was first sent.
  function SinceSent(es: seq<Event>, id: string): Option<seq<Event>> {
    if es == [] then None else if es[0] == Send(id) then Some(es[1..]) else SinceSent(es[1..], id)
  }

  predicate Decides(e: Event, id: string) {
    !e.Send? && e.id == id
  }

  /** The first response or timeout of id. */
  function FirstDecision(es: seq<Event>, id: string): Option<Result> {
    if es == [] then None
    else if Decides(es[0], id) then Some(ResultOf(es[0]))
    else FirstDecision(es[1..], id)
  }

  lemma {:induction false} SinceSentSnoc(es: seq<Event>, e: Event, id: string)
    ensures SinceSent(es + [e], id)
      == match SinceSent(es, id)
         case Some(later) => Some(later + [e])
         case None => if e == Send(id) then Some([]) else None
  {
    if es == [] {
      assert ([] + [e])[1..] == [];
    } else {
      assert (es + [e])[1..] == es[1..] + [e];
      SinceSentSnoc(es[1..], e, id);
    }
  }

  lemma {:induction false} FirstDecisionSnoc(es: seq<Event>, e: Event, id: string)
    ensures FirstDecision(es + [e], id)
      == if FirstDecision(es, id).Some? then FirstDecision(es, id) else if Decides(e, id) then Some(ResultOf(e))
        else None
  {
    if es == [] {
      assert ([] + [e])[1..] == [];
    } else {
      assert (es + [e])[1..] == es[1..] + [e];
      FirstDecisionSnoc(es[1..], e, id);
    }
  }

  /** What a run should make of the request id. */
  predicate Settled(s: Requests, es: seq<Event>, id: string) {
    match SinceSent(es, id)
    case None => id !in s.sent && id !in s.pending && id !in s.armed && id !in s.settled
    case Some(later) =>
      id in s.sent &&
      match FirstDecision(later, id)
      case None => id in s.pending && id in s.armed && id !in s.settled
      case Some(r) => id !in s.pending && id !in s.armed && id in s.settled && s.settled[id] == [r]
  }

  // In every run, whatever the interleaving: a request is pending with its timer armed exactly while
  // no response or timeout for it has come since it was sent; the first one settles it, once, and
  // nothing that comes later or was never asked for has any effect.
  lemma {:induction false} FirstDecisionSettles(es: seq<Event>, id: string)
    ensures Settled(StateAfter(es), es, id)
  {
    if es != [] {
      var before, e := es[..|es| - 1], es[|es| - 1];
      assert es == before + [e];
      FirstDecisionSettles(before, id);
      SinceSentSnoc(before, e, id);
      var since := SinceSent(before, id);
      if since.Some? { FirstDecisionSnoc(since.value, e, id); }
      hide StateAfter, SinceSent, FirstDecision;
      assert StateAfter(es) == Next(StateAfter(before), e) by { StateAfterSnoc(before, e); }
    }
  }

  lemma StateAfterSnoc(es: seq<Event>, e: Event)
    ensures StateAfter(es + [e]) == Next(StateAfter(es), e)
  {
    assert (es + [e])[..|es + [e]| - 1] == es;
  }

  /** The i-th event is the one that sends the request id. */
  ghost predicate SentAt(es: seq<Event>, i: nat, id: string) {
    i < |es| && es[i] == Send(id) && forall k :: 0 <= k < i ==> es[k] != Send(id)
  }

  /** e is the first response or timeout of id after it was sent. */
  ghost predicate DecidedBy(es: seq<Event>, id: string, e: Event) {
    exists i: nat, j: nat :: SentAt(es, i, id) && DecidesAt(es, i, j, id) && es[j] == e
  }

  ghost predicate DecidesAt(es: seq<Event>, i: nat, j: nat, id: string) {
    i < j < |es| && Decides(es[j], id) && forall k :: i < k < j ==> !Decides(es[k], id)
  }

  lemma {:induction false} SinceSentAt(es: seq<Event>, id: string) returns (i: nat)
    ensures SinceSent(es, id).Some? ==> SentAt(es, i, id) && SinceSent(es, id).value == es[i + 1..]
    ensures forall k :: SentAt(es, k, id) ==> SinceSent(es, id) == Some(es[k + 1..])
  {
    i := 0;
    if es != [] && es[0] != Send(id) {
      var j := SinceSentAt(es[1..], id);
      i := j + 1;
      assert forall k :: 0 < k < |es| ==> es[k] == es[1..][k - 1];
      forall k: nat | SentAt(es, k, id) ensures SinceSent(es, id) == Some(es[k + 1..]) {
        assert SentAt(es[1..], k - 1, id);
      }
    }
  }

  lemma {:induction false} FirstDecisionIs(es: seq<Event>, id: string, j: nat)
    requires j < |es| && Decides(es[j], id) && forall k :: 0 <= k < j ==> !Decides(es[k], id)
    ensures FirstDecision(es, id) == Some(ResultOf(es[j]))
  {
    if j > 0 { FirstDecisionIs(es[1..], id, j - 1); }
  }

  lemma {:induction false} FirstDecisionAt(es: seq<Event>, id: string) returns (j: nat)
    requires FirstDecision(es, id).Some?
    ensures j < |es| && Decides(es[j], id) && forall k :: 0 <= k < j ==> !Decides(es[k], id)
  {
    j := 0;
    if !Decides(es[0], id) {
      j := FirstDecisionAt(es[1..], id);
      j := j + 1;
    }
  }

  lemma DecisionFound(es: seq<Event>, id: string, e: Event)
    requires DecidedBy(es, id, e)
    ensures SinceSent(es, id).Some? && FirstDecision(SinceSent(es, id).value, id) == Some(ResultOf(e))
  {
    hide SinceSent, FirstDecision, Decides, ResultOf;
    var i: nat, j: nat :| SentAt(es, i, id) && DecidesAt(es, i, j, id) && es[j] == e;
    var i' := SinceSentAt(es, id);
    var later, n := es[i + 1..], j - i - 1;
    forall k | 0 <= k < n ensures !Decides(later[k], id) { assert later[k] == es[i + 1 + k]; }
    assert later[n] == es[j];
    FirstDecisionIs(later, id, n);
  }

  lemma DecisionExists(es: seq<Event>, id: string) returns (e: Event)
    requires SinceSent(es, id).Some? && FirstDecision(SinceSent(es, id).value, id).Some?
    ensures DecidedBy(es, id, e) && Decides(e, id)
  {
    hide SinceSent, FirstDecision, Decides, ResultOf;
    var i := SinceSentAt(es, id);
    var j := FirstDecisionAt(es[i + 1..], id);
    e := es[i + 1 + j];
    forall k | i < k < i + 1 + j ensures !Decides(es[k], id) { assert es[k] == es[i + 1..][k - i - 1]; }
    assert DecidesAt(es, i, i + 1 + j, id);
  }

  /** The request id was settled, once, and in this way. */
  ghost predicate SettledAs(es: seq<Event>, id: string, r: Result) {
    id in StateAfter(es).settled && StateAfter(es).settled[id] == [r]
  }

  // A request is resolved with a body exactly when a successful response with that body decided it first,
  // rejected with an error exactly when an unsuccessful response with that error did, and timed out exactly
  // when its timer did.
  lemma SettledIffDecided(es: seq<Event>, id: string, body: Json)
    ensures SettledAs(es, id, Resolved(body)) <==> DecidedBy(es, id, Response(id, true, body))
    ensures SettledAs(es, id, Failed(body)) <==> DecidedBy(es, id, Response(id, false, body))
    ensures SettledAs(es, id, TimedOut) <==> DecidedBy(es, id, Timeout(id))
  {
    hide StateAfter, SinceSent, FirstDecision, DecidedBy;
    FirstDecisionSettles(es, id);
    forall e | DecidedBy(es, id, e) ensures SettledAs(es, id, ResultOf(e)) { DecisionFound(es, id, e); }
    if id in StateAfter(es).settled { var e := DecisionExists(es, id); }
  }

  // An id is pending exactly while its timer is armed and it is unsettled.
  lemma PendingIffArmed(es: seq<Event>)
    ensures StateAfter(es).pending == StateAfter(es).armed
    ensures StateAfter(es).pending == StateAfter(es).sent - StateAfter(es).settled.Keys
    ensures forall id :: id in StateAfter(es).settled ==> |StateAfter(es).settled[id]| == 1
  {
    hide StateAfter, SinceSent, FirstDecision;
    var s := StateAfter(es);
    forall id
      ensures (id in s.pending <==> id in s.armed) && (id in s.pending <==> id in s.sent && id !in s.settled)
      ensures id in s.settled ==> |s.settled[id]| == 1
    {
      FirstDecisionSettles(es, id);
    }
  }
}
