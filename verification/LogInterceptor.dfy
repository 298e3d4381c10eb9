/** The worker supervisor's log interceptor: byte chunks to lines to structured job logs. */
module LogInterceptor {
  import opened Strings
  import opened Json
  import opened Lines

  // ---------- records and their lines ----------

  /** One structured log entry; data is null when there is none. */
  datatype Record = Record(id: string, level: string, message: string, data: Json)

  const PREFIX := "JOB_ID_"
  const LEVELS: set<string> := {"TRACE", "DEBUG", "INFO", "WARN", "ERROR", "FATAL"}
  const BAR := '|'

  /** What strings.TrimSpace cuts off. */
  predicate IsSpace(c: char) {
    '\t' <= c <= '\r' || c == ' ' || c == '\U{85}' || c == '\U{A0}' || c == '\U{1680}' || '\U{2000}' <= c <= '\U{200A}'
    || c == '\U{2028}' || c == '\U{2029}' || c == '\U{202F}' || c == '\U{205F}' || c == '\U{3000}'
  }

  /** The white space of Unicode. */
  const SPACES: set<char> :=
    {'\U{9}', '\U{A}', '\U{B}', '\U{C}', '\U{D}', ' ', '\U{85}', '\U{A0}', '\U{1680}', '\U{2000}', '\U{2001}',
     '\U{2002}', '\U{2003}', '\U{2004}', '\U{2005}', '\U{2006}', '\U{2007}', '\U{2008}', '\U{2009}', '\U{200A}',
     '\U{2028}', '\U{2029}', '\U{202F}', '\U{205F}', '\U{3000}'}

  lemma SpacesAre(c: char)
    ensures IsSpace(c) <==> c in SPACES
  {}

  function TrimSpace(s: string): string {
    Trim(s, IsSpace)
  }

  function Payload(r: Record): Json {
    Arr(if Truthy(r.data) then [Str(r.message), r.data] else [Str(r.message)])
  }

  /** logJob, without the newline that ends the line */
  function Print(r: Record): string {
    PREFIX + r.id + [BAR] + r.level + [BAR] + Stringify(Payload(r))
  }

  function LevelAndJson(id: string, level: string, text: string, parse: string -> Option<Json>): Option<Record> {
    if id == "" || level !in LEVELS then None
    else
      match parse(text)
      case Some(Arr(xs)) =>
        if xs != [] && xs[0].Str? then Some(Record(id, level, xs[0].s, if |xs| > 1 then xs[1] else Null)) else None
      case _ => None
  }

  /** parsePersistentWorkerLogLine; parse is the JSON decoder. */
  function ParseLine(line: string, parse: string -> Option<Json>): Option<Record> {
    var trimmed := TrimSpace(line);
    if !(PREFIX <= trimmed) || trimmed == PREFIX then None else ParseRest(trimmed[|PREFIX|..], parse)
  }

  /** strings.SplitN(rest, "|", 3) and its parts */
  function ParseRest(rest: string, parse: string -> Option<Json>): Option<Record> {
    var i := IndexOf(rest, BAR);
    if i == |rest| then None
    else
      var more := rest[i + 1..];
      var j := IndexOf(more, BAR);
      if j == |more| then None
      else LevelAndJson(TrimSpace(rest[..i]), TrimSpace(more[..j]), TrimSpace(more[j + 1..]), parse)
  }

  // ---------- what a stream of lines amounts to ----------

  datatype Event = JobLine(record: Record) | WorkerLine(line: string)

  function EventOf(line: string, parse: string -> Option<Json>): Event {
    match ParseLine(line, parse)
    case Some(r) => JobLine(r)
    case None => WorkerLine(line)
  }

  function Events(lines: seq<string>, parse: string -> Option<Json>): seq<Event> {
    seq(|lines|, i requires 0 <= i < |lines| => EventOf(lines[i], parse))
  }

  /** The job log files after the events es. */
  function FilesOf(es: seq<Event>): map<string, seq<Record>> {
    if es == [] then map[]
    else
      var files, e := FilesOf(es[..|es| - 1]), es[|es| - 1];
      if e.JobLine? then files[e.record.id := (if e.record.id in files then files[e.record.id] else []) + [e.record]]
      else files
  }

  function RecordsFor(es: seq<Event>, id: string): seq<Record> {
    if es == [] then []
    else
      RecordsFor(es[..|es| - 1], id) +
      if es[|es| - 1].JobLine? && es[|es| - 1].record.id == id then [es[|es| - 1].record] else []
  }

  // Each job's file holds exactly that job's records, in order.
  lemma {:induction false} FilesHoldRecords(es: seq<Event>, id: string)
    ensures id in FilesOf(es) <==> RecordsFor(es, id) != []
    ensures id in FilesOf(es) ==> FilesOf(es)[id] == RecordsFor(es, id)
  {
    if es != [] { FilesHoldRecords(es[..|es| - 1], id); }
  }

  function PlainLines(es: seq<Event>): seq<string> {
    if es == [] then []
    else PlainLines(es[..|es| - 1]) + if es[|es| - 1].WorkerLine? then [es[|es| - 1].line] else []
  }

  class Interceptor {
    const parse: string -> Option<Json>
    var buffer: string
    var jobLogFiles: map<string, seq<Record>>
    var workerLog: seq<string>
    ghost var seen: seq<Event>

    ghost predicate Valid()
      reads this
    {
      jobLogFiles == FilesOf(seen) && workerLog == PlainLines(seen) && NL !in buffer
    }

    constructor (parse: string -> Option<Json>)
      ensures Valid() && seen == [] && buffer == [] && this.parse == parse
    {
      this.parse := parse;
      buffer, jobLogFiles, workerLog, seen := [], map[], [], [];
    }

    method Write(p: string) returns (n: nat)
      requires Valid()
      modifies this
      ensures Valid() && n == |p|
      ensures buffer == RestOf(old(buffer) + p)
      ensures seen == old(seen) + Events(LinesOf(old(buffer) + p), parse)
    {
      hide EventOf, FilesOf, PlainLines, LinesOf, RestOf, Events;
      StreamSplits(buffer + p);
      var lines := TakeLines(p);
      var i := 0;
      assert Events(lines[..0], parse) == [] by { NoEvents(parse); }
      while i < |lines|
        invariant 0 <= i <= |lines| && Valid() && buffer == RestOf(old(buffer) + p)
        invariant seen == old(seen) + Events(lines[..i], parse)
      {
        ProcessLine(lines[i]);
        OneMoreEvent(lines, i, parse);
        i := i + 1;
      }
      assert lines[..i] == lines;
      n := |p|;
    }

    /** Appends to the buffer and takes the complete lines out of it. */
    method TakeLines(p: string) returns (lines: seq<string>)
      modifies this`buffer
      ensures lines == LinesOf(old(buffer) + p) && buffer == RestOf(old(buffer) + p)
    {
      hide IndexOf;
      buffer := buffer + p;
      lines := [];
      while true
        invariant lines + LinesOf(buffer) == LinesOf(old(buffer) + p) && RestOf(buffer) == RestOf(old(buffer) + p)
        decreases |buffer|
      {
        var newlineIdx := IndexOf(buffer, NL);
        if newlineIdx == |buffer| { break; }
        lines := lines + [buffer[..newlineIdx]];
        buffer := buffer[newlineIdx + 1..];
      }
      assert lines + [] == lines;
    }

    method ProcessLine(line: string)
      requires Valid()
      modifies this
      ensures Valid() && buffer == old(buffer) && seen == old(seen) + [EventOf(line, parse)]
    {
      hide ParseLine;
      var r := ParseLine(line, parse);
      seen := seen + [EventOf(line, parse)];
      assert seen[..|seen| - 1] == old(seen);
      if r.Some? {
        var id := r.value.id;
        var file := GetOrCreateJobLogFile(id);
        jobLogFiles := jobLogFiles[id := file + [r.value]];
      } else {
        workerLog := workerLog + [line];
      }
    }

    method GetOrCreateJobLogFile(id: string) returns (file: seq<Record>)
      modifies this`jobLogFiles
      ensures file == if id in old(jobLogFiles) then old(jobLogFiles)[id] else []
      ensures jobLogFiles == old(jobLogFiles)[id := file]
    {
      if id in jobLogFiles {
        file := jobLogFiles[id];
        assert jobLogFiles == jobLogFiles[id := file];
      } else {
        file := [];
        jobLogFiles := jobLogFiles[id := file];
      }
    }
  }

  // ---------- chunks ----------

  /** Successive writes: the events they cause, and the buffer they leave. */
  ghost function Feed(buffer: string, chunks: seq<string>, parse: string -> Option<Json>): (seq<Event>, string)
    decreases |chunks|
  {
    if chunks == [] then ([], buffer)
    else
      var (es, rest) := Feed(RestOf(buffer + chunks[0]), chunks[1..], parse);
      (Events(LinesOf(buffer + chunks[0]), parse) + es, rest)
  }

  /** A stream written chunk by chunk. */
  method WriteAll(w: Interceptor, chunks: seq<string>)
    requires w.Valid()
    modifies w
    ensures w.Valid()
    ensures (w.seen, w.buffer) ==
      (old(w.seen) + Feed(old(w.buffer), chunks, w.parse).0, Feed(old(w.buffer), chunks, w.parse).1)
  {
    hide Events, LinesOf, RestOf, FilesOf, PlainLines;
    ghost var all := Feed(w.buffer, chunks, w.parse);
    assert chunks[0..] == chunks;
    var i := 0;
    while i < |chunks|
      invariant 0 <= i <= |chunks| && w.Valid()
      invariant w.seen + Feed(w.buffer, chunks[i..], w.parse).0 == old(w.seen) + all.0
      invariant Feed(w.buffer, chunks[i..], w.parse).1 == all.1
    {
      assert chunks[i..][0] == chunks[i] && chunks[i..][1..] == chunks[i + 1..];
      ghost var rest := Feed(RestOf(w.buffer + chunks[i]), chunks[i + 1..], w.parse);
      Reassociate(w.seen, Events(LinesOf(w.buffer + chunks[i]), w.parse), rest.0);
      var n := w.Write(chunks[i]);
      i := i + 1;
    }
    assert Feed(w.buffer, chunks[i..], w.parse) == ([], w.buffer);
    assert w.seen + [] == w.seen;
  }

  lemma EventsConcat(a: seq<string>, b: seq<string>, parse: string -> Option<Json>)
    ensures Events(a + b, parse) == Events(a, parse) + Events(b, parse)
  {
    hide EventOf;
  }

  // However a stream is cut, its events are those of its lines, and what is buffered is exactly what
  // follows the last newline.
  lemma {:induction false} ChunksDoNotMatter(buffer: string, chunks: seq<string>, parse: string -> Option<Json>)
    requires NL !in buffer
    ensures Feed(buffer, chunks, parse) ==
      (Events(LinesOf(buffer + Concat(chunks)), parse), RestOf(buffer + Concat(chunks)))
    decreases |chunks|
  {
    hide Events, LinesOf, RestOf;
    if chunks == [] {
      assert buffer + [] == buffer;
      NoLine(buffer);
      assert Events([], parse) == [] by { NoEvents(parse); }
    } else {
      var a, b := buffer + chunks[0], Concat(chunks[1..]);
      StreamSplits(a);
      ChunksDoNotMatter(RestOf(a), chunks[1..], parse);
      LinesInTwo(a, b);
      EventsConcat(LinesOf(a), LinesOf(RestOf(a) + b), parse);
      assert buffer + Concat(chunks) == a + b;
    }
  }

  lemma OneMoreEvent(lines: seq<string>, i: nat, parse: string -> Option<Json>)
    requires i < |lines|
    ensures Events(lines[..i + 1], parse) == Events(lines[..i], parse) + [EventOf(lines[i], parse)]
  {
    hide EventOf;
  }

  lemma NoEvents(parse: string -> Option<Json>)
    ensures Events([], parse) == []
  {}

  // ---------- where each line goes ----------

  ghost predicate Ascends(ix: seq<nat>, n: nat) {
    (forall k :: 0 <= k < |ix| ==> ix[k] < n) && forall k, l :: 0 <= k < l < |ix| ==> ix[k] < ix[l]
  }

  /** The line holds a record of the job id. */
  predicate IsFor(line: string, id: string, parse: string -> Option<Json>) {
    ParseLine(line, parse).Some? && ParseLine(line, parse).value.id == id
  }

  // What one more line adds to the worker's log and to a job's records.
  lemma LastLine(lines: seq<string>, id: string, parse: string -> Option<Json>)
    requires lines != []
    ensures var before, line := lines[..|lines| - 1], lines[|lines| - 1];
      && PlainLines(Events(lines, parse)) ==
        PlainLines(Events(before, parse)) + (if ParseLine(line, parse).None? then [line] else [])
      && RecordsFor(Events(lines, parse), id) ==
        RecordsFor(Events(before, parse), id) + if IsFor(line, id, parse) then [ParseLine(line, parse).value] else []
  {
    hide ParseLine;
    var n := |lines| - 1;
    var es := Events(lines, parse);
    assert es[..n] == Events(lines[..n], parse) && es[n] == EventOf(lines[n], parse);
  }

  lemma EventsOfNone(id: string, parse: string -> Option<Json>)
    ensures PlainLines(Events([], parse)) == [] && RecordsFor(Events([], parse), id) == []
  {}

  lemma AscendsSnoc(ix: seq<nat>, n: nat)
    requires Ascends(ix, n)
    ensures Ascends(ix, n + 1) && Ascends(ix + [n], n + 1) && n !in ix
    ensures forall i :: i in ix + [n] <==> i in ix || i == n
  {}

  // Every line without a record reaches the worker's own log, once and in order, and nothing else does.
  lemma {:induction false} WorkerLogHoldsRest(lines: seq<string>, parse: string -> Option<Json>) returns (ix: seq<nat>)
    ensures Ascends(ix, |lines|) && |ix| == |PlainLines(Events(lines, parse))|
    ensures forall k :: 0 <= k < |ix| ==> ix[k] < |lines| && PlainLines(Events(lines, parse))[k] == lines[ix[k]]
    ensures forall i :: 0 <= i < |lines| ==> (i in ix <==> ParseLine(lines[i], parse).None?)
  {
    hide Events, ParseLine, PlainLines, RecordsFor, IsFor, Ascends;
    ix := [];
    EventsOfNone("", parse);
    NoneAscends(|lines|);
    if lines != [] {
      var n := |lines| - 1;
      LastLine(lines, "", parse);
      ix := WorkerLogHoldsRest(lines[..n], parse);
      AscendsIn(ix, n);
      AscendsSnoc(ix, n);
      if ParseLine(lines[n], parse).None? { ix := ix + [n]; }
    }
  }

  lemma NoneAscends(n: nat)
    ensures Ascends([], n)
  {}

  lemma AscendsIn(ix: seq<nat>, n: nat)
    requires Ascends(ix, n)
    ensures forall k :: 0 <= k < |ix| ==> ix[k] < n
  {}

  // And every record reaches its job's file, once and in order.
  lemma {:induction false} JobFileHoldsRecords(lines: seq<string>, id: string, parse: string -> Option<Json>)
    returns (ix: seq<nat>)
    ensures Ascends(ix, |lines|) && |ix| == |RecordsFor(Events(lines, parse), id)|
    ensures forall i :: 0 <= i < |lines| ==> (i in ix <==> IsFor(lines[i], id, parse))
    ensures forall k :: 0 <= k < |ix| ==>
      ix[k] < |lines| && ParseLine(lines[ix[k]], parse) == Some(RecordsFor(Events(lines, parse), id)[k])
  {
    hide Events, ParseLine, PlainLines, RecordsFor, Ascends;
    ix := [];
    EventsOfNone(id, parse);
    NoneAscends(|lines|);
    if lines != [] {
      var n := |lines| - 1;
      LastLine(lines, id, parse);
      ix := JobFileHoldsRecords(lines[..n], id, parse);
      AscendsIn(ix, n);
      AscendsSnoc(ix, n);
      if IsFor(lines[n], id, parse) { ix := ix + [n]; }
    }
  }

  // ---------- records survive the pipe ----------

  predicate ValidId(id: string) {
    id != "" && BAR !in id && NL !in id && !IsSpace(id[0]) && !IsSpace(id[|id| - 1])
  }

  ghost predicate ValidRecord(r: Record) {
    ValidId(r.id) && r.level in LEVELS && WellFormed(r.data)
  }

  /** A record as it comes back: falsy data is not sent. */
  function Recovered(r: Record): Record {
    r.(data := if Truthy(r.data) then r.data else Null)
  }

  lemma LevelIsPlain(level: string)
    requires level in LEVELS
    ensures BAR !in level && NL !in level && TrimSpace(level) == level
  {
    TrimNothing(level, IsSpace);
  }

  lemma PayloadText(r: Record)
    requires WellFormed(r.data)
    ensures WellFormed(Payload(r)) && NL !in Stringify(Payload(r))
    ensures TrimSpace(Stringify(Payload(r))) == Stringify(Payload(r))
    ensures Stringify(Payload(r)) != [] && !IsSpace(Stringify(Payload(r))[|Stringify(Payload(r))| - 1])
  {
    hide Stringify;
    StringifyIsLine(Payload(r));
    BracketsEnd(Payload(r));
    TrimNothing(Stringify(Payload(r)), IsSpace);
  }

  // A printed line is one line, and is parsed back.
  lemma PrintedLineParses(r: Record, parse: string -> Option<Json>)
    requires ValidRecord(r) && Decodes(parse)
    ensures NL !in Print(r) && ParseLine(Print(r), parse) == Some(Recovered(r))
  {
    hide Stringify, IsSpace, Decodes, WellFormed, LEVELS, Payload, TrimSpace, LevelAndJson, ParseRest, PREFIX;
    var text := Stringify(Payload(r));
    PayloadText(r);
    LevelIsPlain(r.level);
    PrintedIsTrimmed(r, text);
    IdIsTrimmed(r.id);
    var rest := r.id + [BAR] + r.level + [BAR] + text;
    assert Print(r) == PREFIX + rest;
    assert Print(r)[|PREFIX|..] == rest;
    ThreeParts(r.id, r.level, text, parse);
    PayloadReads(r, parse);
  }

  lemma ThreeParts(id: string, level: string, text: string, parse: string -> Option<Json>)
    requires BAR !in id && BAR !in level
    ensures ParseRest(id + [BAR] + level + [BAR] + text, parse)
      == LevelAndJson(TrimSpace(id), TrimSpace(level), TrimSpace(text), parse)
  {
    hide LevelAndJson, TrimSpace, IndexOf;
    var more := level + [BAR] + text;
    var rest := id + [BAR] + more;
    assert rest == id + [BAR] + level + [BAR] + text;
    IndexOfConcat(id, more, BAR);
    IndexOfConcat(level, text, BAR);
    assert rest[..|id|] == id && rest[|id| + 1..] == more;
    assert more[..|level|] == level && more[|level| + 1..] == text;
  }

  lemma IdIsTrimmed(id: string)
    requires ValidId(id)
    ensures TrimSpace(id) == id
  {
    TrimNothing(id, IsSpace);
  }

  lemma PrintedIsTrimmed(r: Record, text: string)
    requires ValidRecord(r) && text == Stringify(Payload(r)) && text != [] && !IsSpace(text[|text| - 1]) && NL !in text
    ensures TrimSpace(Print(r)) == Print(r) && NL !in Print(r)
  {
    hide Stringify, Payload;
    LevelIsPlain(r.level);
    var line := Print(r);
    assert line[0] == 'J' && line[|line| - 1] == text[|text| - 1];
    TrimNothing(line, IsSpace);
  }

  lemma PayloadReads(r: Record, parse: string -> Option<Json>)
    requires ValidRecord(r) && Decodes(parse)
    ensures LevelAndJson(r.id, r.level, Stringify(Payload(r)), parse) == Some(Recovered(r))
  {
    hide Stringify;
    assert WellFormed(Payload(r));
  }

  // Whatever is parsed from a line had the printed form, up to white space around the line and its
  // three parts: every other line goes to the worker's own log.
  lemma ParsedLineWasPrinted(line: string, parse: string -> Option<Json>, r: Record)
    ensures ParseLine(line, parse) == Some(r) <==> exists id, level, text :: PrintedAs(line, id, level, text, parse, r)
  {
    hide ParseLine, PrintedAs;
    if ParseLine(line, parse) == Some(r) {
      var id, level, text := PartsOf(line, parse, r);
    }
    if id, level, text :| PrintedAs(line, id, level, text, parse, r) {
      PartsParse(line, id, level, text, parse, r);
    }
  }

  /** The trimmed line is the prefix and three parts between bars: an id, a known level, and the text of
      an array that starts with the message and goes on with the data, if there is any. */
  ghost predicate PrintedAs(line: string, id: string, level: string, text: string, parse: string -> Option<Json>,
                            r: Record) {
    && TrimSpace(line) == PREFIX + (id + [BAR] + level + [BAR] + text) && BAR !in id && BAR !in level
    && r.id == TrimSpace(id) && r.id != "" && r.level == TrimSpace(level) && r.level in LEVELS
    && exists xs :: parse(TrimSpace(text)) == Some(Arr(xs)) && IsPayload(xs, r.message, r.data)
  }

  ghost predicate IsPayload(xs: seq<Json>, message: string, data: Json) {
    |xs| >= 1 && xs[0] == Str(message) && (|xs| == 1 ==> data == Null) && (|xs| > 1 ==> data == xs[1])
  }

  lemma AcceptedParts(id: string, level: string, text: string, parse: string -> Option<Json>, r: Record)
    ensures LevelAndJson(id, level, text, parse) == Some(r) <==>
      r.id == id && r.id != "" && r.level == level && r.level in LEVELS &&
      exists xs :: parse(text) == Some(Arr(xs)) && IsPayload(xs, r.message, r.data)
  {
    hide LEVELS;
    if LevelAndJson(id, level, text, parse) == Some(r) {
      assert IsPayload(parse(text).value.items, r.message, r.data);
    }
  }

  lemma PartsOf(line: string, parse: string -> Option<Json>, r: Record)
    returns (id: string, level: string, text: string)
    requires ParseLine(line, parse) == Some(r)
    ensures PrintedAs(line, id, level, text, parse, r)
  {
    hide LevelAndJson, TrimSpace, IndexOf, PREFIX, IsPayload, LEVELS;
    var trimmed := TrimSpace(line);
    var rest := trimmed[|PREFIX|..];
    var i := IndexOf(rest, BAR);
    var more := rest[i + 1..];
    var j := IndexOf(more, BAR);
    id, level, text := rest[..i], more[..j], more[j + 1..];
    Rejoin(rest, i);
    Rejoin(more, j);
    Five(id, level, text);
    assert trimmed == PREFIX + rest;
    AcceptedParts(TrimSpace(id), TrimSpace(level), TrimSpace(text), parse, r);
  }

  lemma Rejoin(s: string, i: nat)
    requires i < |s| && s[i] == BAR
    ensures s == s[..i] + [BAR] + s[i + 1..]
  {}

  lemma Five(id: string, level: string, text: string)
    ensures id + [BAR] + (level + [BAR] + text) == id + [BAR] + level + [BAR] + text
  {}

  lemma PartsParse(line: string, id: string, level: string, text: string, parse: string -> Option<Json>, r: Record)
    requires PrintedAs(line, id, level, text, parse, r)
    ensures ParseLine(line, parse) == Some(r)
  {
    ThreeParts(id, level, text, parse);
    AcceptedParts(TrimSpace(id), TrimSpace(level), TrimSpace(text), parse, r);
    hide LevelAndJson, TrimSpace, ParseRest, PREFIX, IsPayload, LEVELS;
    var rest := id + [BAR] + level + [BAR] + text;
    assert rest[|id|] == BAR;
    assert (PREFIX + rest)[|PREFIX|..] == rest;
  }

  function PrintAll(rs: seq<Record>): string {
    if rs == [] then [] else Print(rs[0]) + [NL] + PrintAll(rs[1..])
  }

  function PrintedLines(rs: seq<Record>): seq<string> {
    seq(|rs|, i requires 0 <= i < |rs| => Print(rs[i]))
  }

  lemma {:induction false} PrintAllIsLines(rs: seq<Record>)
    ensures PrintAll(rs) == Unlines(PrintedLines(rs))
  {
    hide Print;
    if rs != [] {
      PrintAllIsLines(rs[1..]);
      assert PrintedLines(rs)[1..] == PrintedLines(rs[1..]);
    }
  }

  // Any records, printed, cut into any chunks and written one after the other, come back as the same
  // records in order, with nothing left in the buffer.
  lemma RecordsSurvive(rs: seq<Record>, chunks: seq<string>, parse: string -> Option<Json>)
    requires (forall i :: 0 <= i < |rs| ==> ValidRecord(rs[i])) && Decodes(parse) && Concat(chunks) == PrintAll(rs)
    ensures Feed([], chunks, parse) == (seq(|rs|, i requires 0 <= i < |rs| => JobLine(Recovered(rs[i]))), [])
  {
    hide Print, ValidRecord, Decodes, ParseLine, Recovered, Unlines, LinesOf, RestOf;
    ChunksDoNotMatter([], chunks, parse);
    assert [] + Concat(chunks) == PrintAll(rs);
    PrintAllIsLines(rs);
    forall i | 0 <= i < |rs|
      ensures NL !in PrintedLines(rs)[i] && EventOf(PrintedLines(rs)[i], parse) == JobLine(Recovered(rs[i]))
    {
      PrintedLineParses(rs[i], parse);
    }
    LinesUnique(PrintedLines(rs), []);
    assert Unlines(PrintedLines(rs)) + [] == Unlines(PrintedLines(rs));
    assert Events(PrintedLines(rs), parse) == seq(|rs|, i requires 0 <= i < |rs| => JobLine(Recovered(rs[i])));
  }
}
