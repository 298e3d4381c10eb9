/** The bridge's WebSocket handler: request envelopes and the bodies that follow them. */
module WsPairing {
  import opened Strings
  import opened Json

  type byte = b: int | 0 <= b < 256

  datatype Message = Text(text: string) | Binary(bytes: seq<byte>)

  /** Decoding of text: UTF-8 and JSON.parse. */
  datatype Codec = Codec(utf8: seq<byte> -> string, parse: string -> Option<Json>)

  datatype Pending = Pending(stream: Json, envelope: Json)

  /** What the handler passes on. */
  datatype Dispatch =
    | Http(stream: Json, envelope: Json, body: Option<seq<byte>>)
    | Upgrade(stream: Json, envelope: Json)
    | Data(stream: Json, message: Message)
    | RawInput(message: Message)

  datatype Protocol = Raw | Framed

  const OPEN_BRACE: byte := 0x7b

  /** isParsableJSON */
  predicate IsParsableJSON(bytes: seq<byte>) {
    bytes != [] && bytes[0] == OPEN_BRACE
  }

  function Field(v: Json, key: string): Option<Json> {
    if v.Obj? && key in v.at then Some(v.at[key]) else None
  }

  predicate Holds(v: Option<Json>) {
    v.Some? && Truthy(v.value)
  }

  datatype Kind = Bodiless | WithBody | WsUpgrade | WsData | Unknown

  /** What an envelope asks for. */
  function KindOf(v: Json): Kind {
    if !Holds(Field(v, "stream_id")) then Unknown
    else if Field(v, "type") == Some(Str("http_request")) then
      (if Holds(Field(v, "body_follows")) then WithBody else Bodiless)
    else if Field(v, "type") == Some(Str("ws_upgrade")) then WsUpgrade
    else if Field(v, "type") == Some(Str("ws_data")) then WsData
    else Unknown
  }

  function Stream(v: Json): (s: Json)
    requires KindOf(v) != Unknown
  {
    Field(v, "stream_id").value
  }

  /** The envelope of a message read as text. */
  function EnvelopeOf(m: Message, codec: Codec): Option<Json> {
    codec.parse(if m.Text? then m.text else codec.utf8(m.bytes))
  }

  // A message read as text, with p pending.
  function OnText(p: Option<Pending>, m: Message, codec: Codec): (Option<Pending>, seq<Dispatch>) {
    match EnvelopeOf(m, codec)
    case None => (p, [])
    case Some(v) =>
      match KindOf(v)
      case WithBody => (Some(Pending(Stream(v), v)), [])
      case Bodiless => (p, [Http(Stream(v), v, None)])
      case WsUpgrade => (p, [Upgrade(Stream(v), v)])
      case WsData => (p, [Data(Stream(v), m)])
      case Unknown => (p, [])
  }

  predicate IsBody(p: Option<Pending>, m: Message) {
    m.Binary? && (p.Some? || !IsParsableJSON(m.bytes))
  }

  /** One message of a framed session. */
  function OnMessage(p: Option<Pending>, m: Message, codec: Codec): (Option<Pending>, seq<Dispatch>) {
    if IsBody(p, m) then
      (None, if p.Some? then [Http(p.value.stream, p.value.envelope, Some(m.bytes))] else [])
    else OnText(p, m, codec)
  }

  /** A session's messages, one after the other: what is pending before the i-th. */
  function PendingBefore(ms: seq<Message>, i: nat, codec: Codec): Option<Pending>
    requires i <= |ms|
  {
    if i == 0 then None else OnMessage(PendingBefore(ms, i - 1, codec), ms[i - 1], codec).0
  }

  function DispatchedAt(ms: seq<Message>, i: nat, codec: Codec): seq<Dispatch>
    requires i < |ms|
  {
    OnMessage(PendingBefore(ms, i, codec), ms[i], codec).1
  }

  /** All that a session's messages lead to. */
  function Serve(p: Option<Pending>, ms: seq<Message>, codec: Codec): (Option<Pending>, seq<Dispatch>)
    decreases |ms|
  {
    if ms == [] then (p, [])
    else
      var (q, ds) := OnMessage(p, ms[0], codec);
      var (r, es) := Serve(q, ms[1..], codec);
      (r, ds + es)
  }

  // ---------- the handler ----------

  class Bridge {
    const codec: Codec
    const protocols: map<string, Protocol>
    var pendingRequestBodies: map<string, Pending>
    var sent: map<string, seq<Dispatch>>

    constructor (codec: Codec, protocols: map<string, Protocol>)
      ensures this.codec == codec && this.protocols == protocols && pendingRequestBodies == map[] && sent == map[]
    {
      this.codec, this.protocols := codec, protocols;
      pendingRequestBodies, sent := map[], map[];
    }

    function PendingOf(session: string): Option<Pending>
      reads this
    {
      if session in pendingRequestBodies then Some(pendingRequestBodies[session]) else None
    }

    function SentTo(session: string): seq<Dispatch>
      reads this
    {
      if session in sent then sent[session] else []
    }

    method Pass(session: string, d: Dispatch)
      modifies this`sent
      ensures SentTo(session) == old(SentTo(session)) + [d]
      ensures forall x :: x != session ==> SentTo(x) == old(SentTo(x))
    {
      sent := sent[session := SentTo(session) + [d]];
    }

    /** The message handler; a session that does not exist is ignored. */
    method Receive(session: string, m: Message)
      modifies this
      ensures forall x :: x != session ==> SentTo(x) == old(SentTo(x)) && PendingOf(x) == old(PendingOf(x))
      ensures session !in protocols ==>
        SentTo(session) == old(SentTo(session)) && PendingOf(session) == old(PendingOf(session))
      ensures session in protocols && protocols[session].Raw? ==>
        SentTo(session) == old(SentTo(session)) + [RawInput(m)] && PendingOf(session) == old(PendingOf(session))
      ensures session in protocols && protocols[session].Framed? ==>
        PendingOf(session) == OnMessage(old(PendingOf(session)), m, codec).0 &&
        SentTo(session) == old(SentTo(session)) + OnMessage(old(PendingOf(session)), m, codec).1
    {
      hide KindOf, Stream, Field;
      if session !in protocols { return; }
      if protocols[session].Raw? {
        Pass(session, RawInput(m));
        return;
      }
      var hasPendingBody := session in pendingRequestBodies;
      if m.Binary? && (hasPendingBody || !IsParsableJSON(m.bytes)) {
        if hasPendingBody {
          var p := pendingRequestBodies[session];
          pendingRequestBodies := pendingRequestBodies - {session};
          Pass(session, Http(p.stream, p.envelope, Some(m.bytes)));
        }
        return;
      }
      match EnvelopeOf(m, codec)
      case None =>
      case Some(v) =>
        match KindOf(v)
        case WithBody => pendingRequestBodies := pendingRequestBodies[session := Pending(Stream(v), v)];
        case Bodiless => Pass(session, Http(Stream(v), v, None));
        case WsUpgrade => Pass(session, Upgrade(Stream(v), v));
        case WsData => Pass(session, Data(Stream(v), m));
        case Unknown =>
    }

    /** Messages of many sessions, in any interleaving. */
    method ReceiveAll(arrivals: seq<(string, Message)>)
      modifies this
      ensures forall x :: x in protocols && protocols[x].Framed? ==>
        (PendingOf(x), SentTo(x)) ==
          (Serve(old(PendingOf(x)), Of(x, arrivals), codec).0,
           old(SentTo(x)) + Serve(old(PendingOf(x)), Of(x, arrivals), codec).1)
    {
      hide OnMessage;
      var i := 0;
      while i < |arrivals|
        invariant 0 <= i <= |arrivals|
        invariant forall x :: x in protocols && protocols[x].Framed? ==>
          PendingOf(x) == Serve(old(PendingOf(x)), Of(x, arrivals[..i]), codec).0 &&
          SentTo(x) == old(SentTo(x)) + Serve(old(PendingOf(x)), Of(x, arrivals[..i]), codec).1
      {
        Receive(arrivals[i].0, arrivals[i].1);
        forall x | x in protocols && protocols[x].Framed?
          ensures PendingOf(x) == Serve(old(PendingOf(x)), Of(x, arrivals[..i + 1]), codec).0
          ensures SentTo(x) == old(SentTo(x)) + Serve(old(PendingOf(x)), Of(x, arrivals[..i + 1]), codec).1
        {
          OneMore(x, arrivals, i, old(PendingOf(x)), codec);
          var before := Serve(old(PendingOf(x)), Of(x, arrivals[..i]), codec);
          Reassociate(old(SentTo(x)), before.1, OnMessage(before.0, arrivals[i].1, codec).1);
        }
        i := i + 1;
      }
      assert arrivals[..i] == arrivals;
    }
  }

  /** The messages of one session. */
  function Of(session: string, arrivals: seq<(string, Message)>): seq<Message> {
    if arrivals == [] then []
    else (if arrivals[0].0 == session then [arrivals[0].1] else []) + Of(session, arrivals[1..])
  }

  lemma OfFirst(session: string, a: (string, Message), arrivals: seq<(string, Message)>)
    ensures Of(session, [a] + arrivals) == (if a.0 == session then [a.1] else []) + Of(session, arrivals)
  {
    assert ([a] + arrivals)[1..] == arrivals;
  }

  lemma {:induction false} OfSnoc(session: string, arrivals: seq<(string, Message)>, a: (string, Message))
    ensures Of(session, arrivals + [a]) == Of(session, arrivals) + if a.0 == session then [a.1] else []
  {
    if arrivals == [] {
      OfFirst(session, a, []);
      hide Of;
      assert [] + [a] == [a] + [];
      NothingOf(session);
    } else {
      var b, rest := arrivals[0], arrivals[1..];
      OfSnoc(session, rest, a);
      OfFirst(session, b, rest);
      OfFirst(session, b, rest + [a]);
      hide Of;
      assert arrivals == [b] + rest && arrivals + [a] == [b] + (rest + [a]);
    }
  }

  lemma NothingOf(session: string)
    ensures Of(session, []) == []
  {}

  lemma {:induction false} ServeConcat(p: Option<Pending>, ms: seq<Message>, ns: seq<Message>, codec: Codec)
    ensures Serve(p, ms + ns, codec)
      == (Serve(Serve(p, ms, codec).0, ns, codec).0, Serve(p, ms, codec).1 + Serve(Serve(p, ms, codec).0, ns, codec).1)
    decreases |ms|
  {
    hide OnMessage;
    if ms == [] {
      assert ms + ns == ns;
      assert [] + Serve(p, ns, codec).1 == Serve(p, ns, codec).1;
    } else {
      var q := OnMessage(p, ms[0], codec);
      assert (ms + ns)[1..] == ms[1..] + ns;
      ServeConcat(q.0, ms[1..], ns, codec);
      var r := Serve(q.0, ms[1..], codec);
      Reassociate(q.1, r.1, Serve(r.0, ns, codec).1);
    }
  }

  lemma ServeOne(p: Option<Pending>, m: Message, codec: Codec)
    ensures Serve(p, [m], codec) == OnMessage(p, m, codec)
  {
    hide OnMessage;
    assert [m][1..] == [];
    var q := OnMessage(p, m, codec);
    assert q.1 + [] == q.1;
    assert Serve(q.0, [], codec) == (q.0, []);
  }

  lemma OneMore(x: string, arrivals: seq<(string, Message)>, i: nat, p: Option<Pending>, codec: Codec)
    requires i < |arrivals|
    ensures var before := Serve(p, Of(x, arrivals[..i]), codec);
      Serve(p, Of(x, arrivals[..i + 1]), codec) ==
        if arrivals[i].0 == x then
          (OnMessage(before.0, arrivals[i].1, codec).0, before.1 + OnMessage(before.0, arrivals[i].1, codec).1)
        else before
  {
    hide OnMessage;
    assert arrivals[..i + 1] == arrivals[..i] + [arrivals[i]];
    OfSnoc(x, arrivals[..i], arrivals[i]);
    if arrivals[i].0 == x {
      var before := Serve(p, Of(x, arrivals[..i]), codec);
      ServeConcat(p, Of(x, arrivals[..i]), [arrivals[i].1], codec);
      ServeOne(before.0, arrivals[i].1, codec);
    } else {
      assert Of(x, arrivals[..i]) + [] == Of(x, arrivals[..i]);
    }
  }

  // ---------- envelopes by their fields ----------

  /** The envelope has the field, and it is none of JavaScript's falsy values. */
  predicate Has(v: Json, key: string) {
    && v.Obj? && key in v.at
    && v.at[key] != Null && v.at[key] != Bool(false) && v.at[key] != Num("0") && v.at[key] != Str("")
  }

  /** The envelope is of the given type and belongs to a stream. */
  predicate IsFor(v: Json, name: string) {
    Has(v, "stream_id") && "type" in v.at && v.at["type"] == Str(name)
  }

  /** A body is to follow. */
  predicate WantsBody(v: Json) {
    IsFor(v, "http_request") && Has(v, "body_follows")
  }

  /** The message is read as text and carries the envelope v, whatever is pending if it is a text message and
      if nothing is pending otherwise. */
  predicate Carries(m: Message, v: Json, codec: Codec) {
    match m
    case Text(text) => codec.parse(text) == Some(v)
    case Binary(bytes) => bytes != [] && bytes[0] == 0x7b && codec.parse(codec.utf8(bytes)) == Some(v)
  }

  lemma TypesDiffer()
    ensures "http_request" != "ws_upgrade" && "http_request" != "ws_data" && "ws_upgrade" != "ws_data"
  {
    assert "http_request"[0] != "ws_upgrade"[0] && "ws_upgrade"[3] != "ws_data"[3];
  }

  // What an envelope asks for depends on three of its fields only.
  lemma KindByFields(v: Json)
    ensures KindOf(v) == WithBody <==> WantsBody(v)
    ensures KindOf(v) == Bodiless <==> IsFor(v, "http_request") && !Has(v, "body_follows")
    ensures KindOf(v) == WsUpgrade <==> IsFor(v, "ws_upgrade")
    ensures KindOf(v) == WsData <==> IsFor(v, "ws_data")
    ensures KindOf(v) != Unknown ==> "stream_id" in v.at && Stream(v) == v.at["stream_id"]
  {
    TypesDiffer();
  }

  // ---------- requests arrive as they were sent ----------

  /** An envelope in the message that carries it, and the body sent after it, if there is one. */
  datatype Frame = Frame(message: Message, envelope: Json, body: Option<seq<byte>>)

  /** A body is sent just when the envelope announces it. */
  predicate ValidFrame(fr: Frame, codec: Codec) {
    Carries(fr.message, fr.envelope, codec) && (fr.body.Some? <==> WantsBody(fr.envelope))
  }

  function Messages(frames: seq<Frame>): seq<Message> {
    if frames == [] then []
    else
      var body := if frames[0].body.Some? then [Binary(frames[0].body.value)] else [];
      [frames[0].message] + body + Messages(frames[1..])
  }

  /** What a frame should lead to. */
  function Asked(fr: Frame): seq<Dispatch> {
    var v := fr.envelope;
    if IsFor(v, "http_request") then [Http(v.at["stream_id"], v, fr.body)]
    else if IsFor(v, "ws_upgrade") then [Upgrade(v.at["stream_id"], v)]
    else if IsFor(v, "ws_data") then [Data(v.at["stream_id"], fr.message)]
    else []
  }

  function AllAsked(frames: seq<Frame>): seq<Dispatch> {
    if frames == [] then [] else Asked(frames[0]) + AllAsked(frames[1..])
  }

  lemma CarriedIsRead(m: Message, v: Json, codec: Codec)
    requires Carries(m, v, codec)
    ensures !IsBody(None, m) && EnvelopeOf(m, codec) == Some(v)
  {}

  lemma OneFrame(fr: Frame, codec: Codec)
    requires ValidFrame(fr, codec)
    ensures Serve(None, Messages([fr]), codec) == (None, Asked(fr))
  {
    CarriedIsRead(fr.message, fr.envelope, codec);
    KindByFields(fr.envelope);
    FrameAlone(fr);
    hide KindOf, Stream, EnvelopeOf, IsFor, Has, Carries, Messages;
    var m, v := fr.message, fr.envelope;
    ServeOne(None, m, codec);
    if fr.body.Some? {
      assert OnMessage(None, m, codec) == (Some(Pending(Stream(v), v)), []);
      ServeConcat(None, [m], [Binary(fr.body.value)], codec);
      ServeOne(Some(Pending(Stream(v), v)), Binary(fr.body.value), codec);
      assert [] + Asked(fr) == Asked(fr);
    }
  }

  lemma FrameAlone(fr: Frame)
    ensures Messages([fr]) == [fr.message] + if fr.body.Some? then [Binary(fr.body.value)] else []
    ensures IsFor(fr.envelope, "http_request") ==>
      !IsFor(fr.envelope, "ws_upgrade") && !IsFor(fr.envelope, "ws_data")
  {
    TypesDiffer();
    assert [fr][1..] == [] && Messages([]) == [];
  }

  lemma MessagesFirst(frames: seq<Frame>)
    requires frames != []
    ensures Messages(frames) == Messages([frames[0]]) + Messages(frames[1..])
  {
    FrameAlone(frames[0]);
  }

  // Envelopes of any kind, each followed by its body if it announces one, lead to what they ask for, in
  // order: whatever bytes the bodies hold, be they none at all or what looks like another envelope.
  lemma {:induction false} FramesArrive(frames: seq<Frame>, codec: Codec)
    requires forall i :: 0 <= i < |frames| ==> ValidFrame(frames[i], codec)
    ensures Serve(None, Messages(frames), codec) == (None, AllAsked(frames))
  {
    hide Serve, Asked, ValidFrame;
    if frames == [] {
      ServeNone(codec);
    } else {
      MessagesFirst(frames);
      hide Messages;
      OneFrame(frames[0], codec);
      FramesArrive(frames[1..], codec);
      ServeConcat(None, Messages([frames[0]]), Messages(frames[1..]), codec);
    }
  }

  lemma ServeNone(codec: Codec)
    ensures Serve(None, [], codec) == (None, [])
  {}

  /** An HTTP request as the client sends it. */
  datatype Request = Request(envelope: Json, body: Option<seq<byte>>)

  /** An http_request envelope with a stream, which says whether a body follows. */
  ghost predicate ValidRequest(r: Request) {
    && WellFormed(r.envelope) && IsFor(r.envelope, "http_request")
    && (r.body.Some? <==> Has(r.envelope, "body_follows"))
  }

  /** Its frame: the envelope as text. */
  function FrameOf(r: Request): Frame {
    Frame(Text(Stringify(r.envelope)), r.envelope, r.body)
  }

  function FramesOf(rs: seq<Request>): seq<Frame> {
    seq(|rs|, i requires 0 <= i < |rs| => FrameOf(rs[i]))
  }

  // Requests are dispatched as the same requests in order, each with its stream and its body.
  lemma {:induction false} RequestsArrive(rs: seq<Request>, codec: Codec)
    requires (forall i :: 0 <= i < |rs| ==> ValidRequest(rs[i])) && Decodes(codec.parse)
    ensures var (pending, sent) := Serve(None, Messages(FramesOf(rs)), codec);
      pending == None && |sent| == |rs| && forall i :: 0 <= i < |rs| ==>
        rs[i].envelope.Obj? && "stream_id" in rs[i].envelope.at &&
        sent[i] == Http(rs[i].envelope.at["stream_id"], rs[i].envelope, rs[i].body)
  {
    hide Serve, Messages, Decodes, Has, ValidFrame, AllAsked;
    forall i | 0 <= i < |rs| ensures ValidFrame(FramesOf(rs)[i], codec) { RequestIsFrame(rs[i], codec); }
    FramesArrive(FramesOf(rs), codec);
    RequestsAsked(rs);
  }

  lemma RequestIsFrame(r: Request, codec: Codec)
    requires ValidRequest(r) && Decodes(codec.parse)
    ensures ValidFrame(FrameOf(r), codec)
  {
    hide Has, Stringify;
  }

  lemma {:induction false} RequestsAsked(rs: seq<Request>)
    requires forall i :: 0 <= i < |rs| ==> ValidRequest(rs[i])
    ensures |AllAsked(FramesOf(rs))| == |rs|
    ensures forall i :: 0 <= i < |rs| ==>
      rs[i].envelope.Obj? && "stream_id" in rs[i].envelope.at &&
      AllAsked(FramesOf(rs))[i] == Http(rs[i].envelope.at["stream_id"], rs[i].envelope, rs[i].body)
  {
    hide WellFormed, Stringify;
    if rs != [] {
      RequestsAsked(rs[1..]);
      assert FramesOf(rs)[1..] == FramesOf(rs[1..]);
      var r := rs[0];
      assert Asked(FrameOf(r)) == [Http(r.envelope.at["stream_id"], r.envelope, r.body)];
    }
  }

  // ---------- which body goes with which envelope ----------

  /** The message announces a body, if it is read as text. */
  function Announced(m: Message, codec: Codec): Option<Pending> {
    match EnvelopeOf(m, codec)
    case Some(v) => if WantsBody(v) then Some(Pending(v.at["stream_id"], v)) else None
    case None => None
  }

  /** The j-th message announces a body and is not itself taken for one. */
  predicate Announces(ms: seq<Message>, j: nat, codec: Codec)
    requires j < |ms|
  {
    !IsBody(PendingBefore(ms, j, codec), ms[j]) && Announced(ms[j], codec).Some?
  }

  /** The messages after the j-th and before the i-th are text and announce nothing. */
  predicate QuietBetween(ms: seq<Message>, j: nat, i: nat, codec: Codec)
    requires i <= |ms|
  {
    forall k :: j < k < i ==> ms[k].Text? && Announced(ms[k], codec).None?
  }

  /** The i-th message is the first that is no text after the j-th, whose announcement stands. */
  predicate Follows(ms: seq<Message>, j: nat, i: nat, codec: Codec)
    requires i < |ms|
  {
    j < i && ms[i].Binary? && Announces(ms, j, codec) && QuietBetween(ms, j, i, codec)
  }

  lemma StepPending(p: Option<Pending>, m: Message, codec: Codec)
    ensures OnMessage(p, m, codec).0 ==
      if IsBody(p, m) then None else if Announced(m, codec).Some? then Announced(m, codec) else p
  {
    if EnvelopeOf(m, codec).Some? { KindByFields(EnvelopeOf(m, codec).value); }
    hide KindOf, Stream, WantsBody;
  }

  // What is pending was announced by a message with only quiet text since.
  lemma {:induction false} PendingWasAnnounced(ms: seq<Message>, i: nat, codec: Codec) returns (j: nat)
    requires i <= |ms| && PendingBefore(ms, i, codec).Some?
    ensures j < i && Announces(ms, j, codec) && Announced(ms[j], codec) == PendingBefore(ms, i, codec)
    ensures QuietBetween(ms, j, i, codec)
    decreases i
  {
    hide OnMessage, Announced;
    assert i > 0;
    var p := PendingBefore(ms, i - 1, codec);
    StepPending(p, ms[i - 1], codec);
    if Announced(ms[i - 1], codec).Some? {
      j := i - 1;
    } else {
      j := PendingWasAnnounced(ms, i - 1, codec);
    }
  }

  // And an announcement stays pending through quiet text.
  lemma {:induction false} AnnouncementStays(ms: seq<Message>, j: nat, i: nat, codec: Codec)
    requires j < i <= |ms| && Announces(ms, j, codec) && QuietBetween(ms, j, i, codec)
    ensures PendingBefore(ms, i, codec) == Announced(ms[j], codec)
    decreases i
  {
    hide OnMessage, Announced;
    StepPending(PendingBefore(ms, i - 1, codec), ms[i - 1], codec);
    if j < i - 1 {
      AnnouncementStays(ms, j, i - 1, codec);
      assert ms[i - 1].Text?;
    }
  }

  // A body is dispatched exactly when it is the first message that is no text after an announcement
  // that no later one replaced, and it goes with that announcement.
  lemma BodyGoesWithAnnouncement(ms: seq<Message>, i: nat, codec: Codec, p: Pending, body: seq<byte>)
    requires i < |ms|
    ensures DispatchedAt(ms, i, codec) == [Http(p.stream, p.envelope, Some(body))] <==>
      ms[i] == Binary(body) && exists j: nat :: Follows(ms, j, i, codec) && Announced(ms[j], codec) == Some(p)
  {
    hide KindOf, Stream, Announced, EnvelopeOf;
    var q := PendingBefore(ms, i, codec);
    if DispatchedAt(ms, i, codec) == [Http(p.stream, p.envelope, Some(body))] {
      assert q == Some(p);
      var j := PendingWasAnnounced(ms, i, codec);
      assert Follows(ms, j, i, codec);
    }
    if j: nat :| Follows(ms, j, i, codec) && Announced(ms[j], codec) == Some(p) && ms[i] == Binary(body) {
      AnnouncementStays(ms, j, i, codec);
    }
  }

  // Each dispatched body used up an announcement of its own: the one that the later of two bodies goes
  // with came after the earlier body.
  lemma OneBodyPerAnnouncement(ms: seq<Message>, i: nat, k: nat, codec: Codec, p: Pending, q: Pending, a: seq<byte>,
                               b: seq<byte>)
    requires i < k < |ms|
    requires DispatchedAt(ms, i, codec) == [Http(p.stream, p.envelope, Some(a))]
    requires DispatchedAt(ms, k, codec) == [Http(q.stream, q.envelope, Some(b))]
    ensures exists j: nat :: i < j < k && Follows(ms, j, k, codec) && Announced(ms[j], codec) == Some(q)
  {
    hide *;
    var j := AnnouncementOf(ms, k, codec, q, b);
    DispatchedIsBody(ms, i, codec, p, a);
    FollowsAfter(ms, i, j, k, codec);
  }

  lemma AnnouncementOf(ms: seq<Message>, k: nat, codec: Codec, q: Pending, b: seq<byte>) returns (j: nat)
    requires k < |ms| && DispatchedAt(ms, k, codec) == [Http(q.stream, q.envelope, Some(b))]
    ensures j < k && Follows(ms, j, k, codec) && Announced(ms[j], codec) == Some(q)
  {
    BodyGoesWithAnnouncement(ms, k, codec, q, b);
    hide DispatchedAt, Announces, QuietBetween, Announced;
    j :| Follows(ms, j, k, codec) && Announced(ms[j], codec) == Some(q);
  }

  // What a message follows came after every body before it.
  lemma FollowsAfter(ms: seq<Message>, i: nat, j: nat, k: nat, codec: Codec)
    requires i < k < |ms| && ms[i].Binary? && j < k && IsBody(PendingBefore(ms, i, codec), ms[i])
    requires Follows(ms, j, k, codec)
    ensures i < j
  {
    hide IsBody, Announced, PendingBefore;
  }

  lemma DispatchedIsBody(ms: seq<Message>, i: nat, codec: Codec, p: Pending, body: seq<byte>)
    requires i < |ms| && DispatchedAt(ms, i, codec) == [Http(p.stream, p.envelope, Some(body))]
    ensures ms[i].Binary? && IsBody(PendingBefore(ms, i, codec), ms[i])
  {
    hide KindOf, Stream, EnvelopeOf, PendingBefore;
  }
}
