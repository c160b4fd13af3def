/** Wire frames: a header and a body, concatenated (frames.go), and what a consumer reads back. */
module Frames {
  import opened Prelude
  import opened MapCodec
  import opened Structs
  import opened CborStreams

  const OP_MESSAGE: int64 := 1
  const OP_ERROR: int64 := -1

  /** What the slurper and the firehose watcher hand to PersistIngest (persist.go:28). */
  datatype IngestEvent = IngestEvent(kind: Text, did: Text, upstreamSeq: Option<int64>,
                                     labels: seq<Option<Label>>, action: Text, record: Option<Record>)

  /** The body the relay emits for an event minted as `relaySeq`; None for an unknown kind. */
  function BodyOf(e: IngestEvent, relaySeq: int64): Option<Struct> {
    if e.kind == "labels" then
      Some(Labels(relaySeq, e.did, e.labels, if e.upstreamSeq.Some? then e.upstreamSeq.value else 0))
    else if e.kind == "service" then Some(Service(e.action, relaySeq, e.did, e.record))
    else None
  }

  function EncodeBody(c: Codecs, e: IngestEvent, relaySeq: int64): Option<seq<byte>> {
    match BodyOf(e, relaySeq)
    case None => None
    case Some(body) => Encode(c, body)
  }

  function KindToMsgType(kind: Text): Text {
    "#" + kind
  }

  /** Header {op: 1, t} and a body that is copied verbatim. */
  function MessageFrame(c: Codecs, msgType: Text, body: seq<byte>): Option<seq<byte>> {
    match Encode(c, Header(msgType, OP_MESSAGE))
    case None => None
    case Some(header) => Some(header + body)
  }

  /** Header {op: -1} and an {error, message} body. */
  function ErrorFrame(c: Codecs, name: Text, message: Text): Option<seq<byte>> {
    match (Encode(c, Header("", OP_ERROR)), Encode(c, Error(name, message)))
    case (Some(header), Some(body)) => Some(header + body)
    case _ => None
  }

  method WriteMessage(c: Codecs, w: Writer, msgType: Text, body: seq<byte>) returns (ok: bool)
    modifies w
    ensures ok == MessageFrame(c, msgType, body).Some?
    ensures w.buf == if ok then old(w.buf) + MessageFrame(c, msgType, body).value else old(w.buf)
  {
    hide Encode;
    var buf := new Writer();
    ok := Marshal(c, Header(msgType, OP_MESSAGE), buf);
    if ok {
      buf.Write(body);
      w.Write(buf.buf);
    }
  }

  method WriteError(c: Codecs, w: Writer, name: Text, message: Text) returns (ok: bool)
    modifies w
    ensures ok == ErrorFrame(c, name, message).Some?
    ensures w.buf == if ok then old(w.buf) + ErrorFrame(c, name, message).value else old(w.buf)
  {
    hide Encode;
    var buf := new Writer();
    ok := Marshal(c, Header("", OP_ERROR), buf);
    if ok {
      ghost var header := Encode(c, Header("", OP_ERROR)).value;
      assert [] + header == header;
      assert buf.buf == header;
      ok := Marshal(c, Error(name, message), buf);
      if ok {
        w.Write(buf.buf);
      }
    }
  }

  /** What a consumer makes of one binary message. */
  datatype Wire = Message(body: Struct) | Failure(error: Text, message: Text)

  function ShapeFor(msgType: Text): Option<Shape> {
    if msgType == "#labels" then Some(LabelsShape)
    else if msgType == "#service" then Some(ServiceShape)
    else if msgType == "#info" then Some(InfoShape)
    else None
  }

  /** Read the header, then exactly one body of the kind it announces. */
  function ReadFrame(c: Codecs, bs: seq<byte>): Result<Wire> {
    var (header, more) :- Decode(c, HeaderShape, bs);
    if header.op == OP_ERROR then
      var (body, rest) :- Decode(c, ErrorShape, more);
      if rest == [] then Ok(Failure(body.error, body.message)) else Err("trailing bytes")
    else if header.op != OP_MESSAGE then Err("unknown op")
    else match ShapeFor(header.t)
      case None => Err("unknown message type")
      case Some(shape) =>
        var (body, rest) :- Decode(c, shape, more);
        if rest == [] then Ok(Message(body)) else Err("trailing bytes")
  }

  function TypeOf(body: Struct): Text
    requires body.Labels? || body.Service? || body.Info?
  {
    if body.Labels? then "#labels" else if body.Service? then "#service" else "#info"
  }

  lemma HeaderEncodes(c: Codecs, msgType: Text, op: int64)
    requires |msgType| <= 100
    ensures Encode(c, Header(msgType, op)).Some?
  {
    EncodesWithinLimits(c, Header(msgType, op));
  }

  /** A message frame reads back as the body it carries, and nothing is left over. */
  lemma {:induction false} MessageReadsBack(c: Codecs, body: Struct)
    requires SelfDelimiting(c) && (body.Labels? || body.Service? || body.Info?) && Encode(c, body).Some?
    ensures MessageFrame(c, TypeOf(body), Encode(c, body).value).Some?
    ensures ReadFrame(c, MessageFrame(c, TypeOf(body), Encode(c, body).value).value) == Ok(Message(body))
  {
    hide Encode, Decode;
    var bytes := Encode(c, body).value;
    HeaderEncodes(c, TypeOf(body), OP_MESSAGE);
    RoundTrip(c, Header(TypeOf(body), OP_MESSAGE), bytes);
    RoundTrip(c, body, []);
    assert bytes + [] == bytes;
  }

  /** An error frame reads back as the name and message it was written with. */
  lemma ErrorReadsBack(c: Codecs, name: Text, message: Text)
    requires SelfDelimiting(c) && |name| <= 8192 && |message| <= 8192
    ensures ErrorFrame(c, name, message).Some?
    ensures ReadFrame(c, ErrorFrame(c, name, message).value) == Ok(Failure(name, message))
  {
    hide Encode, Decode;
    HeaderEncodes(c, "", OP_ERROR);
    EncodesWithinLimits(c, Error(name, message));
    var bytes := Encode(c, Error(name, message)).value;
    RoundTrip(c, Header("", OP_ERROR), bytes);
    RoundTrip(c, Error(name, message), []);
    assert bytes + [] == bytes;
  }
}
