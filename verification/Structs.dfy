/** The five CBOR structs of the output stream and their codecs. */
module Structs {
  import opened Prelude
  import opened Cbor
  import opened MapCodec

  datatype Struct =
    | Labels(relaySeq: int64, src: Text, labels: seq<Option<Label>>, upstreamSeq: int64)
    | Service(action: Text, relaySeq: int64, src: Text, record: Option<Record>)
    | Info(name: Text, note: Option<Text>)
    | Header(t: Text, op: int64)
    | Error(error: Text, message: Text)

  datatype Shape = LabelsShape | ServiceShape | InfoShape | HeaderShape | ErrorShape

  function ShapeOf(s: Struct): Shape {
    match s
    case Labels(_, _, _, _) => LabelsShape
    case Service(_, _, _, _) => ServiceShape
    case Info(_, _) => InfoShape
    case Header(_, _) => HeaderShape
    case Error(_, _) => ErrorShape
  }

  /** The keys each decoder recognises. */
  function SchemaOf(shape: Shape): Schema {
    match shape
    case LabelsShape =>
      map["seq" := IntField, "src" := TextField, "labels" := LabelsField, "upstreamSeq" := IntField]
    case ServiceShape =>
      map["op" := TextField, "seq" := IntField, "src" := TextField, "record" := OptionalRecordField]
    case InfoShape => map["name" := TextField, "message" := OptionalTextField]
    case HeaderShape => map["t" := TextField, "op" := IntField]
    case ErrorShape => map["error" := TextField, "message" := TextField]
  }

  /** The fields each encoder writes, in its order; absent optional fields are left out. */
  function EntriesOf(s: Struct): (es: seq<Entry>)
    ensures |es| <= 4
  {
    match s
    case Labels(relaySeq, src, labels, upstreamSeq) =>
      [Known("seq", IntV(relaySeq)), Known("src", TextV(src)), Known("labels", LabelsV(labels)),
       Known("upstreamSeq", IntV(upstreamSeq))]
    case Service(action, relaySeq, src, record) =>
      [Known("op", TextV(action)), Known("seq", IntV(relaySeq)), Known("src", TextV(src))]
      + (if record.Some? then [Known("record", RecordV(record.value))] else [])
    case Info(name, note) =>
      [Known("name", TextV(name))] + (if note.Some? then [Known("message", TextV(note.value))] else [])
    case Header(t, op) =>
      (if t != "" then [Known("t", TextV(t))] else []) + [Known("op", IntV(op))]
    case Error(error, message) => [Known("error", TextV(error)), Known("message", TextV(message))]
  }

  function IntAt(f: Fields, key: Text): int64 {
    if key in f && f[key].IntV? then f[key].i else 0
  }

  function TextAt(f: Fields, key: Text): Text {
    if key in f && f[key].TextV? then f[key].t else ""
  }

  function OptionalTextAt(f: Fields, key: Text): Option<Text> {
    if key in f && f[key].TextV? then Some(f[key].t) else None
  }

  /** The struct a decoder ends with: what was stored, Go zero values elsewhere. */
  function Build(shape: Shape, f: Fields): Struct {
    match shape
    case LabelsShape =>
      Labels(IntAt(f, "seq"), TextAt(f, "src"),
             if "labels" in f && f["labels"].LabelsV? then f["labels"].labels else [], IntAt(f, "upstreamSeq"))
    case ServiceShape =>
      Service(TextAt(f, "op"), IntAt(f, "seq"), TextAt(f, "src"),
              if "record" in f && f["record"].RecordV? then Some(f["record"].record) else None)
    case InfoShape => Info(TextAt(f, "name"), OptionalTextAt(f, "message"))
    case HeaderShape => Header(TextAt(f, "t"), IntAt(f, "op"))
    case ErrorShape => Error(TextAt(f, "error"), TextAt(f, "message"))
  }

  function Encode(c: Codecs, s: Struct): Option<seq<byte>> {
    EncodeMap(c, EntriesOf(s))
  }

  function Decode(c: Codecs, shape: Shape, bs: seq<byte>): Result<(Struct, seq<byte>)> {
    var (f, rest) :- DecodeMap(c, SchemaOf(shape), bs);
    Ok((Build(shape, f), rest))
  }

  lemma EntriesAcceptable(s: Struct)
    ensures DistinctKeys(EntriesOf(s))
    ensures forall e :: e in EntriesOf(s) ==> Acceptable(SchemaOf(ShapeOf(s)), e)
  {
  }

  /** What a decoder finds under a key: the value of the entry that assigns it, or nothing. */
  lemma StoredUnder(es: seq<Entry>, e: Entry)
    requires DistinctKeys(es) && e in es && e.Known?
    ensures var f := StoreAll(map[], es); if Assigns(e) then e.key in f && f[e.key] == e.value else e.key !in f
  {
    StoreAllContents(map[], es);
  }

  lemma NotStored(es: seq<Entry>, key: Text)
    requires DistinctKeys(es) && forall e :: e in es && e.Known? ==> e.key != key
    ensures key !in StoreAll(map[], es)
  {
    StoreAllContents(map[], es);
  }

  lemma LabelsStored(s: Struct)
    requires s.Labels?
    ensures Build(LabelsShape, StoreAll(map[], EntriesOf(s))) == s
  {
    var es := EntriesOf(s);
    EntriesAcceptable(s);
    StoredUnder(es, es[0]);
    StoredUnder(es, es[1]);
    StoredUnder(es, es[2]);
    StoredUnder(es, es[3]);
  }

  lemma ServiceStored(s: Struct)
    requires s.Service?
    ensures Build(ServiceShape, StoreAll(map[], EntriesOf(s))) == s
  {
    var es := EntriesOf(s);
    EntriesAcceptable(s);
    StoredUnder(es, es[0]);
    StoredUnder(es, es[1]);
    StoredUnder(es, es[2]);
    if s.record.Some? {
      StoredUnder(es, es[3]);
    } else {
      NotStored(es, "record");
    }
  }

  lemma InfoStored(s: Struct)
    requires s.Info?
    ensures Build(InfoShape, StoreAll(map[], EntriesOf(s))) == s
  {
    var es := EntriesOf(s);
    EntriesAcceptable(s);
    StoredUnder(es, es[0]);
    if s.note.Some? {
      StoredUnder(es, es[1]);
    } else {
      NotStored(es, "message");
    }
  }

  lemma HeaderStored(s: Struct)
    requires s.Header?
    ensures Build(HeaderShape, StoreAll(map[], EntriesOf(s))) == s
  {
    var es := EntriesOf(s);
    EntriesAcceptable(s);
    StoredUnder(es, es[|es| - 1]);
    if s.t != "" {
      StoredUnder(es, es[0]);
    } else {
      NotStored(es, "t");
    }
  }

  lemma ErrorStored(s: Struct)
    requires s.Error?
    ensures Build(ErrorShape, StoreAll(map[], EntriesOf(s))) == s
  {
    var es := EntriesOf(s);
    EntriesAcceptable(s);
    StoredUnder(es, es[0]);
    StoredUnder(es, es[1]);
  }

  lemma BuildStored(s: Struct)
    ensures Build(ShapeOf(s), StoreAll(map[], EntriesOf(s))) == s
  {
    match s {
      case Labels(_, _, _, _) => LabelsStored(s);
      case Service(_, _, _, _) => ServiceStored(s);
      case Info(_, _) => InfoStored(s);
      case Header(_, _) => HeaderStored(s);
      case Error(_, _) => ErrorStored(s);
    }
  }

  /** Decoding an encoded struct, with anything after it, gives the struct back and leaves exactly what followed. */
  lemma {:induction false} RoundTrip(c: Codecs, s: Struct, rest: seq<byte>)
    requires SelfDelimiting(c) && Encode(c, s).Some?
    ensures Decode(c, ShapeOf(s), Encode(c, s).value + rest) == Ok((s, rest))
  {
    EntriesAcceptable(s);
    MapRoundTrip(c, SchemaOf(ShapeOf(s)), EntriesOf(s), rest);
    BuildStored(s);
  }

  /** The same fields in any order, with unknown entries among them, decode to the same struct. */
  lemma {:induction false} AnyOrder(c: Codecs, s: Struct, es: seq<Entry>, rest: seq<byte>)
    requires SelfDelimiting(c) && Encode(c, s).Some?
    requires |es| <= MAX_LENGTH && EncodeMap(c, es).Some? && DistinctKeys(es)
    requires forall e :: e in es ==> Acceptable(SchemaOf(ShapeOf(s)), e)
    requires forall e: Entry :: e.Known? ==> (e in es <==> e in EntriesOf(s))
    ensures Decode(c, ShapeOf(s), EncodeMap(c, es).value + rest) == Ok((s, rest))
  {
    EntriesAcceptable(s);
    RoundTrip(c, s, rest);
    OrderIndependent(c, SchemaOf(ShapeOf(s)), es, EntriesOf(s), rest);
  }

  /** The length limits of the encoders, and the labels or record their own codecs must accept. */
  ghost predicate WithinLimits(c: Codecs, s: Struct) {
    match s
    case Labels(_, src, labels, _) =>
      && |src| <= 8192 && |labels| <= 8192
      && forall x :: x in labels && x.Some? ==> c.encLabel(x.value).Some?
    case Service(action, _, src, record) =>
      |action| <= 8192 && |src| <= 8192 && (record.Some? ==> c.encRecord(record.value).Some?)
    case Info(name, note) => |name| <= 8192 && (note.Some? ==> |note.value| <= 8192)
    case Header(t, _) => |t| <= 8192
    case Error(error, message) => |error| <= 8192 && |message| <= 8192
  }

  lemma {:induction false} LabelsEncodable(c: Codecs, ls: seq<Option<Label>>)
    ensures EncodeLabels(c, ls).Some? <==> forall x :: x in ls && x.Some? ==> c.encLabel(x.value).Some?
    decreases |ls|
  {
    if ls != [] {
      LabelsEncodable(c, ls[1..]);
      assert forall x :: x in ls <==> x == ls[0] || x in ls[1..];
    }
  }

  lemma {:induction false} EntriesEncodable(c: Codecs, es: seq<Entry>)
    ensures EncodeEntries(c, es).Some? <==> forall e :: e in es ==> EncodeEntry(c, e).Some?
    decreases |es|
  {
    if es != [] {
      EntriesEncodable(c, es[1..]);
      assert forall e :: e in es <==> e == es[0] || e in es[1..];
    }
  }

  lemma LabelsWithinLimits(c: Codecs, s: Struct)
    requires s.Labels?
    ensures Encode(c, s).Some? <==> WithinLimits(c, s)
  {
    var es := EntriesOf(s);
    EntriesEncodable(c, es);
    LabelsEncodable(c, s.labels);
    assert es[0] in es && es[1] in es && es[2] in es && es[3] in es;
  }

  lemma ServiceWithinLimits(c: Codecs, s: Struct)
    requires s.Service?
    ensures Encode(c, s).Some? <==> WithinLimits(c, s)
  {
    var es := EntriesOf(s);
    EntriesEncodable(c, es);
    assert es[0] in es && es[1] in es && es[2] in es && (s.record.Some? ==> es[3] in es);
  }

  /** Encoding fails exactly when a limit is exceeded or a label or record cannot be encoded. */
  lemma EncodesWithinLimits(c: Codecs, s: Struct)
    ensures Encode(c, s).Some? <==> WithinLimits(c, s)
  {
    if s.Labels? {
      LabelsWithinLimits(c, s);
    } else if s.Service? {
      ServiceWithinLimits(c, s);
    } else {
      var es := EntriesOf(s);
      EntriesEncodable(c, es);
      assert es[0] in es && es[|es| - 1] in es;
    }
  }
}
