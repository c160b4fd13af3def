/**
 The map encoders and decoders of cbor_gen.go. The generated code repeats one pattern per struct: write
 the fields in order; read a map in any order, dispatch on the key, skip what is not recognised. A schema
 says which keys a struct has and how each is read.
 */
module MapCodec {
  import opened Prelude
  import opened Cbor

  /** An upstream label: its signature and everything else, which the relay never looks into. */
  datatype Label = Label(sig: seq<byte>, body: seq<byte>)

  datatype Record = Record(body: seq<byte>)

  /** The label and service-record codecs of the AT Protocol library. */
  datatype Codecs = Codecs(
    encLabel: Label -> Option<seq<byte>>, decLabel: seq<byte> -> Result<(Label, seq<byte>)>,
    encRecord: Record -> Option<seq<byte>>, decRecord: seq<byte> -> Result<(Record, seq<byte>)>)

  /** What they encode they decode, reading exactly those bytes; no encoding looks like null. */
  ghost predicate SelfDelimiting(c: Codecs) {
    && (forall l :: c.encLabel(l).Some? ==> NotNull(c.encLabel(l).value))
    && (forall l, rest :: c.encLabel(l).Some? ==> c.decLabel(c.encLabel(l).value + rest) == Ok((l, rest)))
    && (forall r :: c.encRecord(r).Some? ==> NotNull(c.encRecord(r).value))
    && (forall r, rest :: c.encRecord(r).Some? ==> c.decRecord(c.encRecord(r).value + rest) == Ok((r, rest)))
  }

  predicate NotNull(bs: seq<byte>) {
    bs != [] && bs[0] != CBOR_NULL
  }

  datatype Kind = IntField | TextField | OptionalTextField | LabelsField | OptionalRecordField

  datatype Value = IntV(i: int64) | TextV(t: Text) | LabelsV(labels: seq<Option<Label>>) | RecordV(record: Record) | NullV

  type Schema = map<Text, Kind>

  type Fields = map<Text, Value>

  predicate HasKind(v: Value, kind: Kind) {
    match kind
    case IntField => v.IntV?
    case TextField => v.TextV?
    case OptionalTextField => v.TextV? || v.NullV?
    case LabelsField => v.LabelsV?
    case OptionalRecordField => v.RecordV? || v.NullV?
  }

  // ----- encoding

  function EncodeLabel(c: Codecs, l: Option<Label>): Option<seq<byte>> {
    match l
    case None => Some([CBOR_NULL])
    case Some(x) => c.encLabel(x)
  }

  function EncodeLabels(c: Codecs, ls: seq<Option<Label>>): Option<seq<byte>> {
    if ls == [] then Some([])
    else match (EncodeLabel(c, ls[0]), EncodeLabels(c, ls[1..]))
      case (Some(first), Some(rest)) => Some(first + rest)
      case _ => None
  }

  function EncodeValue(c: Codecs, v: Value): Option<seq<byte>> {
    match v
    case IntV(i) => Some(EncodeInt64(i))
    case TextV(t) => if |t| > MAX_LENGTH then None else Some(EncodeText(t))
    case LabelsV(ls) =>
      if |ls| > MAX_LENGTH then None
      else (match EncodeLabels(c, ls)
            case None => None
            case Some(items) => Some(Head(MAJ_ARRAY, |ls|) + items))
    case RecordV(r) => c.encRecord(r)
    case NullV => Some([CBOR_NULL])
  }

  /** A map entry: a field of the struct, or a key the decoder does not know with one data item. */
  datatype Entry = Known(key: Text, value: Value) | Foreign(key: Text, item: seq<byte>)

  function EncodeEntry(c: Codecs, e: Entry): Option<seq<byte>> {
    if |e.key| > MAX_LENGTH then None
    else if e.Foreign? then Some(EncodeText(e.key) + e.item)
    else match EncodeValue(c, e.value)
      case None => None
      case Some(bs) => Some(EncodeText(e.key) + bs)
  }

  function EncodeEntries(c: Codecs, es: seq<Entry>): Option<seq<byte>> {
    if es == [] then Some([])
    else match (EncodeEntry(c, es[0]), EncodeEntries(c, es[1..]))
      case (Some(first), Some(rest)) => Some(first + rest)
      case _ => None
  }

  /** A map of these entries; None when some field is too long or cannot be encoded. */
  function EncodeMap(c: Codecs, es: seq<Entry>): Option<seq<byte>>
    requires |es| <= MAX_LENGTH
  {
    match EncodeEntries(c, es)
    case None => None
    case Some(bs) => Some(Head(MAJ_MAP, |es|) + bs)
  }

  // ----- decoding

  function ReadLabel(c: Codecs, bs: seq<byte>): Result<(Option<Label>, seq<byte>)> {
    if bs == [] then Err("unexpected EOF")
    else if bs[0] == CBOR_NULL then Ok((None, bs[1..]))
    else
      var (l, rest) :- c.decLabel(bs);
      Ok((Some(l), rest))
  }

  function ReadLabels(c: Codecs, bs: seq<byte>, n: nat): Result<(seq<Option<Label>>, seq<byte>)>
    decreases n
  {
    if n == 0 then Ok(([], bs))
    else
      var (first, more) :- ReadLabel(c, bs);
      var (others, rest) :- ReadLabels(c, more, n - 1);
      Ok(([first] + others, rest))
  }

  function ReadValue(c: Codecs, kind: Kind, bs: seq<byte>): Result<(Value, seq<byte>)> {
    match kind
    case IntField =>
      var (i, rest) :- ReadInt64(bs);
      Ok((IntV(i), rest))
    case TextField =>
      var (t, rest) :- ReadText(bs);
      Ok((TextV(t), rest))
    case LabelsField =>
      var h :- ReadHead(bs);
      if h.arg > MAX_LENGTH then Err("array too large")
      else if h.major != MAJ_ARRAY then Err("expected cbor array")
      else
        var (ls, rest) :- ReadLabels(c, h.rest, h.arg);
        Ok((LabelsV(ls), rest))
    case OptionalTextField =>
      if bs == [] then Err("unexpected EOF")
      else if bs[0] == CBOR_NULL then Ok((NullV, bs[1..]))
      else
        var (t, rest) :- ReadText(bs);
        Ok((TextV(t), rest))
    case OptionalRecordField =>
      if bs == [] then Err("unexpected EOF")
      else if bs[0] == CBOR_NULL then Ok((NullV, bs[1..]))
      else
        var (r, rest) :- c.decRecord(bs);
        Ok((RecordV(r), rest))
  }

  /** A null or an empty label array assigns nothing: the field keeps what it had. */
  function Store(fields: Fields, key: Text, v: Value): Fields {
    if v == NullV || v == LabelsV([]) then fields else fields[key := v]
  }

  /** Read the next `n` entries into `fields`. */
  function DecodeEntries(c: Codecs, schema: Schema, n: nat, fields: Fields, bs: seq<byte>)
    : Result<(Fields, seq<byte>)>
    decreases n
  {
    if n == 0 then Ok((fields, bs))
    else
      var (key, more) :- ReadText(bs);
      if key in schema then
        var (v, rest) :- ReadValue(c, schema[key], more);
        DecodeEntries(c, schema, n - 1, Store(fields, key, v), rest)
      else
        var rest :- Skip(more, 1);
        DecodeEntries(c, schema, n - 1, fields, rest)
  }

  function DecodeMap(c: Codecs, schema: Schema, bs: seq<byte>): Result<(Fields, seq<byte>)> {
    var h :- ReadHead(bs);
    if h.major != MAJ_MAP then Err("cbor input should be of type map")
    else if h.arg > MAX_LENGTH then Err("map struct too large")
    else DecodeEntries(c, schema, h.arg, map[], h.rest)
  }

  // ----- round trip

  lemma {:induction false} LabelsRoundTrip(c: Codecs, ls: seq<Option<Label>>, rest: seq<byte>)
    requires SelfDelimiting(c) && EncodeLabels(c, ls).Some?
    ensures ReadLabels(c, EncodeLabels(c, ls).value + rest, |ls|) == Ok((ls, rest))
    decreases |ls|
  {
    if ls == [] {
      assert [] + rest == rest;
    } else {
      var first, others := EncodeLabel(c, ls[0]).value, EncodeLabels(c, ls[1..]).value;
      var more := others + rest;
      assert EncodeLabels(c, ls).value + rest == first + more;
      if ls[0].None? {
        assert (first + more)[1..] == more;
      } else {
        assert NotNull(first) && (first + more)[0] == first[0];
      }
      assert ReadLabel(c, first + more) == Ok((ls[0], more));
      LabelsRoundTrip(c, ls[1..], rest);
      assert [ls[0]] + ls[1..] == ls;
    }
  }

  lemma ValueRoundTrip(c: Codecs, v: Value, kind: Kind, rest: seq<byte>)
    requires SelfDelimiting(c) && HasKind(v, kind) && EncodeValue(c, v).Some?
    ensures ReadValue(c, kind, EncodeValue(c, v).value + rest) == Ok((v, rest))
  {
    hide ReadInt64, ReadText, ReadHead, EncodeInt64, Head, ReadLabels, EncodeLabels;
    var bs := EncodeValue(c, v).value;
    match v {
      case IntV(i) => Int64RoundTrip(i, rest);
      case TextV(t) =>
        TextItemRoundTrip(t, rest);
        assert bs[0] / 32 == MAJ_TEXT && (bs + rest)[0] == bs[0];
      case LabelsV(ls) =>
        var items := EncodeLabels(c, ls).value;
        HeadRoundTrip(MAJ_ARRAY, |ls|, items + rest);
        assert bs + rest == Head(MAJ_ARRAY, |ls|) + (items + rest);
        LabelsRoundTrip(c, ls, rest);
      case RecordV(r) =>
        assert NotNull(bs) && (bs + rest)[0] == bs[0];
      case NullV =>
        assert (bs + rest)[1..] == rest;
    }
  }

  /** An entry the decoder of `schema` accepts: a field of the right kind, or an unknown key with one data item. */
  predicate Acceptable(schema: Schema, e: Entry) {
    match e
    case Known(key, v) => key in schema && HasKind(v, schema[key])
    case Foreign(key, item) => key !in schema && IsItem(item)
  }

  function StoreAll(fields: Fields, es: seq<Entry>): Fields
    decreases |es|
  {
    if es == [] then fields
    else StoreAll(if es[0].Known? then Store(fields, es[0].key, es[0].value) else fields, es[1..])
  }

  lemma EntryRoundTrip(c: Codecs, schema: Schema, n: nat, e: Entry, fields: Fields, rest: seq<byte>)
    requires SelfDelimiting(c) && Acceptable(schema, e) && EncodeEntry(c, e).Some?
    ensures DecodeEntries(c, schema, n + 1, fields, EncodeEntry(c, e).value + rest)
            == DecodeEntries(c, schema, n, if e.Known? then Store(fields, e.key, e.value) else fields, rest)
  {
    var payload := if e.Known? then EncodeValue(c, e.value).value else e.item;
    assert EncodeEntry(c, e).value + rest == EncodeText(e.key) + (payload + rest);
    TextItemRoundTrip(e.key, payload + rest);
    if e.Known? {
      ValueRoundTrip(c, e.value, schema[e.key], rest);
    } else {
      SkipItem(e.item, rest);
    }
  }

  lemma {:induction false} EntriesRoundTrip(c: Codecs, schema: Schema, es: seq<Entry>, fields: Fields, rest: seq<byte>)
    requires SelfDelimiting(c) && EncodeEntries(c, es).Some?
    requires forall e :: e in es ==> Acceptable(schema, e)
    ensures DecodeEntries(c, schema, |es|, fields, EncodeEntries(c, es).value + rest) == Ok((StoreAll(fields, es), rest))
    decreases |es|
  {
    if es == [] {
      assert [] + rest == rest;
    } else {
      var more := EncodeEntries(c, es[1..]).value + rest;
      assert EncodeEntries(c, es).value + rest == EncodeEntry(c, es[0]).value + more;
      EntryRoundTrip(c, schema, |es| - 1, es[0], fields, more);
      EntriesRoundTrip(c, schema, es[1..],
                       if es[0].Known? then Store(fields, es[0].key, es[0].value) else fields, rest);
    }
  }

  lemma {:induction false} MapHeadRoundTrip(c: Codecs, schema: Schema, n: nat, body: seq<byte>)
    requires n <= MAX_LENGTH
    ensures DecodeMap(c, schema, Head(MAJ_MAP, n) + body) == DecodeEntries(c, schema, n, map[], body)
  {
    HeadRoundTrip(MAJ_MAP, n, body);
  }

  /** Decoding an encoded map followed by anything stores its fields and leaves exactly what followed. */
  lemma {:induction false} MapRoundTrip(c: Codecs, schema: Schema, es: seq<Entry>, rest: seq<byte>)
    requires SelfDelimiting(c) && |es| <= MAX_LENGTH && EncodeMap(c, es).Some?
    requires forall e :: e in es ==> Acceptable(schema, e)
    ensures DecodeMap(c, schema, EncodeMap(c, es).value + rest) == Ok((StoreAll(map[], es), rest))
  {
    var body := EncodeEntries(c, es).value;
    ConcatAssociative(Head(MAJ_MAP, |es|), body, rest);
    MapHeadRoundTrip(c, schema, |es|, body + rest);
    EntriesRoundTrip(c, schema, es, map[], rest);
  }

  // ----- order independence

  /** No two fields of `es` have the same key. */
  ghost predicate DistinctKeys(es: seq<Entry>) {
    forall i, j :: 0 <= i < j < |es| && es[i].Known? && es[j].Known? ==> es[i].key != es[j].key
  }

  predicate Assigns(e: Entry) {
    e.Known? && e.value != NullV && e.value != LabelsV([])
  }

  /** With distinct keys, what is stored is what the entries say, in whatever order they come. */
  lemma {:induction false} StoreAllContents(fields: Fields, es: seq<Entry>)
    requires DistinctKeys(es)
    ensures var stored := StoreAll(fields, es);
            && (forall e :: e in es && Assigns(e) ==> e.key in stored && stored[e.key] == e.value)
            && (forall k :: k in stored ==>
                  (exists e :: e in es && Assigns(e) && e.key == k) || (k in fields && stored[k] == fields[k]))
            && (forall k :: k in fields ==> k in stored)
            && (forall k :: k in fields && (forall e :: e in es && e.Known? ==> e.key != k) ==> stored[k] == fields[k])
    decreases |es|
  {
    if es != [] {
      var next := if es[0].Known? then Store(fields, es[0].key, es[0].value) else fields;
      StoreAllContents(next, es[1..]);
      assert forall e :: e in es <==> e == es[0] || e in es[1..];
      if Assigns(es[0]) {
        forall e | e in es[1..] && e.Known? ensures e.key != es[0].key {
          var j :| 0 <= j < |es[1..]| && es[1..][j] == e;
          assert es[j + 1] == e;
        }
      }
    }
  }

  /** Of several entries under one key the last that assigns anything is the one that counts. */
  lemma {:induction false} LastEntryWins(fields: Fields, es: seq<Entry>, i: nat)
    requires i < |es| && Assigns(es[i])
    requires forall j :: i < j < |es| && Assigns(es[j]) ==> es[j].key != es[i].key
    ensures es[i].key in StoreAll(fields, es) && StoreAll(fields, es)[es[i].key] == es[i].value
    decreases |es|
  {
    var next := if es[0].Known? then Store(fields, es[0].key, es[0].value) else fields;
    if i > 0 {
      LastEntryWins(next, es[1..], i - 1);
    } else {
      NothingMoreAssigned(next, es[1..], es[0].key);
    }
  }

  lemma {:induction false} NothingMoreAssigned(fields: Fields, es: seq<Entry>, key: Text)
    requires forall j :: 0 <= j < |es| && Assigns(es[j]) ==> es[j].key != key
    ensures key in StoreAll(fields, es) <==> key in fields
    ensures key in fields ==> StoreAll(fields, es)[key] == fields[key]
    decreases |es|
  {
    if es != [] {
      NothingMoreAssigned(if es[0].Known? then Store(fields, es[0].key, es[0].value) else fields, es[1..], key);
    }
  }

  /**
   Any two lists of acceptable entries with distinct keys and the same fields decode to the same thing,
   whatever the order of the fields and whatever unknown entries lie between them.
   */
  lemma {:induction false} OrderIndependent(c: Codecs, schema: Schema, es: seq<Entry>, fs: seq<Entry>, rest: seq<byte>)
    requires SelfDelimiting(c) && |es| <= MAX_LENGTH && |fs| <= MAX_LENGTH
    requires EncodeMap(c, es).Some? && EncodeMap(c, fs).Some?
    requires forall e :: e in es || e in fs ==> Acceptable(schema, e)
    requires DistinctKeys(es) && DistinctKeys(fs)
    requires forall e: Entry :: e.Known? ==> (e in es <==> e in fs)
    ensures DecodeMap(c, schema, EncodeMap(c, es).value + rest) == DecodeMap(c, schema, EncodeMap(c, fs).value + rest)
    ensures DecodeMap(c, schema, EncodeMap(c, es).value + rest).Ok?
  {
    MapRoundTrip(c, schema, es, rest);
    MapRoundTrip(c, schema, fs, rest);
    StoreAllContents(map[], es);
    StoreAllContents(map[], fs);
    var a: Fields, b: Fields := StoreAll(map[], es), StoreAll(map[], fs);
    assert forall k :: k in a ==> k in b && a[k] == b[k];
    assert forall k :: k in b ==> k in a;
    assert a == b;
  }
}
