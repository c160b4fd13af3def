/** The bytes on the wire, in the numbers of section 3.1 of RFC 8949 rather than in the codecs' own terms. */
module WireFormat {
  import opened Prelude
  import opened Cbor
  import opened MapCodec
  import opened Structs
  import opened Frames

  // ----- item heads

  /** The head of an item of this major type: the shortest of the five forms, most significant byte first. */
  predicate IsHead(bs: seq<byte>, major: nat, n: nat) {
    if n < 24 then bs == [32 * major + n]
    else if n < 0x100 then bs == [32 * major + 24, n]
    else if n < 0x1_0000 then bs == [32 * major + 25, n / 0x100, n % 0x100]
    else if n < 0x1_0000_0000 then
      |bs| == 5 && bs[0] == 32 * major + 26 && forall i :: 0 < i < 5 ==> bs[i] == Digit(n, 4 - i)
    else
      |bs| == 9 && bs[0] == 32 * major + 27 && forall i :: 0 < i < 9 ==> bs[i] == Digit(n, 8 - i)
  }

  /** The byte of `n` that counts multiples of 256 to the power `k`. */
  function Digit(n: nat, k: nat): byte {
    if k == 0 then n % 256 else Digit(n / 256, k - 1)
  }

  lemma {:induction false} BigEndianDigits(n: nat, k: nat, i: nat)
    requires i < k
    ensures BigEndian(n, k)[i] == Digit(n, k - 1 - i)
  {
    if i < k - 1 {
      BigEndianDigits(n / 256, k - 1, i);
    }
  }

  lemma HeadFormat(major: nat, n: nat)
    requires major < 8 && n < TWO_64
    ensures IsHead(Head(major, n), major, n)
  {
    var k := if n < 0x100 then 1 else if n < 0x1_0000 then 2 else if n < 0x1_0000_0000 then 4 else 8;
    forall i | 0 <= i < k ensures BigEndian(n, k)[i] == Digit(n, k - 1 - i) {
      BigEndianDigits(n, k, i);
    }
    if n >= 24 {
      assert forall i :: 0 < i < k + 1 ==> Head(major, n)[i] == BigEndian(n, k)[i - 1];
      assert k == 1 ==> Digit(n, 0) == n;
      assert k == 2 ==> Digit(n, 1) == n / 0x100;
    }
  }

  // ----- integers and strings

  /** A signed integer: major type 0 with its value, or 1 with -1 minus it. */
  lemma IntFormat(v: int64)
    ensures IsHead(EncodeInt64(v), if v >= 0 then 0 else 1, if v >= 0 then v else -1 - v as int)
  {
    if v >= 0 {
      HeadFormat(0, v);
    } else {
      NegativeArgumentIsExact(v);
      HeadFormat(1, -1 - v as int);
    }
  }

  /** A text string: major type 3 with its length, then its characters. */
  ghost predicate IsText(bs: seq<byte>, t: Text) {
    && |t| <= |bs| && IsHead(bs[..|bs| - |t|], 3, |t|)
    && forall i :: 0 <= i < |t| ==> bs[|bs| - |t| + i] == t[i] as int
  }

  lemma TextFormat(t: Text)
    requires |t| <= 8192
    ensures IsText(EncodeText(t), t)
  {
    HeadFormat(3, |t|);
    var bs := EncodeText(t);
    assert bs[..|bs| - |t|] == Head(3, |t|);
  }

  /** The labels of an array, one after the other; an absent one is null. */
  function LabelBytes(c: Codecs, ls: seq<Option<Label>>): seq<byte> {
    if ls == [] then []
    else
      (match ls[0]
       case None => [0xf6]
       case Some(l) => if c.encLabel(l).Some? then c.encLabel(l).value else [])
      + LabelBytes(c, ls[1..])
  }

  lemma {:induction false} LabelsFormat(c: Codecs, ls: seq<Option<Label>>)
    requires EncodeLabels(c, ls).Some?
    ensures EncodeLabels(c, ls).value == LabelBytes(c, ls)
  {
    if ls != [] {
      LabelsFormat(c, ls[1..]);
    }
  }

  /** An array of labels: major type 4 with their number, then the labels. */
  ghost predicate IsLabelArray(c: Codecs, bs: seq<byte>, ls: seq<Option<Label>>) {
    exists n :: 0 <= n <= |bs| && IsHead(bs[..n], 4, |ls|) && bs[n..] == LabelBytes(c, ls)
  }

  lemma ArrayFormat(c: Codecs, ls: seq<Option<Label>>)
    requires EncodeValue(c, LabelsV(ls)).Some?
    ensures IsLabelArray(c, EncodeValue(c, LabelsV(ls)).value, ls)
  {
    LabelsFormat(c, ls);
    HeadFormat(4, |ls|);
    var head, bs := Head(MAJ_ARRAY, |ls|), EncodeValue(c, LabelsV(ls)).value;
    assert bs[..|head|] == head && bs[|head|..] == LabelBytes(c, ls);
  }

  // ----- maps

  /** Key and value bytes in turn; each key is a text string of fewer than 24 characters. */
  function Layout(fields: seq<(Text, seq<byte>)>): seq<byte>
    requires forall f :: f in fields ==> |f.0| < 24
  {
    if fields == [] then []
    else [0x60 + |fields[0].0|] + TextBytes(fields[0].0) + fields[0].1 + Layout(fields[1..])
  }

  function ValueBytes(c: Codecs, v: Value): seq<byte> {
    if EncodeValue(c, v).Some? then EncodeValue(c, v).value else []
  }

  predicate ShortFields(es: seq<Entry>) {
    forall e :: e in es ==> e.Known? && |e.key| < 24
  }

  function FieldsOf(c: Codecs, es: seq<Entry>): (fields: seq<(Text, seq<byte>)>)
    requires ShortFields(es)
    ensures |fields| == |es| && forall f :: f in fields ==> |f.0| < 24
  {
    seq(|es|, i requires 0 <= i < |es| => assert es[i] in es; (es[i].key, ValueBytes(c, es[i].value)))
  }

  lemma {:induction false} EntriesFormat(c: Codecs, es: seq<Entry>)
    requires ShortFields(es) && EncodeEntries(c, es).Some?
    ensures EncodeEntries(c, es).value == Layout(FieldsOf(c, es))
  {
    if es != [] {
      EntriesFormat(c, es[1..]);
      assert es[0] in es;
      assert FieldsOf(c, es)[1..] == FieldsOf(c, es[1..]);
      HeadFormat(3, |es[0].key|);
    }
  }

  lemma MapFormat(c: Codecs, es: seq<Entry>)
    requires ShortFields(es) && |es| < 24 && EncodeMap(c, es).Some?
    ensures EncodeMap(c, es).value == [0xa0 + |es|] + Layout(FieldsOf(c, es))
  {
    EntriesFormat(c, es);
    HeadFormat(5, |es|);
  }

  /** `bs` is a map of these fields: 0xa0 plus their number, then each key with its value. */
  ghost predicate IsMap(bs: seq<byte>, fields: seq<(Text, seq<byte>)>) {
    && (forall f :: f in fields ==> |f.0| < 24) && |fields| < 24
    && bs == [0xa0 + |fields|] + Layout(fields)
  }

  /** Every struct is a map of its fields. */
  lemma {:induction false} StructFormat(c: Codecs, s: Struct)
    requires Encode(c, s).Some?
    ensures WithinLimits(c, s) && ShortFields(EntriesOf(s)) && IsMap(Encode(c, s).value, FieldsOf(c, EntriesOf(s)))
  {
    EncodesWithinLimits(c, s);
    FieldsAreShort(s);
    hide EntriesOf, ShortFields, FieldsOf, WithinLimits;
    MapFormat(c, EntriesOf(s));
  }

  lemma FieldsAreShort(s: Struct)
    ensures ShortFields(EntriesOf(s))
  {
  }

  lemma LabelsStructFormat(c: Codecs, relaySeq: int64, src: Text, ls: seq<Option<Label>>, upstream: int64)
    requires Encode(c, Labels(relaySeq, src, ls, upstream)).Some?
    ensures exists text, items ::
              && IsText(text, src) && IsLabelArray(c, items, ls)
              && IsMap(Encode(c, Labels(relaySeq, src, ls, upstream)).value,
                       [("seq", EncodeInt64(relaySeq)), ("src", text), ("labels", items), ("upstreamSeq", EncodeInt64(upstream))])
  {
    hide Encode, EncodeText, IsText, IsMap;
    var s := Labels(relaySeq, src, ls, upstream);
    StructFormat(c, s);
    TextFormat(src);
    LabelsEncodable(c, ls);
    ArrayFormat(c, ls);
    assert FieldsOf(c, EntriesOf(s)) ==
      [("seq", EncodeInt64(relaySeq)), ("src", EncodeText(src)), ("labels", EncodeValue(c, LabelsV(ls)).value),
       ("upstreamSeq", EncodeInt64(upstream))];
  }

  lemma ServiceStructFormat(c: Codecs, action: Text, relaySeq: int64, src: Text, record: Option<Record>)
    requires Encode(c, Service(action, relaySeq, src, record)).Some?
    ensures exists actionText, srcText ::
              && IsText(actionText, action) && IsText(srcText, src)
              && (record.Some? ==> c.encRecord(record.value).Some?)
              && IsMap(Encode(c, Service(action, relaySeq, src, record)).value,
                       [("op", actionText), ("seq", EncodeInt64(relaySeq)), ("src", srcText)]
                       + if record.Some? then [("record", c.encRecord(record.value).value)] else [])
  {
    hide Encode, EncodeText, IsText, IsMap;
    var s := Service(action, relaySeq, src, record);
    StructFormat(c, s);
    TextFormat(action);
    TextFormat(src);
    assert FieldsOf(c, EntriesOf(s)) ==
      [("op", EncodeText(action)), ("seq", EncodeInt64(relaySeq)), ("src", EncodeText(src))]
      + if record.Some? then [("record", c.encRecord(record.value).value)] else [];
  }

  lemma InfoStructFormat(c: Codecs, name: Text, note: Option<Text>)
    requires Encode(c, Info(name, note)).Some?
    ensures note.None? ==> exists nameText ::
                IsText(nameText, name) && IsMap(Encode(c, Info(name, note)).value, [("name", nameText)])
    ensures note.Some? ==> exists nameText, noteText ::
                && IsText(nameText, name) && IsText(noteText, note.value)
                && IsMap(Encode(c, Info(name, note)).value, [("name", nameText), ("message", noteText)])
  {
    hide Encode, EncodeText, IsText, IsMap;
    var s := Info(name, note);
    StructFormat(c, s);
    TextFormat(name);
    if note.Some? {
      TextFormat(note.value);
      assert FieldsOf(c, EntriesOf(s)) == [("name", EncodeText(name)), ("message", EncodeText(note.value))];
    } else {
      assert FieldsOf(c, EntriesOf(s)) == [("name", EncodeText(name))];
    }
  }

  lemma HeaderStructFormat(c: Codecs, t: Text, op: int64)
    requires Encode(c, Header(t, op)).Some?
    ensures exists text ::
              && IsText(text, t)
              && IsMap(Encode(c, Header(t, op)).value, (if t != "" then [("t", text)] else []) + [("op", EncodeInt64(op))])
  {
    hide Encode, EncodeText, IsText, IsMap;
    var s := Header(t, op);
    StructFormat(c, s);
    TextFormat(t);
    assert FieldsOf(c, EntriesOf(s)) == (if t != "" then [("t", EncodeText(t))] else []) + [("op", EncodeInt64(op))];
  }

  lemma ErrorStructFormat(c: Codecs, error: Text, message: Text)
    requires Encode(c, Error(error, message)).Some?
    ensures exists errorText, messageText ::
              && IsText(errorText, error) && IsText(messageText, message)
              && IsMap(Encode(c, Error(error, message)).value, [("error", errorText), ("message", messageText)])
  {
    hide Encode, EncodeText, IsText, IsMap;
    var s := Error(error, message);
    StructFormat(c, s);
    TextFormat(error);
    TextFormat(message);
    assert FieldsOf(c, EntriesOf(s)) == [("error", EncodeText(error)), ("message", EncodeText(message))];
  }

  // ----- frames

  /** A message frame: the map {t, op: 1}, then the body as it was given. */
  lemma MessageFrameFormat(c: Codecs, msgType: Text, body: seq<byte>)
    requires MessageFrame(c, msgType, body).Some?
    ensures exists text, header ::
              && IsText(text, msgType) && IsMap(header, (if msgType != "" then [("t", text)] else []) + [("op", [0x01])])
              && MessageFrame(c, msgType, body).value == header + body
  {
    hide Encode, IsMap, IsText;
    HeaderStructFormat(c, msgType, 1);
    assert EncodeInt64(1) == [0x01];
  }

  /** An error frame: the map {op: -1}, then the map {error, message}. */
  lemma ErrorFrameFormat(c: Codecs, name: Text, message: Text)
    requires ErrorFrame(c, name, message).Some?
    ensures exists errorText, messageText, header, body ::
              && IsText(errorText, name) && IsText(messageText, message)
              && IsMap(header, [("op", [0x20])]) && IsMap(body, [("error", errorText), ("message", messageText)])
              && ErrorFrame(c, name, message).value == header + body
  {
    hide Encode, IsMap, IsText;
    HeaderStructFormat(c, "", -1);
    ErrorStructFormat(c, name, message);
    assert EncodeInt64(-1) == [0x20];
    assert [] + [("op", EncodeInt64(-1))] == [("op", [0x20])];
    var header, body := Encode(c, Header("", -1)).value, Encode(c, Error(name, message)).value;
    assert IsMap(header, [("op", [0x20])]);
    var errorText, messageText :| IsText(errorText, name) && IsText(messageText, message)
                                  && IsMap(body, [("error", errorText), ("message", messageText)]);
  }

  // ----- what the decoders accept

  lemma {:induction false} DigitsOf(bs: seq<byte>, i: nat)
    requires i < |bs|
    ensures bs[i] == Digit(FromBigEndian(bs), |bs| - 1 - i)
  {
    var n := |bs| - 1;
    if i < n {
      DigitsOf(bs[..n], i);
      assert FromBigEndian(bs) / 256 == FromBigEndian(bs[..n]);
    }
  }

  /** How many bytes follow an initial byte; None for the reserved and indefinite-length forms. */
  function Following(initial: byte): Option<nat> {
    var info := initial % 32;
    if info < 24 then Some(0)
    else if info < 28 then Some([1, 2, 4, 8][info - 24])
    else None
  }

  /** A head is read exactly when all of it is there; longer forms than needed are read too. */
  lemma ReadHeadMeans(bs: seq<byte>)
    ensures ReadHead(bs).Ok? <==> bs != [] && Following(bs[0]).Some? && Following(bs[0]).value < |bs|
    ensures ReadHead(bs).Ok? ==>
              var k, h := Following(bs[0]).value, ReadHead(bs).value;
              && h.major == bs[0] / 32 && h.rest == bs[k + 1..]
              && (k == 0 ==> h.arg == bs[0] % 32)
              && forall i :: 0 < i <= k ==> bs[i] == Digit(h.arg, k - i)
  {
    if ReadHead(bs).Ok? {
      var k, h := Following(bs[0]).value, ReadHead(bs).value;
      forall i | 0 < i <= k ensures bs[i] == Digit(h.arg, k - i) {
        DigitsOf(bs[1..1 + k], i - 1);
      }
    }
  }

  /** Text is refused under any major type but 3, and above 8192 bytes. */
  lemma TextRefused(bs: seq<byte>)
    ensures ReadText(bs).Ok? ==> bs[0] / 32 == 3 && |ReadText(bs).value.0| <= 8192
    ensures ReadText(bs).Ok? <==>
              && ReadHead(bs).Ok? && bs[0] / 32 == 3
              && ReadHead(bs).value.arg <= 8192 && ReadHead(bs).value.arg <= |ReadHead(bs).value.rest|
  {
  }

  /** Integers are refused under any major type but 0 and 1, and outside the int64 range. */
  lemma IntegerRefused(bs: seq<byte>)
    ensures ReadInt64(bs).Ok? <==>
              ReadHead(bs).Ok? && bs[0] / 32 <= 1 && ReadHead(bs).value.arg < 0x8000_0000_0000_0000
    ensures ReadInt64(bs).Ok? ==>
              ReadInt64(bs).value.0 as int == if bs[0] / 32 == 0 then ReadHead(bs).value.arg else -1 - ReadHead(bs).value.arg
  {
  }

  /** A label array is refused under any major type but 4, and above 8192 labels. */
  lemma ArrayRefused(c: Codecs, bs: seq<byte>)
    requires ReadValue(c, LabelsField, bs).Ok?
    ensures bs[0] / 32 == 4 && ReadHead(bs).value.arg <= 8192
  {
  }

  /** A struct is refused under any major type but 5, and above 8192 fields. */
  lemma MapRefused(c: Codecs, shape: Shape, bs: seq<byte>)
    requires Decode(c, shape, bs).Ok?
    ensures bs[0] / 32 == 5 && ReadHead(bs).value.arg <= 8192
  {
  }

  /** The optional fields and labels that are absent are the single byte 0xf6. */
  lemma NullIsAbsent(c: Codecs, rest: seq<byte>)
    ensures ReadLabel(c, [0xf6] + rest) == Ok((None, rest))
    ensures ReadValue(c, OptionalTextField, [0xf6] + rest) == Ok((NullV, rest))
    ensures ReadValue(c, OptionalRecordField, [0xf6] + rest) == Ok((NullV, rest))
  {
    assert ([0xf6] + rest)[1..] == rest;
  }

  /** A map without fields is the zero value of the struct. */
  lemma {:induction false} EmptyMapIsZero(c: Codecs, rest: seq<byte>)
    ensures Decode(c, LabelsShape, [0xa0] + rest) == Ok((Labels(0, "", [], 0), rest))
    ensures Decode(c, ServiceShape, [0xa0] + rest) == Ok((Service("", 0, "", None), rest))
    ensures Decode(c, InfoShape, [0xa0] + rest) == Ok((Info("", None), rest))
    ensures Decode(c, HeaderShape, [0xa0] + rest) == Ok((Header("", 0), rest))
    ensures Decode(c, ErrorShape, [0xa0] + rest) == Ok((Error("", ""), rest))
  {
    hide SchemaOf;
    assert ([0xa0] + rest)[1..] == rest;
    assert forall schema :: DecodeMap(c, schema, [0xa0] + rest) == Ok((map[], rest));
  }

  // ----- items of any nesting

  /** A well-formed data item; the entries of a map are its keys and values in turn. */
  datatype Item =
    | Unsigned(n: nat) | Negative(n: nat) | Bytes(payload: seq<byte>) | String(payload: seq<byte>)
    | Array(items: seq<Item>) | Map(entries: seq<Item>) | Tag(n: nat, item: Item) | Simple(n: nat)

  const LIMIT := 0x1_0000_0000_0000_0000

  /** Every argument fits in 64 bits, and keys have values. */
  predicate Fits(x: Item) {
    match x
    case Bytes(payload) => |payload| < LIMIT
    case String(payload) => |payload| < LIMIT
    case Array(items) => |items| < LIMIT && forall y :: y in items ==> Fits(y)
    case Map(entries) => |entries| % 2 == 0 && |entries| / 2 < LIMIT && forall y :: y in entries ==> Fits(y)
    case Tag(n, item) => n < LIMIT && Fits(item)
    case _ => x.n < LIMIT
  }

  function ItemBytes(x: Item): seq<byte>
    requires Fits(x)
  {
    match x
    case Unsigned(n) => Head(0, n)
    case Negative(n) => Head(1, n)
    case Bytes(payload) => Head(2, |payload|) + payload
    case String(payload) => Head(3, |payload|) + payload
    case Array(items) => Head(4, |items|) + ItemsBytes(items)
    case Map(entries) => Head(5, |entries| / 2) + ItemsBytes(entries)
    case Tag(n, item) => Head(6, n) + ItemBytes(item)
    case Simple(n) => Head(7, n)
  }

  function ItemsBytes(xs: seq<Item>): seq<byte>
    requires forall x :: x in xs ==> Fits(x)
  {
    if xs == [] then [] else ItemBytes(xs[0]) + ItemsBytes(xs[1..])
  }

  lemma SkipOneMore(bs: seq<byte>, k: nat)
    requires ReadShallow(bs).Ok?
    ensures Skip(bs, k + 1) == Skip(ReadShallow(bs).value.0, k + ReadShallow(bs).value.1)
  {
  }

  lemma {:induction false} SkipHead(major: nat, arg: nat, more: seq<byte>, k: nat)
    requires major < 8 && arg < LIMIT
    ensures major !in {2, 3} ==>
              Skip(Head(major, arg) + more, k + 1)
              == Skip(more, k + if major == 4 then arg else if major == 5 then 2 * arg else if major == 6 then 1 else 0)
    ensures major in {2, 3} && arg <= |more| ==> Skip(Head(major, arg) + more, k + 1) == Skip(more[arg..], k)
  {
    hide Skip, Head;
    HeadRoundTrip(major, arg, more);
    if ReadShallow(Head(major, arg) + more).Ok? {
      SkipOneMore(Head(major, arg) + more, k);
    }
  }

  /** Skipping takes exactly the next item, whatever is nested in it. */
  lemma {:induction false} ItemIsSkipped(x: Item, more: seq<byte>, k: nat)
    requires Fits(x)
    ensures Skip(ItemBytes(x) + more, k + 1) == Skip(more, k)
    decreases x
  {
    hide Skip, Head;
    match x {
      case Unsigned(n) => SkipHead(0, n, more, k);
      case Negative(n) => SkipHead(1, n, more, k);
      case Simple(n) => SkipHead(7, n, more, k);
      case Bytes(payload) =>
        SkipHead(2, |payload|, payload + more, k);
        assert ItemBytes(x) + more == Head(2, |payload|) + (payload + more) && (payload + more)[|payload|..] == more;
      case String(payload) =>
        SkipHead(3, |payload|, payload + more, k);
        assert ItemBytes(x) + more == Head(3, |payload|) + (payload + more) && (payload + more)[|payload|..] == more;
      case Array(items) =>
        var inner := ItemsBytes(items);
        SkipHead(4, |items|, inner + more, k);
        assert ItemBytes(x) + more == Head(4, |items|) + (inner + more);
        ItemsAreSkipped(items, more, k);
      case Map(entries) =>
        var inner := ItemsBytes(entries);
        SkipHead(5, |entries| / 2, inner + more, k);
        assert ItemBytes(x) + more == Head(5, |entries| / 2) + (inner + more);
        ItemsAreSkipped(entries, more, k);
      case Tag(n, item) =>
        var inner := ItemBytes(item);
        SkipHead(6, n, inner + more, k);
        assert ItemBytes(x) + more == Head(6, n) + (inner + more);
        ItemIsSkipped(item, more, k);
    }
  }

  lemma {:induction false} ItemsAreSkipped(xs: seq<Item>, more: seq<byte>, k: nat)
    requires forall x :: x in xs ==> Fits(x)
    ensures Skip(ItemsBytes(xs) + more, k + |xs|) == Skip(more, k)
    decreases xs
  {
    hide Skip, ItemBytes;
    if xs == [] {
      assert ItemsBytes(xs) + more == more;
    } else {
      var rest := ItemsBytes(xs[1..]) + more;
      assert ItemsBytes(xs) + more == ItemBytes(xs[0]) + rest;
      ItemIsSkipped(xs[0], rest, k + |xs| - 1);
      ItemsAreSkipped(xs[1..], more, k);
    }
  }

  /** Every well-formed item is one an unknown field may hold. */
  lemma WellFormedIsItem(x: Item)
    requires Fits(x)
    ensures IsItem(ItemBytes(x))
  {
    hide ItemBytes;
    ItemIsSkipped(x, [], 0);
    assert ItemBytes(x) + [] == ItemBytes(x);
  }
}
