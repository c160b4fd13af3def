/** The writers and readers of cbor_gen.go and frames.go, byte by byte, against the codecs of Structs. */
module CborStreams {
  import opened Prelude
  import opened Cbor
  import opened MapCodec
  import opened Structs

  /** Where an encoder writes: a bytes.Buffer or the frameWriter of subscribe.go:265. */
  class Writer {
    var buf: seq<byte>

    constructor ()
      ensures buf == []
    {
      buf := [];
    }

    method Write(bs: seq<byte>)
      modifies this
      ensures buf == old(buf) + bs
    {
      buf := buf + bs;
    }
  }

  /** Where a decoder reads: the bytes not yet consumed. */
  class Reader {
    var rest: seq<byte>

    constructor (bs: seq<byte>)
      ensures rest == bs
    {
      rest := bs;
    }

    method ReadHeader() returns (r: Result<HeadRead>)
      modifies this
      ensures r == ReadHead(old(rest))
      ensures rest == if r.Ok? then r.value.rest else old(rest)
    {
      r := ReadHead(rest);
      if r.Ok? {
        rest := r.value.rest;
      }
    }

    method ReadString() returns (r: Result<Text>)
      modifies this
      ensures match ReadText(old(rest))
              case Ok((t, more)) => r == Ok(t) && rest == more
              case Err(_) => r.Err?
    {
      var h := ReadHeader();
      if h.Err? {
        return Err(h.reason);
      }
      if h.value.major != MAJ_TEXT {
        return Err("expected text string");
      }
      if h.value.arg > MAX_LENGTH {
        return Err("string too large");
      }
      if |rest| < h.value.arg {
        return Err("unexpected EOF");
      }
      r := Ok(BytesText(rest[..h.value.arg]));
      rest := rest[h.value.arg..];
    }

    /** cbg.ScanForLinks over one item (cbor_gen.go:287). */
    method SkipOne() returns (ok: bool)
      modifies this
      ensures match Skip(old(rest), 1)
              case Ok(more) => ok && rest == more
              case Err(_) => !ok
    {
      var remaining := 1;
      while remaining > 0
        invariant Skip(rest, remaining) == Skip(old(rest), 1)
        decreases |rest|
      {
        var step := ReadShallow(rest);
        if step.Err? {
          return false;
        }
        rest, remaining := step.value.0, remaining - 1 + step.value.1;
      }
      ok := true;
    }

    /** The array loop of cbor_gen.go:212-257. */
    method ReadLabelArray(c: Codecs, n: nat) returns (r: Result<seq<Option<Label>>>)
      modifies this
      ensures match ReadLabels(c, old(rest), n)
              case Ok((ls, more)) => r == Ok(ls) && rest == more
              case Err(_) => r.Err?
    {
      var ls := [];
      var i := 0;
      while i < n
        invariant 0 <= i <= n
        invariant match ReadLabels(c, old(rest), n)
                  case Ok((all, more)) =>
                    ReadLabels(c, rest, n - i).Ok? && ReadLabels(c, rest, n - i).value.1 == more
                    && ls + ReadLabels(c, rest, n - i).value.0 == all
                  case Err(_) => ReadLabels(c, rest, n - i).Err?
      {
        var one := ReadLabel(c, rest);
        if one.Err? {
          return Err(one.reason);
        }
        ls, rest, i := ls + [one.value.0], one.value.1, i + 1;
      }
      assert ls + [] == ls;
      r := Ok(ls);
    }

    method ReadField(c: Codecs, kind: Kind) returns (r: Result<Value>)
      modifies this
      ensures match ReadValue(c, kind, old(rest))
              case Ok((v, more)) => r == Ok(v) && rest == more
              case Err(_) => r.Err?
    {
      if kind.LabelsField? {
        var h := ReadHeader();
        if h.Err? {
          return Err(h.reason);
        }
        if h.value.arg > MAX_LENGTH {
          return Err("array too large");
        }
        if h.value.major != MAJ_ARRAY {
          return Err("expected cbor array");
        }
        var ls := ReadLabelArray(c, h.value.arg);
        r := if ls.Ok? then Ok(LabelsV(ls.value)) else Err(ls.reason);
      } else {
        var v := ReadValue(c, kind, rest);
        if v.Err? {
          return Err(v.reason);
        }
        rest := v.value.1;
        r := Ok(v.value.0);
      }
    }

    /** One turn of the field loop: read a key, then store its value or skip it. */
    method ReadEntry(c: Codecs, schema: Schema, fields: Fields, ghost left: nat) returns (r: Result<Fields>)
      modifies this
      ensures var whole := DecodeEntries(c, schema, left + 1, fields, old(rest));
              if r.Ok? then whole == DecodeEntries(c, schema, left, r.value, rest) else whole.Err?
    {
      var key := ReadString();
      if key.Err? {
        return Err(key.reason);
      }
      if key.value in schema {
        var v := ReadField(c, schema[key.value]);
        if v.Err? {
          return Err(v.reason);
        }
        r := Ok(Store(fields, key.value, v.value));
      } else {
        var ok := SkipOne();
        if !ok {
          return Err("malformed unknown field");
        }
        r := Ok(fields);
      }
    }

    /** The field loop of UnmarshalCBOR. */
    method ReadEntries(c: Codecs, schema: Schema, n: nat) returns (r: Result<Fields>)
      modifies this
      ensures match DecodeEntries(c, schema, n, map[], old(rest))
              case Ok((f, more)) => r == Ok(f) && rest == more
              case Err(_) => r.Err?
    {
      hide ReadText, ReadValue, Skip, Store;
      var fields: Fields := map[];
      var left: nat := n;
      while left > 0
        invariant left <= n
        invariant DecodeEntries(c, schema, n, map[], old(rest)) == DecodeEntries(c, schema, left, fields, rest)
      {
        var next := ReadEntry(c, schema, fields, left - 1);
        if next.Err? {
          return Err(next.reason);
        }
        fields, left := next.value, left - 1;
      }
      r := Ok(fields);
    }

    method ReadMap(c: Codecs, schema: Schema) returns (r: Result<Fields>)
      modifies this
      ensures match DecodeMap(c, schema, old(rest))
              case Ok((f, more)) => r == Ok(f) && rest == more
              case Err(_) => r.Err?
    {
      var h := ReadHeader();
      if h.Err? {
        return Err(h.reason);
      }
      if h.value.major != MAJ_MAP {
        return Err("cbor input should be of type map");
      }
      if h.value.arg > MAX_LENGTH {
        return Err("map struct too large");
      }
      r := ReadEntries(c, schema, h.value.arg);
    }

    /** UnmarshalCBOR: a map in any order, unknown keys skipped. */
    method Unmarshal(c: Codecs, shape: Shape) returns (r: Result<Struct>)
      modifies this
      ensures match Decode(c, shape, old(rest))
              case Ok((s, more)) => r == Ok(s) && rest == more
              case Err(_) => r.Err?
    {
      var fields := ReadMap(c, SchemaOf(shape));
      r := if fields.Ok? then Ok(Build(shape, fields.value)) else Err(fields.reason);
    }
  }

  /** The fields of a struct, each in turn; false when one is refused. */
  method WriteEntries(c: Codecs, es: seq<Entry>, w: Writer) returns (ok: bool)
    modifies w
    ensures ok == EncodeEntries(c, es).Some?
    ensures ok ==> w.buf == old(w.buf) + EncodeEntries(c, es).value
  {
    var i := 0;
    assert es[0..] == es;
    while i < |es|
      invariant 0 <= i <= |es|
      invariant EncodeEntries(c, es).Some? <==> EncodeEntries(c, es[i..]).Some?
      invariant EncodeEntries(c, es).Some? ==>
                  old(w.buf) + EncodeEntries(c, es).value == w.buf + EncodeEntries(c, es[i..]).value
    {
      var bytes := EncodeEntry(c, es[i]);
      assert es[i..][1..] == es[i + 1..];
      if bytes.None? {
        return false;
      }
      ghost var before := w.buf;
      w.Write(bytes.value);
      if EncodeEntries(c, es[i + 1..]).Some? {
        ConcatAssociative(before, bytes.value, EncodeEntries(c, es[i + 1..]).value);
      }
      i := i + 1;
    }
    ok := true;
  }

  /** MarshalCBOR: the map head, then the fields. */
  method Marshal(c: Codecs, s: Struct, w: Writer) returns (ok: bool)
    modifies w
    ensures ok == Encode(c, s).Some?
    ensures ok ==> w.buf == old(w.buf) + Encode(c, s).value
  {
    var es := EntriesOf(s);
    w.Write(Head(MAJ_MAP, |es|));
    ok := WriteEntries(c, es, w);
    if ok {
      ConcatAssociative(old(w.buf), Head(MAJ_MAP, |es|), EncodeEntries(c, es).value);
    }
  }
}
