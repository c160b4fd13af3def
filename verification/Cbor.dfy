/** CBOR item heads, text strings and skipping, as in sections 3 and 3.1 of RFC 8949. */
module Cbor {
  import opened Prelude

  const MAJ_UNSIGNED := 0
  const MAJ_NEGATIVE := 1
  const MAJ_BYTES := 2
  const MAJ_TEXT := 3
  const MAJ_ARRAY := 4
  const MAJ_MAP := 5
  const MAJ_TAG := 6
  const CBOR_NULL: byte := 0xf6

  /** The limit cbor-gen puts on strings, arrays and map sizes in this repository. */
  const MAX_LENGTH := 8192

  function Pow256(k: nat): nat {
    if k == 0 then 1 else 256 * Pow256(k - 1)
  }

  /** `n` in `k` bytes, most significant first. */
  function BigEndian(n: nat, k: nat): (bs: seq<byte>)
    ensures |bs| == k
  {
    if k == 0 then [] else BigEndian(n / 256, k - 1) + [n % 256]
  }

  function FromBigEndian(bs: seq<byte>): nat {
    if bs == [] then 0 else 256 * FromBigEndian(bs[..|bs| - 1]) + bs[|bs| - 1]
  }

  lemma {:induction false} BigEndianRoundTrip(n: nat, k: nat)
    requires n < Pow256(k)
    ensures FromBigEndian(BigEndian(n, k)) == n
  {
    if k > 0 {
      BigEndianRoundTrip(n / 256, k - 1);
      assert BigEndian(n, k)[..k - 1] == BigEndian(n / 256, k - 1);
    }
  }

  lemma Powers()
    ensures Pow256(1) == 0x100 && Pow256(2) == 0x1_0000 && Pow256(4) == 0x1_0000_0000 && Pow256(8) == TWO_64
  {
    assert Pow256(3) == 0x100_0000;
    assert Pow256(6) == 0x1_0000_0000_0000;
  }

  /** The head of an item: its major type and argument, in the shortest form. */
  function Head(major: nat, arg: nat): (bs: seq<byte>)
    requires major < 8 && arg < TWO_64
    ensures bs != [] && bs[0] / 32 == major
  {
    if arg < 24 then [32 * major + arg]
    else if arg < 0x100 then [32 * major + 24] + BigEndian(arg, 1)
    else if arg < 0x1_0000 then [32 * major + 25] + BigEndian(arg, 2)
    else if arg < 0x1_0000_0000 then [32 * major + 26] + BigEndian(arg, 4)
    else [32 * major + 27] + BigEndian(arg, 8)
  }

  /** A parsed item head and the bytes after it. */
  datatype HeadRead = HeadRead(major: nat, arg: nat, rest: seq<byte>)

  /** How many argument bytes follow an initial byte with this additional information. */
  function ArgumentWidth(info: nat): Option<nat>
    requires info < 32
  {
    if info < 24 then Some(0)
    else if info == 24 then Some(1)
    else if info == 25 then Some(2)
    else if info == 26 then Some(4)
    else if info == 27 then Some(8)
    else None
  }

  function ReadHead(bs: seq<byte>): (r: Result<HeadRead>)
    ensures r.Ok? ==> r.value.major < 8 && r.value.arg < TWO_64
    ensures r.Ok? ==> |r.value.rest| < |bs|
  {
    if bs == [] then Err("unexpected EOF")
    else
      var major, info := bs[0] / 32, bs[0] % 32;
      match ArgumentWidth(info)
      case None => Err("invalid additional information")
      case Some(k) =>
        if |bs| < 1 + k then Err("unexpected EOF")
        else
          ArgumentBound(bs[1..1 + k]);
          Ok(HeadRead(major, if k == 0 then info else FromBigEndian(bs[1..1 + k]), bs[1 + k..]))
  }

  lemma {:induction false} FromBigEndianBound(bs: seq<byte>)
    ensures FromBigEndian(bs) < Pow256(|bs|)
  {
    if bs != [] {
      FromBigEndianBound(bs[..|bs| - 1]);
    }
  }

  lemma ArgumentBound(bs: seq<byte>)
    requires |bs| in {0, 1, 2, 4, 8}
    ensures FromBigEndian(bs) < TWO_64
  {
    FromBigEndianBound(bs);
    Powers();
  }

  lemma HeadRoundTrip(major: nat, arg: nat, rest: seq<byte>)
    requires major < 8 && arg < TWO_64
    ensures ReadHead(Head(major, arg) + rest) == Ok(HeadRead(major, arg, rest))
  {
    Powers();
    if arg >= 24 {
      var k := if arg < 0x100 then 1 else if arg < 0x1_0000 then 2 else if arg < 0x1_0000_0000 then 4 else 8;
      BigEndianRoundTrip(arg, k);
      var bs := Head(major, arg) + rest;
      assert bs[1..1 + k] == BigEndian(arg, k);
      assert bs[1 + k..] == rest;
    } else {
      assert (Head(major, arg) + rest)[1..] == rest;
    }
  }

  /** Reading a head looks no further than the head. */
  lemma ReadHeadPrefix(bs: seq<byte>, more: seq<byte>)
    requires ReadHead(bs).Ok?
    ensures var h := ReadHead(bs).value; ReadHead(bs + more) == Ok(h.(rest := h.rest + more))
  {
    var k := ArgumentWidth(bs[0] % 32).value;
    assert (bs + more)[1..1 + k] == bs[1..1 + k];
    assert (bs + more)[1 + k..] == bs[1 + k..] + more;
  }

  // ----- int64

  /** The argument of a negative integer: Go's uint64(-v-1), computed in int64. */
  function NegativeArgument(v: int64): int {
    Wrap64(Wrap64(-(v as int)) as int - 1) % TWO_64
  }

  lemma NegativeArgumentIsExact(v: int64)
    requires v < 0
    ensures NegativeArgument(v) == -(v as int) - 1
  {
  }

  function EncodeInt64(v: int64): seq<byte> {
    if v >= 0 then Head(MAJ_UNSIGNED, v) else Head(MAJ_NEGATIVE, NegativeArgument(v))
  }

  function ReadInt64(bs: seq<byte>): (r: Result<(int64, seq<byte>)>)
    ensures r.Ok? ==> |r.value.1| < |bs|
  {
    var h :- ReadHead(bs);
    var extra := Wrap64(h.arg);
    if h.major == MAJ_UNSIGNED then
      if extra < 0 then Err("int64 positive overflow") else Ok((extra, h.rest))
    else if h.major == MAJ_NEGATIVE then
      if extra < 0 then Err("int64 negative overflow") else Ok((-1 - extra as int, h.rest))
    else Err("wrong type for int64 field")
  }

  /** Every int64 survives, the least one included. */
  lemma Int64RoundTrip(v: int64, rest: seq<byte>)
    ensures ReadInt64(EncodeInt64(v) + rest) == Ok((v, rest))
  {
    hide Head, ReadHead;
    var x := v as int;
    var major, arg := if x >= 0 then MAJ_UNSIGNED else MAJ_NEGATIVE, if x >= 0 then x else -x - 1;
    if x < 0 {
      NegativeArgumentIsExact(v);
    }
    assert EncodeInt64(v) == Head(major, arg);
    HeadRoundTrip(major, arg, rest);
    assert Wrap64(arg) == arg;
  }

  // ----- text strings

  function EncodeText(t: Text): seq<byte>
    requires |t| <= MAX_LENGTH
  {
    Head(MAJ_TEXT, |t|) + TextBytes(t)
  }

  function ReadText(bs: seq<byte>): (r: Result<(Text, seq<byte>)>)
    ensures r.Ok? ==> |r.value.1| < |bs| && |r.value.0| <= MAX_LENGTH
  {
    var h :- ReadHead(bs);
    if h.major != MAJ_TEXT then Err("expected text string")
    else if h.arg > MAX_LENGTH then Err("string too large")
    else if |h.rest| < h.arg then Err("unexpected EOF")
    else Ok((BytesText(h.rest[..h.arg]), h.rest[h.arg..]))
  }

  lemma TextItemRoundTrip(t: Text, rest: seq<byte>)
    requires |t| <= MAX_LENGTH
    ensures ReadText(EncodeText(t) + rest) == Ok((t, rest))
  {
    HeadRoundTrip(MAJ_TEXT, |t|, TextBytes(t) + rest);
    assert EncodeText(t) + rest == Head(MAJ_TEXT, |t|) + (TextBytes(t) + rest);
    assert (TextBytes(t) + rest)[..|t|] == TextBytes(t);
    assert (TextBytes(t) + rest)[|t|..] == rest;
    TextRoundTrip(t);
  }

  // ----- skipping

  /** One head with its string payload, if any: the bytes after it, and how many items it holds inside. */
  function ReadShallow(bs: seq<byte>): (r: Result<(seq<byte>, nat)>)
    ensures r.Ok? ==> |r.value.0| < |bs|
  {
    var h :- ReadHead(bs);
    if h.major == MAJ_BYTES || h.major == MAJ_TEXT then
      if |h.rest| < h.arg then Err("unexpected EOF") else Ok((h.rest[h.arg..], 0))
    else if h.major == MAJ_ARRAY then Ok((h.rest, h.arg))
    else if h.major == MAJ_MAP then Ok((h.rest, 2 * h.arg))
    else if h.major == MAJ_TAG then Ok((h.rest, 1))
    else Ok((h.rest, 0))
  }

  lemma ReadShallowPrefix(bs: seq<byte>, more: seq<byte>)
    requires ReadShallow(bs).Ok?
    ensures var (rest, inner) := ReadShallow(bs).value; ReadShallow(bs + more) == Ok((rest + more, inner))
  {
    ReadHeadPrefix(bs, more);
    var h := ReadHead(bs).value;
    if h.major == MAJ_BYTES || h.major == MAJ_TEXT {
      assert (h.rest + more)[h.arg..] == h.rest[h.arg..] + more;
    }
  }

  /** Skip `remaining` items, counting those inside containers and tags as they appear. */
  function Skip(bs: seq<byte>, remaining: nat): (r: Result<seq<byte>>)
    ensures r.Ok? ==> |r.value| <= |bs| && (remaining > 0 ==> |r.value| < |bs|)
    decreases |bs|
  {
    if remaining == 0 then Ok(bs)
    else
      var (rest, inner) :- ReadShallow(bs);
      Skip(rest, remaining - 1 + inner)
  }

  /** Skipping looks no further than the items it skips. */
  lemma {:induction false} SkipPrefix(bs: seq<byte>, remaining: nat, more: seq<byte>)
    requires Skip(bs, remaining).Ok?
    ensures Skip(bs + more, remaining) == Ok(Skip(bs, remaining).value + more)
    decreases |bs|
  {
    hide ReadShallow;
    if remaining > 0 {
      ReadShallowPrefix(bs, more);
      var (rest, inner) := ReadShallow(bs).value;
      var k := remaining - 1 + inner;
      SkipPrefix(rest, k, more);
      assert Skip(bs, remaining) == Skip(rest, k) && Skip(bs + more, remaining) == Skip(rest + more, k);
    }
  }

  /** One complete, well-formed data item and nothing else. */
  predicate IsItem(bs: seq<byte>) {
    Skip(bs, 1) == Ok([])
  }

  lemma SkipItem(item: seq<byte>, more: seq<byte>)
    requires IsItem(item)
    ensures Skip(item + more, 1) == Ok(more)
  {
    SkipPrefix(item, 1, more);
    assert [] + more == more;
  }
}
