/** Types shared by every part of the relay model, and the ordering facts about event logs. */
module Prelude {

  datatype Option<+T> = None | Some(value: T)

  datatype Result<+T> = Ok(value: T) | Err(reason: string) {
    predicate IsFailure() {
      Err?
    }

    function PropagateFailure<U>(): Result<U>
      requires Err?
    {
      Err(reason)
    }

    function Extract(): T
      requires Ok?
    {
      value
    }
  }

  type byte = b: int | 0 <= b < 256

  const TWO_63 := 0x8000_0000_0000_0000
  const TWO_64 := 0x1_0000_0000_0000_0000

  type int64 = i: int | -TWO_63 <= i < TWO_63

  /** The two's-complement value an int64 computation yields for the mathematical result `x`. */
  function Wrap64(x: int): int64 {
    var r := x % TWO_64;
    if r < TWO_63 then r else r - TWO_64
  }

  /** A Go string: one char per byte. */
  type Text = s: string | forall c :: c in s ==> c as int < 256

  function TextBytes(t: Text): (bs: seq<byte>)
    ensures |bs| == |t|
  {
    seq(|t|, i requires 0 <= i < |t| => assert t[i] in t; t[i] as int)
  }

  function BytesText(bs: seq<byte>): (t: Text)
    ensures |t| == |bs|
  {
    seq(|bs|, i requires 0 <= i < |bs| => bs[i] as char)
  }

  lemma TextRoundTrip(t: Text)
    ensures BytesText(TextBytes(t)) == t
  {
  }

  lemma ConcatAssociative(a: seq<byte>, b: seq<byte>, c: seq<byte>)
    ensures (a + b) + c == a + (b + c)
  {
  }

  /** What the relay stores per event and hands to subscribers (persist.go:40). */
  datatype Event = Event(relaySeq: int64, kind: Text, did: Text, frame: seq<byte>)

  ghost predicate Ascending(es: seq<Event>) {
    forall i, j :: 0 <= i < j < |es| ==> es[i].relaySeq < es[j].relaySeq
  }

  ghost predicate Within(es: seq<Event>, log: seq<Event>) {
    forall e :: e in es ==> e in log
  }

  /** The seq of the last event of `es`, or `since` when there is none. */
  function Last(es: seq<Event>, since: int): int {
    if es == [] then since else es[|es| - 1].relaySeq
  }

  /** The events of `log` that satisfy `keep`, in log order. */
  function Filter(log: seq<Event>, keep: Event -> bool): seq<Event> {
    if log == [] then []
    else
      var e := log[|log| - 1];
      Filter(log[..|log| - 1], keep) + if keep(e) then [e] else []
  }

  lemma {:induction false} FilterContents(log: seq<Event>, keep: Event -> bool)
    ensures forall e :: e in Filter(log, keep) <==> e in log && keep(e)
    ensures Ascending(log) ==> Ascending(Filter(log, keep))
  {
    if log != [] {
      var n := |log| - 1;
      FilterContents(log[..n], keep);
      var kept := Filter(log[..n], keep);
      assert forall i :: 0 <= i < |kept| ==> kept[i] in kept;
      assert log == log[..n] + [log[n]];
      assert forall e :: e in log[..n] ==> e in log;
    }
  }

  /** The events with lo < relaySeq <= hi. */
  function Between(log: seq<Event>, lo: int, hi: int): seq<Event> {
    Filter(log, (e: Event) => lo < e.relaySeq <= hi)
  }

  lemma BetweenContents(log: seq<Event>, lo: int, hi: int)
    requires Ascending(log)
    ensures forall e :: e in Between(log, lo, hi) <==> e in log && lo < e.relaySeq <= hi
    ensures Ascending(Between(log, lo, hi))
  {
    FilterContents(log, (e: Event) => lo < e.relaySeq <= hi);
  }

  /** The events above `since` whose rows have not been deleted (persist.go:227). */
  function Above(log: seq<Event>, gone: set<int>, since: int): seq<Event> {
    Filter(log, (e: Event) => since < e.relaySeq && e.relaySeq !in gone)
  }

  lemma AboveContents(log: seq<Event>, gone: set<int>, since: int)
    ensures forall e :: e in Above(log, gone, since) <==> e in log && since < e.relaySeq && e.relaySeq !in gone
    ensures Ascending(log) ==> Ascending(Above(log, gone, since))
  {
    FilterContents(log, (e: Event) => since < e.relaySeq && e.relaySeq !in gone);
  }

  /** At most the first `limit` elements. */
  function Take(es: seq<Event>, limit: nat): seq<Event> {
    if |es| <= limit then es else es[..limit]
  }

  /** One bounded playback query: ascending, above the cursor, and missing only deleted rows up to its end. */
  lemma ChunkContents(log: seq<Event>, gone: set<int>, since: int, limit: nat)
    requires Ascending(log)
    ensures var c := Take(Above(log, gone, since), limit);
            && Ascending(c) && Within(c, log)
            && (forall e :: e in c ==> since < e.relaySeq && e.relaySeq !in gone)
            && (forall e :: (e in log && since < e.relaySeq && e.relaySeq !in gone
                             && (|c| < limit || e.relaySeq <= Last(c, since))) ==> e in c)
  {
    AboveContents(log, gone, since);
    var all := Above(log, gone, since);
    var c := Take(all, limit);
    assert forall e :: e in c ==> e in all;
    forall e | e in all && (|c| < limit || e.relaySeq <= Last(c, since)) ensures e in c {
      var k :| 0 <= k < |all| && all[k] == e;
      if |all| > limit {
        assert limit > 0 ==> c[limit - 1] == all[limit - 1];
      }
    }
  }

  /** Two ascending sequences with the same events are the same sequence. */
  lemma {:induction false} AscendingUnique(a: seq<Event>, b: seq<Event>)
    requires Ascending(a) && Ascending(b)
    requires forall e :: e in a <==> e in b
    ensures a == b
  {
    assert a != [] ==> a[0] in b;
    assert b != [] ==> b[0] in a;
    if a != [] {
      var m, n := |a| - 1, |b| - 1;
      assert a[m] in b && b[n] in a;
      assert a[m] == b[n];
      assert a == a[..m] + [a[m]] && b == b[..n] + [b[n]];
      forall e ensures e in a[..m] <==> e in b[..n] {
        assert e in a[..m] ==> e in a && e != a[m];
        assert e in b[..n] ==> e in b && e != b[n];
      }
      AscendingUnique(a[..m], b[..n]);
    }
  }

  /** Two adjacent windows of a log are one window. */
  lemma {:induction false} BetweenSplit(log: seq<Event>, lo: int, mid: int, hi: int)
    requires Ascending(log) && lo <= mid <= hi
    ensures Between(log, lo, mid) + Between(log, mid, hi) == Between(log, lo, hi)
  {
    var a, b := Between(log, lo, mid), Between(log, mid, hi);
    BetweenContents(log, lo, mid);
    BetweenContents(log, mid, hi);
    BetweenContents(log, lo, hi);
    var ab := a + b;
    forall i, j | 0 <= i < j < |ab| ensures ab[i].relaySeq < ab[j].relaySeq {
      assert i < |a| ==> a[i] in a;
      assert j >= |a| ==> b[j - |a|] in b;
    }
    assert forall e :: e in ab <==> e in a || e in b;
    AscendingUnique(ab, Between(log, lo, hi));
  }

  /** A window that ends at or before the end of a log is the same in every extension of the log. */
  lemma {:induction false} BetweenStable(log: seq<Event>, longer: seq<Event>, lo: int, hi: int)
    requires Ascending(longer) && log <= longer && (hi <= lo || hi <= Last(log, lo))
    ensures Between(log, lo, hi) == Between(longer, lo, hi)
  {
    BetweenContents(log, lo, hi);
    BetweenContents(longer, lo, hi);
    forall e | e in longer && lo < e.relaySeq <= hi ensures e in log {
      var k :| 0 <= k < |longer| && longer[k] == e;
      assert longer[..|log|] == log;
    }
    AscendingUnique(Between(log, lo, hi), Between(longer, lo, hi));
  }
}
