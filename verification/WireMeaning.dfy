/** What a consumer reads off an accepted connection, from the committed log to the decoded frames. */
module WireMeaning {
  import opened Prelude
  import Cbor
  import opened MapCodec
  import opened Structs
  import opened Frames
  import opened StoreSpec
  import opened Cursors
  import opened LabelPersistObject
  import opened Subscribe
  import Seam
  import SeamTheorems
  import opened WireFormat

  /** The event as it was ingested. */
  ghost function SourceOf(w: World, e: Event): IngestEvent
    requires |w.sources| == |w.committed| && e in Events(w.committed)
  {
    var k :| 0 <= k < |w.committed| && Events(w.committed)[k] == e;
    w.sources[k]
  }

  /** What a consumer should make of a committed event: its own content under its relay seq. */
  ghost function WireOf(w: World, e: Event): Wire
    requires |w.sources| == |w.committed| && e in Events(w.committed)
  {
    var source := SourceOf(w, e);
    Message(
      if e.kind == "labels" then
        Labels(e.relaySeq, source.did, source.labels, if source.upstreamSeq.Some? then source.upstreamSeq.value else 0)
      else Service(source.action, e.relaySeq, source.did, source.record))
  }

  ghost function WiresOf(w: World, es: seq<Event>): seq<Wire>
    requires |w.sources| == |w.committed| && Within(es, Events(w.committed))
  {
    seq(|es|, i requires 0 <= i < |es| => assert es[i] in es; WireOf(w, es[i]))
  }

  function PreambleWires(plan: Plan): seq<Wire> {
    match plan
    case Refuse(error, message) =>
      if |error| <= Cbor.MAX_LENGTH && |message| <= Cbor.MAX_LENGTH then [Failure(error, message)] else []
    case Serve(outdated, _) => if outdated then [Message(Info("OutdatedCursor", Some(OUTDATED_NOTE)))] else []
  }

  function PostambleWires(alive: bool): seq<Wire> {
    if alive then [Failure("ConsumerTooSlow", SLOW_NOTE)] else []
  }

  /** These frames read back as these wires, one each. */
  ghost predicate Reads(c: Codecs, frames: seq<seq<byte>>, wires: seq<Wire>) {
    |frames| == |wires| && forall i :: 0 <= i < |frames| ==> ReadFrame(c, frames[i]) == Ok(wires[i])
  }

  lemma {:induction false} ReadsConcat(c: Codecs, a: seq<seq<byte>>, x: seq<Wire>, b: seq<seq<byte>>, y: seq<Wire>)
    requires Reads(c, a, x) && Reads(c, b, y)
    ensures Reads(c, a + b, x + y)
  {
    hide ReadFrame;
  }

  lemma {:induction false} CarriedReadsBack(c: Codecs, e: Event, body: Struct)
    requires SelfDelimiting(c) && Carries(c, e.frame, body)
    requires (body.Labels? || body.Service?) && TypeOf(body) == "#" + e.kind
    ensures EventFrame(c, e).Some? && ReadFrame(c, EventFrame(c, e).value) == Ok(Message(body))
  {
    hide MessageFrame, ReadFrame, Decode, Encode, SelfDelimiting;
    MessageReadsBack(c, body);
  }

  /** A committed event is framed and read back the same whether it came from the table or the Hub. */
  lemma {:induction false} EventReadsBack(c: Codecs, w: World, e: Event)
    requires SelfDelimiting(c) && WorldInv(c, w) && e in Events(w.committed)
    ensures EventFrame(c, e).Some? && ReadFrame(c, EventFrame(c, e).value) == Ok(WireOf(w, e))
    ensures e.kind == "labels" || e.kind == "service"
  {
    hide EventFrame, ReadFrame, Carries, SelfDelimiting;
    var k :| 0 <= k < |w.committed| && Events(w.committed)[k] == e && w.sources[k] == SourceOf(w, e);
    assert SelfDescribing(c, w.committed[k], w.sources[k]);
    assert "#" + "labels" == "#labels" && "#" + "service" == "#service";
    CarriedReadsBack(c, e, WireOf(w, e).body);
  }

  /** An event goes out as the map {t, op: 1} of its kind, then its stored frame. */
  lemma EventOnTheWire(c: Codecs, e: Event)
    requires EventFrame(c, e).Some?
    ensures exists text, header ::
              && IsText(text, "#" + e.kind) && IsMap(header, [("t", text), ("op", [0x01])])
              && EventFrame(c, e).value == header + e.frame
  {
    MessageFrameFormat(c, "#" + e.kind, e.frame);
  }

  lemma {:induction false} EventsReadBack(c: Codecs, w: World, es: seq<Event>)
    requires SelfDelimiting(c) && WorldInv(c, w) && Within(es, Events(w.committed))
    ensures Reads(c, EventFrames(c, es), WiresOf(w, es))
  {
    hide EventFrame, SelfDescribing, WireOf, ReadFrame;
    if es != [] {
      var n := |es| - 1;
      assert forall e :: e in es[..n] ==> e in es;
      assert es[n] in es;
      EventsReadBack(c, w, es[..n]);
      EventReadsBack(c, w, es[n]);
      ReadsConcat(c, EventFrames(c, es[..n]), WiresOf(w, es[..n]), Opt(EventFrame(c, es[n])), [WireOf(w, es[n])]);
      assert WiresOf(w, es) == WiresOf(w, es[..n]) + [WireOf(w, es[n])];
    }
  }

  lemma NotesAreShort()
    ensures |OUTDATED_NOTE| <= 8192 && |FUTURE_NOTE| <= 8192 && |SLOW_NOTE| <= 8192
  {
  }

  lemma {:induction false} InfoReadsBack(c: Codecs, name: Text, note: Text)
    requires SelfDelimiting(c) && |name| <= 8192 && |note| <= 8192
    ensures InfoFrame(c, name, note).Some?
    ensures ReadFrame(c, InfoFrame(c, name, note).value) == Ok(Message(Info(name, Some(note))))
  {
    EncodesWithinLimits(c, Info(name, Some(note)));
    MessageReadsBack(c, Info(name, Some(note)));
  }

  lemma TooLongToRefuse(c: Codecs, error: Text, message: Text)
    requires |error| > Cbor.MAX_LENGTH || |message| > Cbor.MAX_LENGTH
    ensures ErrorFrame(c, error, message).None?
  {
    EncodesWithinLimits(c, Error(error, message));
  }

  lemma PreambleReadsBack(c: Codecs, plan: Plan)
    requires SelfDelimiting(c)
    ensures Reads(c, Preamble(c, plan), PreambleWires(plan))
  {
    hide ErrorFrame, InfoFrame, ReadFrame;
    NotesAreShort();
    match plan {
      case Refuse(error, message) =>
        if |error| <= Cbor.MAX_LENGTH && |message| <= Cbor.MAX_LENGTH {
          ErrorReadsBack(c, error, message);
        } else {
          TooLongToRefuse(c, error, message);
        }
      case Serve(outdated, _) => InfoReadsBack(c, "OutdatedCursor", OUTDATED_NOTE);
    }
  }

  /** The frames around the events: one error and no stream, or at most one #info; at most one error at the end. */
  lemma EdgesReadBack(c: Codecs, plan: Plan, alive: bool)
    requires SelfDelimiting(c)
    ensures Reads(c, Preamble(c, plan), PreambleWires(plan))
    ensures Reads(c, Postamble(c, alive), PostambleWires(alive))
  {
    hide ErrorFrame, ReadFrame, Preamble, PreambleWires;
    PreambleReadsBack(c, plan);
    NotesAreShort();
    ErrorReadsBack(c, "ConsumerTooSlow", SLOW_NOTE);
  }

  /** What a consumer received is committed, ascending and above the resolved cursor. */
  lemma ReceivedIsCommitted(start: Seam.State, steps: seq<Seam.Step>)
    requires Seam.Init(start) && Seam.Runnable(start, steps)
    ensures var t := Seam.Run(start, steps);
            && Within(t.received, t.log) && Ascending(t.received)
            && forall e :: e in t.received ==> start.since < e.relaySeq
  {
    SeamTheorems.SeamDelivery(start, steps);
    var t := Seam.Run(start, steps);
    assert forall e :: e in t.received ==> e in t.History();
    assert forall i :: 0 <= i < |t.received| ==> t.received[i] == t.History()[i];
  }

  /** What the frames the handler has written read back as. */
  ghost function WrittenWires(c: Codecs, param: Param, plan: Plan, luck: Luck, w: World, delivered: seq<Event>, written: nat,
                              writable: nat -> bool, alive: bool): seq<Wire>
    requires written <= |delivered| && |w.sources| == |w.committed| && Within(delivered, Events(w.committed))
  {
    (if luck.Reads(param, plan) && luck.writable then PreambleWires(plan) else [])
    + if StartOf(param, plan, luck).None? then []
      else WiresOf(w, delivered)[..written]
           + if written == |delivered| && writable(written) then PostambleWires(alive) else []
  }

  lemma {:induction false} StreamReadsBack(c: Codecs, w: World, delivered: seq<Event>, written: nat, ends: bool, alive: bool)
    requires SelfDelimiting(c) && WorldInv(c, w) && Within(delivered, Events(w.committed)) && written <= |delivered|
    ensures |w.sources| == |w.committed|
    ensures Reads(c, EventFrames(c, delivered[..written]) + (if ends then Postamble(c, alive) else []),
                  WiresOf(w, delivered)[..written] + (if ends then PostambleWires(alive) else []))
  {
    assert |w.sources| == |w.committed|;
    hide WireOf, EventFrame, ReadFrame, Postamble, PostambleWires, SelfDescribing, Reads, WorldInv;
    EdgesReadBack(c, Serve(false, 0), alive);
    NothingReads(c);
    assert forall e :: e in delivered[..written] ==> e in delivered;
    EventsReadBack(c, w, delivered[..written]);
    assert WiresOf(w, delivered[..written]) == WiresOf(w, delivered)[..written];
    ReadsConcat(c, EventFrames(c, delivered[..written]), WiresOf(w, delivered)[..written],
                if ends then Postamble(c, alive) else [], if ends then PostambleWires(alive) else []);
  }

  lemma {:induction false} WrittenReadsBack(c: Codecs, param: Param, plan: Plan, luck: Luck, w: World, delivered: seq<Event>,
                                            written: nat, writable: nat -> bool, alive: bool)
    requires SelfDelimiting(c) && WorldInv(c, w) && Within(delivered, Events(w.committed)) && written <= |delivered|
    ensures Reads(c, Written(c, param, plan, luck, delivered, written, writable, alive),
                  WrittenWires(c, param, plan, luck, w, delivered, written, writable, alive))
  {
    var ends := written == |delivered| && writable(written);
    StreamReadsBack(c, w, delivered, written, ends, alive);
    EdgesReadBack(c, plan, alive);
    NothingReads(c);
    hide WiresOf, EventFrames, Preamble, Postamble, PreambleWires, PostambleWires, Reads, WorldInv, SelfDelimiting;
    var first := if luck.Reads(param, plan) && luck.writable then PreambleWires(plan) else [];
    assert Reads(c, Opening(c, param, plan, luck), first);
    if StartOf(param, plan, luck).Some? {
      ReadsConcat(c, Opening(c, param, plan, luck), first,
                  EventFrames(c, delivered[..written]) + (if ends then Postamble(c, alive) else []),
                  WiresOf(w, delivered)[..written] + (if ends then PostambleWires(alive) else []));
    } else {
      ReadsConcat(c, Opening(c, param, plan, luck), first, [], []);
    }
  }

  lemma NothingReads(c: Codecs)
    ensures Reads(c, [], [])
  {
  }

  /** When every query and every write succeeds, the note if there is one, every event and the goodbye arrive. */
  lemma {:induction false} NothingLost(c: Codecs, ops: seq<Op>, param: Param, plan: Plan, luck: Luck, got: seq<Event>,
                                       written: nat, writable: nat -> bool, alive: bool)
    requires SelfDelimiting(c) && Within(got, Events(Run(c, ops).committed)) && written <= |got|
    requires plan.Serve? && StartOf(param, plan, luck).Some? && written < |got| ==>
               !writable(written) || EventFrame(c, got[written]).None?
    ensures |Run(c, ops).sources| == |Run(c, ops).committed|
    ensures plan.Serve? && luck == Luck(true, true, true) && (forall k :: writable(k)) ==>
              && written == |got|
              && WrittenWires(c, param, plan, luck, Run(c, ops), got, written, writable, alive)
                 == PreambleWires(plan) + (WiresOf(Run(c, ops), got) + PostambleWires(alive))
  {
    hide Run, WireOf, EventFrame, PreambleWires, PostambleWires;
    var w := Run(c, ops);
    GlobalSequencing(c, ops);
    assert |w.sources| == |w.committed|;
    if written < |got| {
      assert got[written] in got;
      EventReadsBack(c, w, got[written]);
    }
    assert WiresOf(w, got)[..|got|] == WiresOf(w, got);
  }

  /** `got` is what a consumer received from a run of the seam, from `since`, over the log this store history committed. */
  ghost predicate Streamed(c: Codecs, ops: seq<Op>, since: int, start: Seam.State, steps: seq<Seam.Step>, got: seq<Event>) {
    && Seam.Init(start) && start.since == since && Seam.Runnable(start, steps)
    && got == Seam.Run(start, steps).received
    && Seam.Run(start, steps).log == Events(Run(c, ops).committed)
  }

  /**
   End to end: for any store history and any run of the seam over its log from where the plan says, the events
   handed to the write loop are committed, ascending and above the resolved cursor, and the frames written
   read back, one each and in order, as the handler's opening, those events as they were ingested under their
   relay seqs, and the ending.
   */
  lemma EndToEnd(c: Codecs, ops: seq<Op>, param: Param, ts: Tables, luck: Luck, start: Seam.State, steps: seq<Seam.Step>,
                 got: seq<Event>, written: nat, writable: nat -> bool, alive: bool)
    requires SelfDelimiting(c) && PlanFor(param, ts).Serve? && written <= |got|
    requires Streamed(c, ops, PlanFor(param, ts).since, start, steps, got)
    ensures var w, plan := Run(c, ops), PlanFor(param, ts);
            && |w.sources| == |w.committed| && Within(got, Events(w.committed)) && Ascending(got)
            && (forall e :: e in got ==> plan.since < e.relaySeq && (e.kind == "labels" || e.kind == "service"))
            && Reads(c, Written(c, param, plan, luck, got, written, writable, alive),
                     WrittenWires(c, param, plan, luck, w, got, written, writable, alive))
  {
    hide WireOf, EventFrame, ReadFrame, SelfDescribing, Reads, PlanFor, Written, WrittenWires;
    GlobalSequencing(c, ops);
    ReceivedIsCommitted(start, steps);
    var w := Run(c, ops);
    WrittenReadsBack(c, param, PlanFor(param, ts), luck, w, got, written, writable, alive);
    forall e | e in got ensures e.kind == "labels" || e.kind == "service" {
      EventReadsBack(c, w, e);
    }
  }

  /**
   One connection, from the query parameter to the decoded frames: what the handler leaves on a fresh socket
   reads back as `EndToEnd` says, for whatever the seam delivered from the resolved cursor.
   */
  method ServeConsumer(persist: LabelPersist, param: Param, conn: Connection, between: Db -> Db, before: Db -> Db, luck: Luck,
                       stream: int -> seq<Event>, writable: nat -> bool, alive: bool,
                       ghost ops: seq<Op>, ghost start: Seam.State, ghost steps: seq<Seam.Step>)
    returns (ghost got: seq<Event>, ghost written: nat)
    requires persist.Valid() && Keeps(between) && Keeps(before) && conn.frames == [] && SelfDelimiting(persist.codecs)
    requires var plan := PlanFor(param, TablesSeen(persist.Table(), between, before));
             plan.Serve? && Streamed(persist.codecs, ops, plan.since, start, steps, stream(plan.since))
    modifies conn, persist`rows, persist`lastId
    ensures var plan := PlanFor(param, TablesSeen(old(persist.Table()), between, before));
            var w := Run(persist.codecs, ops);
            && got == Seam.Run(start, steps).received && written <= |got|
            && |w.sources| == |w.committed| && Within(got, Events(w.committed))
            && Reads(persist.codecs, conn.frames,
                     WrittenWires(persist.codecs, param, plan, luck, w, got, written, writable, alive))
            && (luck == Luck(true, true, true) && (forall k :: writable(k)) ==>
                  Reads(persist.codecs, conn.frames, PreambleWires(plan) + (WiresOf(w, got) + PostambleWires(alive))))
  {
    assert Seam.Runnable(start, steps)
           && stream(PlanFor(param, TablesSeen(persist.Table(), between, before)).since) == Seam.Run(start, steps).received;
    hide *;
    ghost var ts := TablesSeen(persist.Table(), between, before);
    got, written := HandleSubscribe(persist, param, conn, between, before, luck, stream, writable, alive);
    EndToEnd(persist.codecs, ops, param, ts, luck, start, steps, got, written, writable, alive);
    NothingLost(persist.codecs, ops, param, PlanFor(param, ts), luck, got, written, writable, alive);
    assert [] + conn.frames == conn.frames;
  }

  /**
   What the handler's decision means, whatever the pruner has done before or does between its queries: no cursor
   streams nothing old; a cursor is refused as FutureCursor when everything that survives is older; one served
   without a note misses nothing committed by the floor query, unless that found a hole; one served with
   OutdatedCursor lies below everything that survives and gets every row that survives when it resumes.
   */
  lemma PlanMeans(param: Param, ts: Tables, committed: seq<Row>)
    requires Ascending(Events(ts.atHead)) && Ascending(Events(ts.atResume)) && Survives(ts.atFloor, committed)
    ensures var plan := PlanFor(param, ts);
            match param
            case Absent =>
              && plan.Serve? && !plan.outdated && Replay(ts.atHead, plan.since) == []
              && (ts.atHead == [] ==> plan.since == 0)
              && (ts.atHead != [] ==> exists e :: e in Events(ts.atHead) && e.relaySeq == plan.since)
            case Unparsable(_) => plan.Refuse? && plan.error == "InvalidRequest"
            case Cursor(n) =>
              && (plan.Refuse? <==> (forall e :: e in Events(ts.atHead) ==> e.relaySeq < n) && (ts.atHead == [] ==> n > 0))
              && (plan.Refuse? ==> plan.error == "FutureCursor")
              && (plan.Serve? && !plan.outdated ==> plan.since == n)
              && (plan.Serve? && !plan.outdated && NoHoles(ts.atFloor, committed) ==>
                    Replay(ts.atFloor, n) == Above(Events(committed), {}, n))
              && (plan.Serve? && plan.outdated ==>
                    && (forall e :: e in Events(ts.atFloor) ==> n + 1 < e.relaySeq)
                    && Replay(ts.atResume, plan.since) == Events(ts.atResume))
  {
    if param.Absent? {
      NothingAboveHead(ts.atHead);
      if ts.atHead != [] {
        Bounds(ts.atHead);
        assert Events(ts.atHead)[|ts.atHead| - 1] in Events(ts.atHead);
      }
    } else if param.Cursor? {
      StatusAcrossQueries(ts.atHead, ts.atFloor, committed, param.n);
      FloorReplaysAll(ts.atResume);
    }
  }

  lemma NothingAboveHead(rows: seq<Row>)
    requires Ascending(Events(rows))
    ensures Replay(rows, Head(rows)) == []
  {
    if rows == [] {
      assert Events(rows) == [];
    } else {
      Bounds(rows);
    }
    ReplayContents(rows, Head(rows));
    AscendingUnique(Replay(rows, Head(rows)), []);
  }

  /** A cursor ahead of the head gets one FutureCursor error frame and nothing else. */
  lemma FutureCursorIsRefused(c: Codecs, ts: Tables, n: int64, luck: Luck, delivered: seq<Event>,
                              writable: nat -> bool, alive: bool)
    requires SelfDelimiting(c) && n > Head(ts.atHead) && luck.cursorRead && luck.writable
    ensures var plan := PlanFor(Cursor(n), ts);
            var frames := Written(c, Cursor(n), plan, luck, delivered, 0, writable, alive);
            plan.Refuse? && |frames| == 1 && ReadFrame(c, frames[0]) == Ok(Failure("FutureCursor", FUTURE_NOTE))
  {
    hide ReadFrame, ErrorFrame;
    NotesAreShort();
    EdgesReadBack(c, PlanFor(Cursor(n), ts), alive);
  }

  /** What PersistIngest broadcasts is what a playback of its row returns: live and backfill agree. */
  lemma LiveEqualsBackfill(c: Codecs, ops: seq<Op>, i: nat)
    requires SelfDelimiting(c) && Run(c, ops).booted <= i < |Run(c, ops).committed|
    ensures var w := Run(c, ops);
            && i - w.booted < |w.emitted|
            && w.emitted[i - w.booted] == w.committed[i].event
            && (w.committed[i] in w.db.rows ==>
                  w.emitted[i - w.booted] in Replay(w.db.rows, w.committed[i].event.relaySeq - 1))
  {
    hide SelfDescribing, Step, Replay;
    GlobalSequencing(c, ops);
    var w := Run(c, ops);
    if w.committed[i] in w.db.rows {
      ReplayContents(w.db.rows, w.committed[i].event.relaySeq - 1);
      var k :| 0 <= k < |w.db.rows| && w.db.rows[k] == w.committed[i];
      assert Events(w.db.rows)[k] == w.committed[i].event;
    }
  }
}
