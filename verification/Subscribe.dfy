/** The subscribe handler: cursor resolution, frame order, and what a consumer reads (subscribe.go:122-250). */
module Subscribe {
  import opened Prelude
  import opened MapCodec
  import opened Structs
  import opened CborStreams
  import opened Frames
  import opened StoreSpec
  import opened Cursors
  import opened LabelPersistObject
  import Seam
  import SeamTheorems

  const OUTDATED_NOTE: Text :=
    "cursor is below the " + "retention floor; " + "resuming from the " + "oldest available event"
  const FUTURE_NOTE: Text := "cursor is ahead of the " + "current stream head"
  const SLOW_NOTE: Text := "consumer is too slow " + "to keep up with the stream"

  const DEFAULT_BUF_SIZE := 512

  /** The buffer size of a subscription: never 0, whatever is configured, as the seam needs. */
  function EffectiveBufSize(subBufSize: int): (r: nat)
    ensures r > 0 && r == if subBufSize > 0 then subBufSize else 512
  {
    if subBufSize > 0 then subBufSize else DEFAULT_BUF_SIZE
  }

  /** The ?cursor= query parameter. */
  datatype Param = Absent | Unparsable(reason: Text) | Cursor(n: int64)

  /** What the handler does about it: one frame and goodbye, or perhaps an #info and a stream. */
  datatype Plan = Refuse(error: Text, message: Text) | Serve(outdated: bool, since: int)

  /** The table as each of the three queries finds it: for the head, for the floor, and for where to resume. */
  datatype Tables = Tables(atHead: seq<Row>, atFloor: seq<Row>, atResume: seq<Row>)

  function PlanFor(param: Param, ts: Tables): Plan {
    match param
    case Absent => Serve(false, Head(ts.atHead))
    case Unparsable(reason) => Refuse("InvalidRequest", reason)
    case Cursor(n) =>
      match Status(Head(ts.atHead), Floor(ts.atFloor), n)
      case CursorFuture => Refuse("FutureCursor", FUTURE_NOTE)
      case CursorOutdated => Serve(true, Floor(ts.atResume) - 1)
      case CursorOK => Serve(false, n)
  }

  /** The tables seen when others use the database between the queries. */
  function TablesSeen(db: Db, between: Db -> Db, before: Db -> Db): Tables {
    Tables(db.rows, between(db).rows, before(between(db)).rows)
  }

  /** A WebSocket: the binary messages written so far. */
  class Connection {
    var frames: seq<seq<byte>>

    constructor ()
      ensures frames == []
    {
      frames := [];
    }

    method Send(frame: seq<byte>)
      modifies this
      ensures frames == old(frames) + [frame]
    {
      frames := frames + [frame];
    }
  }

  function InfoFrame(c: Codecs, name: Text, note: Text): Option<seq<byte>> {
    match Encode(c, Info(name, Some(note)))
    case None => None
    case Some(body) => MessageFrame(c, "#info", body)
  }

  function FutureFrame(c: Codecs): Option<seq<byte>> {
    ErrorFrame(c, "FutureCursor", FUTURE_NOTE)
  }

  function OutdatedFrame(c: Codecs): Option<seq<byte>> {
    InfoFrame(c, "OutdatedCursor", OUTDATED_NOTE)
  }

  function SlowFrame(c: Codecs): Option<seq<byte>> {
    ErrorFrame(c, "ConsumerTooSlow", SLOW_NOTE)
  }

  function EventFrame(c: Codecs, e: Event): Option<seq<byte>> {
    MessageFrame(c, KindToMsgType(e.kind), e.frame)
  }

  function Opt(frame: Option<seq<byte>>): seq<seq<byte>> {
    if frame.Some? then [frame.value] else []
  }

  /** The frames of the first `n` events, those that can be framed. */
  function EventFrames(c: Codecs, es: seq<Event>): seq<seq<byte>> {
    if es == [] then [] else EventFrames(c, es[..|es| - 1]) + Opt(EventFrame(c, es[|es| - 1]))
  }

  /** What the handler writes before streaming. */
  function Preamble(c: Codecs, plan: Plan): seq<seq<byte>> {
    match plan
    case Refuse(error, message) => Opt(ErrorFrame(c, error, message))
    case Serve(outdated, _) => if outdated then Opt(OutdatedFrame(c)) else []
  }

  /** What it writes after the stream's channel has closed. */
  function Postamble(c: Codecs, alive: bool): seq<seq<byte>> {
    if alive then Opt(SlowFrame(c)) else []
  }

  /** What can fail while a cursor is resolved: the status queries, the floor query, the socket. */
  datatype Luck = Luck(cursorRead: bool, floorRead: bool, writable: bool) {

    /** All the queries the plan needs succeed. */
    predicate Reads(param: Param, plan: Plan) {
      param.Unparsable? || (cursorRead && (plan.Serve? && plan.outdated ==> floorRead))
    }
  }

  /** Where a resolved cursor lets the stream start; None when the connection ends there. */
  function StartOf(param: Param, plan: Plan, luck: Luck): Option<int> {
    if !luck.Reads(param, plan) || plan.Refuse? then None
    else if plan.outdated && !luck.writable then None
    else Some(plan.since)
  }

  function Opening(c: Codecs, param: Param, plan: Plan, luck: Luck): seq<seq<byte>> {
    if luck.Reads(param, plan) && luck.writable then Preamble(c, plan) else []
  }

  lemma {:induction false} ErrorFits(c: Codecs, name: Text, note: Text)
    requires |name| <= 100 && |note| <= 8192
    ensures ErrorFrame(c, name, note).Some?
  {
    hide Encode;
    HeaderEncodes(c, "", OP_ERROR);
    EncodesWithinLimits(c, Error(name, note));
  }

  lemma {:induction false} InfoFits(c: Codecs, name: Text, note: Text)
    requires |name| <= 100 && |note| <= 8192
    ensures InfoFrame(c, name, note).Some?
  {
    hide Encode;
    HeaderEncodes(c, "#info", OP_MESSAGE);
    EncodesWithinLimits(c, Info(name, Some(note)));
  }

  /** Cursor resolution, with other users of the database between its queries. */
  method Resolve(persist: LabelPersist, param: Param, conn: Connection, between: Db -> Db, before: Db -> Db, luck: Luck)
    returns (since: Option<int>)
    requires persist.Valid() && Keeps(between) && Keeps(before)
    modifies conn, persist`rows, persist`lastId
    ensures persist.Valid()
    ensures !luck.cursorRead && !param.Unparsable? ==> since == None && conn.frames == old(conn.frames)
    ensures param.Unparsable? ==>
              && since == None
              && conn.frames == old(conn.frames)
                                + Opt(if luck.writable then ErrorFrame(persist.codecs, "InvalidRequest", param.reason) else None)
    ensures param.Absent? && luck.cursorRead ==> since == Some(Head(old(persist.rows))) && conn.frames == old(conn.frames)
    ensures param.Cursor? && luck.cursorRead ==>
              var head, floor := Head(old(persist.rows)), Floor(between(old(persist.Table())).rows);
              var resume := before(between(old(persist.Table()))).rows;
              if param.n > head then
                && since == None && FutureFrame(persist.codecs).Some?
                && (luck.writable ==>
                      conn.frames == old(conn.frames) + [FutureFrame(persist.codecs).value])
              else if 0 < floor && param.n < floor - 1 then
                && OutdatedFrame(persist.codecs).Some?
                && (luck.writable && luck.floorRead ==>
                      && since == Some(Floor(resume) - 1)
                      && conn.frames == old(conn.frames) + [OutdatedFrame(persist.codecs).value])
                && (!(luck.writable && luck.floorRead) ==> since == None)
              else since == Some(param.n) && conn.frames == old(conn.frames)
    ensures var plan := PlanFor(param, TablesSeen(old(persist.Table()), between, before));
            && conn.frames == old(conn.frames) + Opening(persist.codecs, param, plan, luck)
            && since == StartOf(param, plan, luck)
  {
    hide ErrorFrame, InfoFrame, Keeps;
    if param.Absent? {
      return if luck.cursorRead then Some(Head(persist.rows)) else None;
    }
    if param.Unparsable? {
      RefuseWith(persist.codecs, conn, "InvalidRequest", param.reason, luck.writable);
      return None;
    }
    ErrorFits(persist.codecs, "FutureCursor", FUTURE_NOTE);
    InfoFits(persist.codecs, "OutdatedCursor", OUTDATED_NOTE);
    since := ResolveCursor(persist, param.n, conn, between, before, luck);
  }

  method ResolveCursor(persist: LabelPersist, n: int64, conn: Connection, between: Db -> Db, before: Db -> Db, luck: Luck)
    returns (since: Option<int>)
    requires persist.Valid() && Keeps(between) && Keeps(before)
    modifies conn, persist`rows, persist`lastId
    ensures persist.Valid()
    ensures var plan := PlanFor(Cursor(n), TablesSeen(old(persist.Table()), between, before));
            && conn.frames == old(conn.frames) + Opening(persist.codecs, Cursor(n), plan, luck)
            && since == StartOf(Cursor(n), plan, luck)
  {
    hide ErrorFrame, InfoFrame, Keeps;
    if !luck.cursorRead {
      return None;
    }
    var state := persist.CursorStatus(n, between);
    match state {
      case CursorFuture =>
        ErrorFits(persist.codecs, "FutureCursor", FUTURE_NOTE);
        RefuseWith(persist.codecs, conn, "FutureCursor", FUTURE_NOTE, luck.writable);
        return None;
      case CursorOutdated =>
        persist.Yield(before);
        if !luck.floorRead {
          return None;
        }
        InfoFits(persist.codecs, "OutdatedCursor", OUTDATED_NOTE);
        var sent := SendInfo(persist.codecs, conn, "OutdatedCursor", OUTDATED_NOTE, luck.writable);
        if !sent {
          return None;
        }
        return Some(Floor(persist.rows) - 1);
      case CursorOK =>
        return Some(n);
    }
  }

  method SendInfo(c: Codecs, conn: Connection, name: Text, note: Text, writable: bool) returns (ok: bool)
    modifies conn
    ensures ok == (writable && InfoFrame(c, name, note).Some?)
    ensures conn.frames == old(conn.frames) + (if writable then Opt(InfoFrame(c, name, note)) else [])
  {
    var body := new Writer();
    ok := Marshal(c, Info(name, Some(note)), body);
    if ok {
      assert body.buf == Encode(c, Info(name, Some(note))).value;
      var frame := new Writer();
      var framed := WriteMessage(c, frame, "#info", body.buf);
      ok := framed && writable;
      if ok {
        assert frame.buf == InfoFrame(c, name, note).value;
        conn.Send(frame.buf);
      }
    }
  }

  method RefuseWith(c: Codecs, conn: Connection, error: Text, message: Text, writable: bool)
    modifies conn
    ensures conn.frames == old(conn.frames) + (if writable then Opt(ErrorFrame(c, error, message)) else [])
  {
    var frame := new Writer();
    var framed := WriteError(c, frame, error, message);
    if framed && writable {
      assert frame.buf == ErrorFrame(c, error, message).value;
      conn.Send(frame.buf);
    }
  }

  method SendEvent(c: Codecs, conn: Connection, e: Event, writable: bool) returns (ok: bool)
    modifies conn
    ensures ok == (EventFrame(c, e).Some? && writable)
    ensures conn.frames == old(conn.frames) + (if ok then [EventFrame(c, e).value] else [])
  {
    var frame := new Writer();
    var framed := WriteMessage(c, frame, KindToMsgType(e.kind), e.frame);
    ok := framed && writable;
    if ok {
      assert frame.buf == EventFrame(c, e).value;
      conn.Send(frame.buf);
    }
  }

  /** The write loop: one frame per event until one cannot be framed or the socket refuses it. */
  method SendEvents(c: Codecs, conn: Connection, delivered: seq<Event>, writable: nat -> bool) returns (written: nat)
    modifies conn
    ensures written <= |delivered|
    ensures written < |delivered| ==> !writable(written) || EventFrame(c, delivered[written]).None?
    ensures forall k :: 0 <= k < written ==> EventFrame(c, delivered[k]).Some?
    ensures conn.frames == old(conn.frames) + EventFrames(c, delivered[..written])
  {
    hide EventFrame;
    written := 0;
    while written < |delivered|
      invariant written <= |delivered|
      invariant conn.frames == old(conn.frames) + EventFrames(c, delivered[..written])
      invariant forall k :: 0 <= k < written ==> EventFrame(c, delivered[k]).Some?
    {
      var ok := SendEvent(c, conn, delivered[written], writable(written));
      if !ok {
        return;
      }
      assert delivered[..written + 1][..written] == delivered[..written];
      written := written + 1;
    }
  }

  /** Everything of the stream is on the socket, and the goodbye if the request is still alive. */
  ghost predicate Served(c: Codecs, frames: seq<seq<byte>>, opening: seq<seq<byte>>, delivered: seq<Event>, alive: bool) {
    (forall e :: e in delivered ==> EventFrame(c, e).Some?) ==>
      frames == opening + EventFrames(c, delivered) + Opt(if alive then SlowFrame(c) else None)
  }

  /** The stream, then ConsumerTooSlow if its channel closed while the request was alive. */
  method StreamOut(c: Codecs, conn: Connection, delivered: seq<Event>, writable: nat -> bool, alive: bool)
    returns (written: nat)
    modifies conn
    ensures written <= |delivered|
    ensures written < |delivered| ==> !writable(written) || EventFrame(c, delivered[written]).None?
    ensures forall k :: 0 <= k < written ==> EventFrame(c, delivered[k]).Some?
    ensures conn.frames == old(conn.frames) + EventFrames(c, delivered[..written])
                           + (if written == |delivered| && writable(written) then Postamble(c, alive) else [])
    ensures (forall k :: writable(k)) ==> Served(c, conn.frames, old(conn.frames), delivered, alive)
  {
    hide ErrorFrame, EventFrame;
    written := SendEvents(c, conn, delivered, writable);
    if written == |delivered| && alive {
      RefuseWith(c, conn, "ConsumerTooSlow", SLOW_NOTE, writable(written));
    }
    assert written == |delivered| ==> delivered[..written] == delivered;
  }

  /** What the handler has written when it returns, given what the stream delivered and how much of it was written. */
  function Written(c: Codecs, param: Param, plan: Plan, luck: Luck, delivered: seq<Event>, written: nat,
                   writable: nat -> bool, alive: bool): seq<seq<byte>>
    requires written <= |delivered|
  {
    Opening(c, param, plan, luck)
    + if StartOf(param, plan, luck).None? then []
      else EventFrames(c, delivered[..written])
           + if written == |delivered| && writable(written) then Postamble(c, alive) else []
  }

  lemma StartIsPlanned(param: Param, plan: Plan, luck: Luck)
    requires StartOf(param, plan, luck).Some?
    ensures plan.Serve? && StartOf(param, plan, luck) == Some(plan.since)
  {
  }

  /** The handler: resolve the cursor, then write what `stream` delivers from there. */
  method HandleSubscribe(persist: LabelPersist, param: Param, conn: Connection, between: Db -> Db, before: Db -> Db, luck: Luck,
                         stream: int -> seq<Event>, writable: nat -> bool, alive: bool)
    returns (ghost delivered: seq<Event>, ghost written: nat)
    requires persist.Valid() && Keeps(between) && Keeps(before)
    modifies conn, persist`rows, persist`lastId
    ensures luck == Luck(true, true, true) && !param.Unparsable? && (forall k :: writable(k)) ==>
              var head, floor := Head(old(persist.rows)), Floor(between(old(persist.Table())).rows);
              var resume := before(between(old(persist.Table()))).rows;
              if param.Absent? then
                delivered == stream(head) && Served(persist.codecs, conn.frames, old(conn.frames), delivered, alive)
              else if param.n > head then
                conn.frames == old(conn.frames) + Opt(FutureFrame(persist.codecs))
              else if 0 < floor && param.n < floor - 1 then
                && delivered == stream(Floor(resume) - 1)
                && Served(persist.codecs, conn.frames,
                          old(conn.frames) + Opt(OutdatedFrame(persist.codecs)), delivered, alive)
              else
                delivered == stream(param.n) && Served(persist.codecs, conn.frames, old(conn.frames), delivered, alive)
    ensures var plan := PlanFor(param, TablesSeen(old(persist.Table()), between, before));
            && delivered == (if plan.Serve? then stream(plan.since) else [])
            && written <= |delivered|
            && (StartOf(param, plan, luck).Some? && written < |delivered| ==>
                  !writable(written) || EventFrame(persist.codecs, delivered[written]).None?)
            && conn.frames == old(conn.frames)
                              + Written(persist.codecs, param, plan, luck, delivered, written, writable, alive)
  {
    hide EventFrame, EventFrames, Opening, Postamble, PlanFor, StartOf, TablesSeen, Keeps, Served;
    hide ErrorFrame, InfoFrame, Head, Floor;
    ghost var plan := PlanFor(param, TablesSeen(persist.Table(), between, before));
    delivered, written := if plan.Serve? then stream(plan.since) else [], 0;
    var since := Resolve(persist, param, conn, between, before, luck);
    if since.Some? {
      StartIsPlanned(param, plan, luck);
      var wrote := StreamOut(persist.codecs, conn, stream(since.value), writable, alive);
      written := wrote;
    }
  }
}
