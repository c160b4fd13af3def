/** The events table over whole runs: ingest, prune, crash and restart (persist.go, schema.sql). */
module StoreSpec {
  import opened Prelude
  import opened MapCodec
  import opened Structs
  import opened Frames
  import Seam

  /** A row of the events table. */
  datatype Row = Row(event: Event, upstreamSeq: Option<int64>, ingestTs: int)

  /** The table in primary-key order, and the AUTOINCREMENT counter, which survives deletes and restarts. */
  datatype Db = Db(rows: seq<Row>, lastId: nat)

  /** Where the transaction of one ingest can fail; a transaction that fails leaves nothing behind. */
  datatype Fault = NoFault | BeginFails | InsertFails | UpdateFails | CommitFails

  function Events(rows: seq<Row>): seq<Event> {
    seq(|rows|, i requires 0 <= i < |rows| => rows[i].event)
  }

  /** The row PersistIngest commits, if it does; SQLite mints an id above every earlier one. */
  function Minted(c: Codecs, db: Db, e: IngestEvent, now: int, skip: nat, fault: Fault): Option<Row> {
    var id := db.lastId + 1 + skip;
    if fault != NoFault || id >= TWO_63 then None
    else match EncodeBody(c, e, id)
      case None => None
      case Some(frame) => Some(Row(Event(id, e.kind, e.did, frame), e.upstreamSeq, now))
  }

  function Insert(db: Db, row: Option<Row>): Db {
    match row
    case None => db
    case Some(r) => Db(db.rows + [r], if r.event.relaySeq < 0 then db.lastId else r.event.relaySeq)
  }

  /** The rows a test keeps, in order. */
  function Keep(rows: seq<Row>, p: Row -> bool): seq<Row> {
    if rows == [] then []
    else
      var r := rows[|rows| - 1];
      Keep(rows[..|rows| - 1], p) + if p(r) then [r] else []
  }

  function Delete(rows: seq<Row>, dead: set<int>): seq<Row> {
    Keep(rows, (r: Row) => r.event.relaySeq !in dead)
  }

  /** What is left of a table once everything older than the cutoff is deleted. */
  function Fresh(rows: seq<Row>, cutoff: int): seq<Row> {
    Keep(rows, (r: Row) => r.ingestTs >= cutoff)
  }

  /** The seqs of the rows older than the cutoff. */
  function Old(rows: seq<Row>, cutoff: int): set<int> {
    set r | r in rows && r.ingestTs < cutoff :: r.event.relaySeq
  }

  /** One DELETE ... LIMIT of a prune: as many old rows as the limit allows, whichever they are. */
  ghost predicate OneBatch(rows: seq<Row>, cutoff: int, size: nat, after: seq<Row>) {
    exists dead :: dead <= Old(rows, cutoff) && after == Delete(rows, dead)
                   && |dead| == if |Old(rows, cutoff)| < size then |Old(rows, cutoff)| else size
  }

  lemma {:induction false} KeepContents(rows: seq<Row>, p: Row -> bool)
    ensures forall r :: r in Keep(rows, p) <==> r in rows && p(r)
    ensures Ascending(Events(rows)) ==> Ascending(Events(Keep(rows, p)))
  {
    if rows != [] {
      var n := |rows| - 1;
      KeepContents(rows[..n], p);
      assert rows == rows[..n] + [rows[n]];
      assert Events(rows[..n]) == Events(rows)[..n];
      if Ascending(Events(rows)) {
        var kept := Keep(rows[..n], p);
        forall i | 0 <= i < |kept| ensures kept[i].event.relaySeq < rows[n].event.relaySeq {
          assert kept[i] in kept;
          var k :| 0 <= k < n && rows[..n][k] == kept[i];
          assert Events(rows)[k].relaySeq < Events(rows)[n].relaySeq;
        }
        var all := Keep(rows, p);
        forall i, j | 0 <= i < j < |all| ensures Events(all)[i].relaySeq < Events(all)[j].relaySeq {
          assert Events(all)[i] == kept[i].event;
          assert j < |kept| ==> Events(kept)[i].relaySeq < Events(kept)[j].relaySeq;
        }
      }
    }
  }

  lemma DeleteContents(rows: seq<Row>, dead: set<int>)
    ensures forall r :: r in Delete(rows, dead) <==> r in rows && r.event.relaySeq !in dead
    ensures Ascending(Events(rows)) ==> Ascending(Events(Delete(rows, dead)))
  {
    KeepContents(rows, (r: Row) => r.event.relaySeq !in dead);
  }

  lemma FreshContents(rows: seq<Row>, cutoff: int)
    ensures forall r :: r in Fresh(rows, cutoff) <==> r in rows && r.ingestTs >= cutoff
    ensures Ascending(Events(rows)) ==> Ascending(Events(Fresh(rows, cutoff)))
  {
    KeepContents(rows, (r: Row) => r.ingestTs >= cutoff);
  }

  // ----- runs

  datatype Op =
    | Ingest(e: IngestEvent, now: int, skip: nat, fault: Fault, crash: bool)  // crash: after commit, before broadcast
    | DeleteBatch(dead: set<int>)
    | PruneAll(cutoff: int)
    | Restart

  /** The database, every row ever committed with the event it was made from, and this process's broadcasts. */
  datatype World = World(db: Db, committed: seq<Row>, sources: seq<IngestEvent>, emitted: seq<Event>, booted: nat)

  const START := World(Db([], 0), [], [], [], 0)

  function Boot(w: World): World {
    w.(emitted := [], booted := |w.committed|)
  }

  /** One committed and broadcast ingest. */
  function Commit(w: World, e: IngestEvent, row: Row): World {
    World(Insert(w.db, Some(row)), w.committed + [row], w.sources + [e], w.emitted + [row.event], w.booted)
  }

  function Step(c: Codecs, w: World, op: Op): World {
    match op
    case Ingest(e, now, skip, fault, crash) =>
      (match Minted(c, w.db, e, now, skip, fault)
       case None => w
       case Some(row) =>
         if crash then Boot(Commit(w, e, row)) else Commit(w, e, row))
    case DeleteBatch(dead) => w.(db := w.db.(rows := Delete(w.db.rows, dead)))
    case PruneAll(cutoff) => w.(db := w.db.(rows := Fresh(w.db.rows, cutoff)))
    case Restart => Boot(w)
  }

  function Run(c: Codecs, ops: seq<Op>): World {
    if ops == [] then START else Step(c, Run(c, ops[..|ops| - 1]), ops[|ops| - 1])
  }

  /** `frame` is the encoding of `body`, and decodes to it with nothing left over. */
  ghost predicate Carries(c: Codecs, frame: seq<byte>, body: Struct) {
    frame != [] && Encode(c, body) == Some(frame) && Decode(c, ShapeOf(body), frame) == Ok((body, []))
  }

  /** The stored frame is not the placeholder, and carries the event's own seq, labeler and content. */
  ghost predicate SelfDescribing(c: Codecs, row: Row, e: IngestEvent) {
    && 0 < row.event.relaySeq < TWO_63
    && row.event.kind == e.kind && row.event.did == e.did && row.upstreamSeq == e.upstreamSeq
    && (e.kind == "labels" || e.kind == "service")
    && (e.kind == "labels" ==>
          Carries(c, row.event.frame,
                  Labels(row.event.relaySeq, e.did, e.labels, if e.upstreamSeq.Some? then e.upstreamSeq.value else 0)))
    && (e.kind == "service" ==>
          Carries(c, row.event.frame, Service(e.action, row.event.relaySeq, e.did, e.record)))
  }

  /** The events that have a frame: of a known kind, within the limits of the encoders. */
  ghost predicate Storable(c: Codecs, e: IngestEvent) {
    && |e.did| <= 8192
    && ((&& e.kind == "labels" && |e.labels| <= 8192
         && forall l :: l in e.labels && l.Some? ==> c.encLabel(l.value).Some?)
        || (e.kind == "service" && |e.action| <= 8192 && (e.record.Some? ==> c.encRecord(e.record.value).Some?)))
  }

  ghost predicate WorldInv(c: Codecs, w: World) {
    && Seam.Sequenced(Events(w.committed))
    && Last(Events(w.committed), 0) <= w.db.lastId
    && Ascending(Events(w.db.rows)) && (forall r :: r in w.db.rows ==> r in w.committed)
    && w.booted <= |w.committed| && w.emitted == Events(w.committed)[w.booted..]
    && AllDescribed(c, w.committed, w.sources)
  }

  lemma {:induction false} StorableExactly(c: Codecs, e: IngestEvent, id: int64)
    ensures EncodeBody(c, e, id).Some? <==> Storable(c, e)
  {
    hide Encode;
    if BodyOf(e, id).Some? {
      EncodesWithinLimits(c, BodyOf(e, id).value);
    }
  }

  /** An ingest commits exactly when its transaction meets no fault, an id is left and the event has a frame. */
  lemma {:induction false} MintedExactly(c: Codecs, db: Db, e: IngestEvent, now: int, skip: nat, fault: Fault)
    ensures Minted(c, db, e, now, skip, fault).Some?
            <==> fault.NoFault? && db.lastId + 1 + skip < TWO_63 && Storable(c, e)
  {
    hide EncodeBody, Storable;
    if db.lastId + 1 + skip < TWO_63 {
      StorableExactly(c, e, db.lastId + 1 + skip);
    }
  }

  /** What it commits is stamped `now`, carries the minted id and the content of the event. */
  lemma {:induction false} MintedDescribes(c: Codecs, db: Db, e: IngestEvent, now: int, skip: nat, fault: Fault)
    requires SelfDelimiting(c) && Minted(c, db, e, now, skip, fault).Some?
    ensures var row := Minted(c, db, e, now, skip, fault).value;
            row.event.relaySeq == db.lastId + 1 + skip && row.ingestTs == now && SelfDescribing(c, row, e)
  {
    hide SelfDelimiting, Encode, Decode;
    var row := Minted(c, db, e, now, skip, fault).value;
    var body := BodyOf(e, row.event.relaySeq).value;
    RoundTrip(c, body, []);
    assert row.event.frame + [] == row.event.frame;
    EncodedIsNotEmpty(c, body);
  }

  lemma EncodedIsNotEmpty(c: Codecs, s: Struct)
    requires Encode(c, s).Some?
    ensures Encode(c, s).value != []
  {
  }

  /** One ingest, whole: the row it commits, stores and broadcasts, or nothing at all. */
  lemma {:induction false} IngestCommits(c: Codecs, w: World, e: IngestEvent, now: int, skip: nat, fault: Fault, crash: bool)
    requires SelfDelimiting(c)
    ensures var u, id := Step(c, w, Ingest(e, now, skip, fault, crash)), w.db.lastId + 1 + skip;
            if fault.NoFault? && id < TWO_63 && Storable(c, e) then
              exists row ::
                && SelfDescribing(c, row, e) && row.event.relaySeq == id && row.ingestTs == now
                && u.db == Db(w.db.rows + [row], id)
                && u.committed == w.committed + [row] && u.sources == w.sources + [e]
                && (if crash then u.emitted == [] && u.booted == |u.committed|
                    else u.emitted == w.emitted + [row.event] && u.booted == w.booted)
            else u == w
  {
    hide Minted, Storable, SelfDescribing, SelfDelimiting;
    MintedExactly(c, w.db, e, now, skip, fault);
    var minted := Minted(c, w.db, e, now, skip, fault);
    if minted.Some? {
      MintedDescribes(c, w.db, e, now, skip, fault);
      var u, row := Step(c, w, Ingest(e, now, skip, fault, crash)), minted.value;
      assert u.db == Db(w.db.rows + [row], row.event.relaySeq);
    }
  }

  /** Whatever else happens commits nothing: a delete or prune removes the rows it says, a restart forgets what was sent. */
  lemma {:induction false} OthersCommitNothing(c: Codecs, w: World, op: Op)
    requires !op.Ingest?
    ensures var u := Step(c, w, op);
            && u.committed == w.committed && u.sources == w.sources && u.db.lastId == w.db.lastId
            && (forall r :: r in u.db.rows <==>
                  && r in w.db.rows
                  && (op.DeleteBatch? ==> r.event.relaySeq !in op.dead) && (op.PruneAll? ==> r.ingestTs >= op.cutoff))
            && (op.Restart? ==> u.emitted == [] && u.booted == |u.committed|)
            && (!op.Restart? ==> u.emitted == w.emitted && u.booted == w.booted)
  {
    match op {
      case DeleteBatch(dead) => DeleteContents(w.db.rows, dead);
      case PruneAll(cutoff) => FreshContents(w.db.rows, cutoff);
      case _ =>
    }
  }

  lemma AppendSequenced(rows: seq<Row>, row: Row, lastId: nat)
    requires Seam.Sequenced(Events(rows)) && Last(Events(rows), 0) <= lastId
    requires lastId < row.event.relaySeq < TWO_63
    ensures Seam.Sequenced(Events(rows + [row])) && Events(rows + [row]) == Events(rows) + [row.event]
    ensures Last(Events(rows + [row]), 0) == row.event.relaySeq
  {
    assert Events(rows + [row]) == Events(rows) + [row.event];
    assert forall e :: e in Events(rows) + [row.event] <==> e in Events(rows) || e == row.event;
  }

  lemma SubsetBelow(rows: seq<Row>, committed: seq<Row>)
    requires Ascending(Events(committed)) && forall r :: r in rows ==> r in committed
    ensures forall i :: 0 <= i < |rows| ==> rows[i].event.relaySeq <= Last(Events(committed), 0)
  {
    forall i | 0 <= i < |rows| ensures rows[i].event.relaySeq <= Last(Events(committed), 0) {
      assert rows[i] in committed;
      var k :| 0 <= k < |committed| && committed[k] == rows[i];
      assert Events(committed)[k] == rows[i].event;
    }
  }

  ghost predicate AllDescribed(c: Codecs, rows: seq<Row>, sources: seq<IngestEvent>) {
    |sources| == |rows| && forall i :: 0 <= i < |rows| ==> SelfDescribing(c, rows[i], sources[i])
  }

  lemma AppendBroadcast(committed: seq<Row>, row: Row, emitted: seq<Event>, booted: nat)
    requires booted <= |committed| && emitted == Events(committed)[booted..]
    ensures emitted + [row.event] == Events(committed + [row])[booted..]
  {
    assert Events(committed + [row]) == Events(committed) + [row.event];
  }

  lemma {:induction false} CommitKeepsWorld(c: Codecs, w: World, e: IngestEvent, row: Row)
    requires WorldInv(c, w) && w.db.lastId < row.event.relaySeq && SelfDescribing(c, row, e)
    ensures WorldInv(c, Commit(w, e, row))
  {
    AppendSequenced(w.committed, row, w.db.lastId);
    AppendBroadcast(w.committed, row, w.emitted, w.booted);
    AppendSurvives(w.db.rows, w.committed, row, w.db.lastId);
  }

  lemma {:induction false} BootKeepsWorld(c: Codecs, w: World)
    requires WorldInv(c, w)
    ensures WorldInv(c, Boot(w))
  {
    assert Events(w.committed)[|w.committed|..] == [];
  }

  lemma AppendSurvives(rows: seq<Row>, committed: seq<Row>, row: Row, lastId: nat)
    requires Ascending(Events(committed)) && Last(Events(committed), 0) <= lastId < row.event.relaySeq
    requires Ascending(Events(rows)) && forall r :: r in rows ==> r in committed
    ensures Ascending(Events(rows + [row])) && forall r :: r in rows + [row] ==> r in committed + [row]
  {
    SubsetBelow(rows, committed);
    assert Events(rows + [row]) == Events(rows) + [row.event];
  }

  lemma {:induction false} StepKeepsWorld(c: Codecs, w: World, op: Op)
    requires SelfDelimiting(c) && WorldInv(c, w)
    ensures WorldInv(c, Step(c, w, op))
  {
    match op {
      case Ingest(e, now, skip, fault, _) =>
        var minted := Minted(c, w.db, e, now, skip, fault);
        if minted.Some? {
          MintedDescribes(c, w.db, e, now, skip, fault);
          CommitKeepsWorld(c, w, e, minted.value);
          BootKeepsWorld(c, Commit(w, e, minted.value));
        }
      case DeleteBatch(dead) => DeleteContents(w.db.rows, dead);
      case PruneAll(cutoff) => FreshContents(w.db.rows, cutoff);
      case Restart => BootKeepsWorld(c, w);
    }
  }

  /**
   Over any run of successful, failed and crashed ingests, deletes and restarts: committed seqs strictly
   increase and stay at or below the AUTOINCREMENT counter, so none is ever reused; each process has
   broadcast exactly what it committed, in commit order; every row is a committed one, and every
   committed frame decodes to its own relay seq, labeler and content.
   */
  lemma {:induction false} GlobalSequencing(c: Codecs, ops: seq<Op>)
    requires SelfDelimiting(c)
    ensures WorldInv(c, Run(c, ops))
  {
    if ops != [] {
      GlobalSequencing(c, ops[..|ops| - 1]);
      StepKeepsWorld(c, Run(c, ops[..|ops| - 1]), ops[|ops| - 1]);
    }
  }

  /** Nothing that happens later changes or renumbers a committed row. */
  lemma {:induction false} CommittedOnlyGrows(c: Codecs, ops: seq<Op>, more: seq<Op>)
    ensures Run(c, ops).committed <= Run(c, ops + more).committed
    ensures Run(c, ops).db.lastId <= Run(c, ops + more).db.lastId
    decreases |more|
  {
    if more == [] {
      assert ops + more == ops;
    } else {
      CommittedOnlyGrows(c, ops, more[..|more| - 1]);
      assert (ops + more)[..|ops + more| - 1] == ops + more[..|more| - 1];
    }
  }
}

/** What a cursor means against the retention window (persist.go:268-322). */
module Cursors {
  import opened Prelude
  import opened MapCodec
  import opened StoreSpec
  import Frames
  import Seam

  datatype CursorState = CursorOK | CursorFuture | CursorOutdated

  /** COALESCE(MAX(relay_seq), 0). */
  function Head(rows: seq<Row>): int {
    if rows == [] then 0 else rows[|rows| - 1].event.relaySeq
  }

  /** COALESCE(MIN(relay_seq), 0). */
  function Floor(rows: seq<Row>): int {
    if rows == [] then 0 else rows[0].event.relaySeq
  }

  function Status(head: int, floor: int, cursor: int): CursorState {
    if cursor > head then CursorFuture
    else if floor > 0 && cursor < floor - 1 then CursorOutdated
    else CursorOK
  }

  /** What a playback above `since` returns from this table. */
  function Replay(rows: seq<Row>, since: int): seq<Event> {
    Above(Events(rows), {}, since)
  }

  /** Ingest timestamps do not go back, and pruning is only observed completed. */
  ghost predicate Timely(ops: seq<Op>) {
    && (forall i :: 0 <= i < |ops| ==> !ops[i].DeleteBatch?)
    && forall i, j :: 0 <= i < j < |ops| && ops[i].Ingest? && ops[j].Ingest? ==> ops[i].now <= ops[j].now
  }

  /** The surviving rows are the newest committed ones. */
  ghost predicate Suffix(rows: seq<Row>, committed: seq<Row>) {
    |rows| <= |committed| && rows == committed[|committed| - |rows|..]
  }

  /** What is left of the committed rows after any deletes whatever. */
  ghost predicate Survives(rows: seq<Row>, committed: seq<Row>) {
    && Ascending(Events(rows)) && Seam.Sequenced(Events(committed))
    && forall e :: e in Events(rows) ==> e in Events(committed)
  }

  /** No committed event from the oldest surviving one on is gone. */
  ghost predicate NoHoles(rows: seq<Row>, committed: seq<Row>) {
    forall e :: e in Events(committed) && Floor(rows) <= e.relaySeq ==> e in Events(rows)
  }

  ghost predicate Dated(rows: seq<Row>) {
    forall i, j :: 0 <= i < j < |rows| ==> rows[i].ingestTs <= rows[j].ingestTs
  }

  lemma FreshOfLast(rows: seq<Row>, cutoff: int)
    requires rows != []
    ensures var n := |rows| - 1;
            Fresh(rows, cutoff) == Fresh(rows[..n], cutoff) + if rows[n].ingestTs >= cutoff then [rows[n]] else []
  {
  }

  lemma SuffixGrows(kept: seq<Row>, rows: seq<Row>)
    requires rows != [] && Suffix(kept, rows[..|rows| - 1])
    ensures Suffix(kept + [rows[|rows| - 1]], rows)
  {
    var n := |rows| - 1;
    assert rows[n - |kept|..] == rows[..n][n - |kept|..] + [rows[n]];
  }

  lemma {:induction false} FreshIsSuffix(rows: seq<Row>, cutoff: int)
    requires Dated(rows)
    ensures Suffix(Fresh(rows, cutoff), rows)
    ensures rows == [] || rows[|rows| - 1].ingestTs < cutoff ==> Fresh(rows, cutoff) == []
  {
    if rows != [] {
      hide Fresh, Suffix;
      var n := |rows| - 1;
      FreshIsSuffix(rows[..n], cutoff);
      FreshOfLast(rows, cutoff);
      assert n > 0 ==> rows[..n][n - 1] == rows[n - 1];
      if rows[n].ingestTs >= cutoff {
        SuffixGrows(Fresh(rows[..n], cutoff), rows);
      } else {
        NoneIsSuffix(rows);
      }
    }
  }

  lemma NoneIsSuffix(rows: seq<Row>)
    ensures Suffix([], rows)
  {
  }

  lemma SuffixOfSuffix(a: seq<Row>, b: seq<Row>, all: seq<Row>)
    requires Suffix(a, b) && Suffix(b, all)
    ensures Suffix(a, all)
  {
  }

  lemma {:induction false} CommittedBefore(c: Codecs, ops: seq<Op>, t: int)
    requires forall i :: 0 <= i < |ops| && ops[i].Ingest? ==> ops[i].now <= t
    ensures forall i :: 0 <= i < |Run(c, ops).committed| ==> Run(c, ops).committed[i].ingestTs <= t
  {
    if ops != [] {
      CommittedBefore(c, ops[..|ops| - 1], t);
    }
  }

  /** With a clock that does not go back, ingests and completed prunes keep the newest rows, without holes. */
  lemma {:induction false} SurvivorsAreSuffix(c: Codecs, ops: seq<Op>)
    requires Timely(ops)
    ensures Suffix(Run(c, ops).db.rows, Run(c, ops).committed) && Dated(Run(c, ops).committed)
  {
    hide Frames.EncodeBody, Fresh;
    if ops != [] {
      var n := |ops| - 1;
      var before, w := Run(c, ops[..n]), Run(c, ops);
      SurvivorsAreSuffix(c, ops[..n]);
      match ops[n] {
        case Ingest(e, now, skip, fault, _) =>
          CommittedBefore(c, ops[..n], now);
        case PruneAll(cutoff) =>
          FreshIsSuffix(before.db.rows, cutoff);
          SuffixOfSuffix(w.db.rows, before.db.rows, w.committed);
        case _ =>
      }
    }
  }

  lemma ReplayContents(rows: seq<Row>, since: int)
    requires Ascending(Events(rows))
    ensures Ascending(Replay(rows, since))
    ensures forall e :: e in Replay(rows, since) <==> e in Events(rows) && since < e.relaySeq
  {
    AboveContents(Events(rows), {}, since);
  }

  /** The events left by a delete. */
  lemma DeleteEvents(committed: seq<Row>, gone: set<int>)
    ensures forall e :: e in Events(Delete(committed, gone)) <==> e in Events(committed) && e.relaySeq !in gone
  {
    var rows := Delete(committed, gone);
    DeleteContents(committed, gone);
    forall e ensures e in Events(rows) <==> e in Events(committed) && e.relaySeq !in gone {
      if e in Events(rows) {
        var k :| 0 <= k < |rows| && Events(rows)[k] == e;
        assert rows[k] in committed;
        var j :| 0 <= j < |committed| && committed[j] == rows[k];
        assert Events(committed)[j] == e;
      }
      if e in Events(committed) && e.relaySeq !in gone {
        var j :| 0 <= j < |committed| && Events(committed)[j] == e;
        assert committed[j] in rows;
        var k :| 0 <= k < |rows| && rows[k] == committed[j];
        assert Events(rows)[k] == e;
      }
    }
  }

  /** A playback of the table is the playback the seam takes of the log, given which rows were deleted. */
  lemma PlaybackOfLog(committed: seq<Row>, gone: set<int>, since: int)
    requires Ascending(Events(committed))
    ensures Replay(Delete(committed, gone), since) == Above(Events(committed), gone, since)
  {
    DeleteContents(committed, gone);
    DeleteEvents(committed, gone);
    ReplayContents(Delete(committed, gone), since);
    AboveContents(Events(committed), gone, since);
    AscendingUnique(Replay(Delete(committed, gone), since), Above(Events(committed), gone, since));
  }

  /** Head and Floor bound a table in primary-key order. */
  lemma Bounds(rows: seq<Row>)
    requires Ascending(Events(rows)) && rows != []
    ensures forall e :: e in Events(rows) ==> Floor(rows) <= e.relaySeq <= Head(rows)
    ensures Events(rows)[0].relaySeq == Floor(rows) && Events(rows)[|rows| - 1].relaySeq == Head(rows)
  {
    var es := Events(rows);
    assert es[0].relaySeq == Floor(rows) && es[|es| - 1].relaySeq == Head(rows);
    forall e | e in es ensures Floor(rows) <= e.relaySeq <= Head(rows) {
      var k :| 0 <= k < |es| && es[k] == e;
    }
  }

  /** The newest rows, and not none of them, have no holes. */
  lemma SuffixHasNoHoles(rows: seq<Row>, committed: seq<Row>)
    requires Suffix(rows, committed) && Seam.Sequenced(Events(committed)) && rows != []
    ensures Survives(rows, committed) && NoHoles(rows, committed)
  {
    var d := |committed| - |rows|;
    assert Events(rows) == Events(committed)[d..];
    forall e | e in Events(committed) && Floor(rows) <= e.relaySeq ensures e in Events(rows) {
      var k :| 0 <= k < |committed| && Events(committed)[k] == e;
      assert Events(committed)[d].relaySeq == Floor(rows);
      assert Events(rows)[k - d] == e;
    }
  }

  /** What the status of a cursor says about everything ever committed. */
  ghost predicate SaysWhatItMeans(rows: seq<Row>, committed: seq<Row>, cursor: int) {
    var status := Status(Head(rows), Floor(rows), cursor);
    && (status.CursorFuture? <==> forall e :: e in Events(committed) ==> e.relaySeq < cursor)
    && (status.CursorOK? ==> Replay(rows, cursor) == Above(Events(committed), {}, cursor))
    && (status.CursorOutdated? ==> cursor < Floor(rows) - 1 && Replay(rows, Floor(rows) - 1) == Events(rows))
  }

  /** A playback from at or after floor - 1 misses nothing when there are no holes. */
  lemma NothingMissed(rows: seq<Row>, committed: seq<Row>, cursor: int)
    requires Survives(rows, committed) && NoHoles(rows, committed)
    requires Floor(rows) > 0 ==> cursor >= Floor(rows) - 1
    ensures Replay(rows, cursor) == Above(Events(committed), {}, cursor)
  {
    ReplayContents(rows, cursor);
    ReplayContents(committed, cursor);
    AscendingUnique(Replay(rows, cursor), Replay(committed, cursor));
  }

  /** Resuming from floor - 1 replays every surviving row. */
  lemma FloorReplaysAll(rows: seq<Row>)
    requires Ascending(Events(rows))
    ensures Replay(rows, Floor(rows) - 1) == Events(rows)
  {
    ReplayContents(rows, Floor(rows) - 1);
    if rows == [] {
      assert Events(rows) == [];
    } else {
      Bounds(rows);
    }
    AscendingUnique(Replay(rows, Floor(rows) - 1), Events(rows));
  }

  /**
   On a table without holes: Future says the cursor is above everything ever committed; OK, that a playback
   from the cursor misses no committed event; Outdated, that one from floor - 1 returns every surviving row.
   */
  lemma StatusMeans(rows: seq<Row>, committed: seq<Row>, cursor: int)
    requires Survives(rows, committed) && NoHoles(rows, committed) && rows != []
    ensures SaysWhatItMeans(rows, committed, cursor)
  {
    Bounds(rows);
    var newest := Events(committed)[|committed| - 1];
    assert newest in Events(committed) && Events(rows)[0] in Events(committed);
    assert Events(rows)[|rows| - 1] in Events(committed);
    FloorReplaysAll(rows);
    if Status(Head(rows), Floor(rows), cursor).CursorOK? {
      NothingMissed(rows, committed, cursor);
    }
  }

  /** Whatever was deleted: OK never misses a committed event exactly when the table has no holes. */
  lemma OkMissesNothingExactly(rows: seq<Row>, committed: seq<Row>)
    requires Survives(rows, committed)
    ensures (forall cursor :: Status(Head(rows), Floor(rows), cursor).CursorOK? ==>
               Replay(rows, cursor) == Above(Events(committed), {}, cursor))
            <==> NoHoles(rows, committed)
  {
    if NoHoles(rows, committed) {
      forall cursor | Status(Head(rows), Floor(rows), cursor).CursorOK?
        ensures Replay(rows, cursor) == Above(Events(committed), {}, cursor)
      {
        NothingMissed(rows, committed, cursor);
      }
    } else {
      var e :| e in Events(committed) && Floor(rows) <= e.relaySeq && e !in Events(rows);
      if rows != [] {
        Bounds(rows);
      }
      var cursor := if e.relaySeq - 1 <= Head(rows) then e.relaySeq - 1 else Head(rows);
      ReplayContents(rows, cursor);
      ReplayContents(committed, cursor);
      assert Status(Head(rows), Floor(rows), cursor).CursorOK?;
      assert e in Above(Events(committed), {}, cursor) && e !in Replay(rows, cursor);
    }
  }

  /** Whatever was deleted: a cursor a consumer received is refused as Future exactly when every surviving row is older. */
  lemma FutureForReceivedExactly(rows: seq<Row>, committed: seq<Row>, cursor: int)
    requires Survives(rows, committed) && exists e :: e in Events(committed) && e.relaySeq == cursor
    ensures Status(Head(rows), Floor(rows), cursor).CursorFuture? <==> forall e :: e in Events(rows) ==> e.relaySeq < cursor
  {
    if rows != [] {
      Bounds(rows);
      assert Events(rows)[|rows| - 1] in Events(rows);
    }
  }

  /** After completed prunes that is the case only when nothing at all is left: the head of an empty table is 0. */
  lemma FutureAfterTotalPrune(rows: seq<Row>, committed: seq<Row>, cursor: int)
    requires Suffix(rows, committed) && Seam.Sequenced(Events(committed))
    requires exists e :: e in Events(committed) && e.relaySeq == cursor
    ensures Status(Head(rows), Floor(rows), cursor).CursorFuture? <==> rows == []
  {
    if rows != [] {
      SuffixHasNoHoles(rows, committed);
      StatusMeans(rows, committed, cursor);
    }
  }

  /**
   The source reads head and floor in two queries. When the table changes in between, OK still misses nothing of
   what is committed by the second query, if that sees no holes, and Outdated still means the cursor lies below the floor.
   */
  lemma StatusAcrossQueries(atHead: seq<Row>, atFloor: seq<Row>, committed: seq<Row>, cursor: int)
    requires Ascending(Events(atHead)) && Survives(atFloor, committed)
    ensures var status := Status(Head(atHead), Floor(atFloor), cursor);
            && (status.CursorFuture? <==>
                  (forall e :: e in Events(atHead) ==> e.relaySeq < cursor) && (atHead == [] ==> cursor > 0))
            && (status.CursorOK? && NoHoles(atFloor, committed) ==>
                  Replay(atFloor, cursor) == Above(Events(committed), {}, cursor))
            && (status.CursorOutdated? ==> forall e :: e in Events(atFloor) ==> cursor + 1 < e.relaySeq)
  {
    if atHead != [] {
      Bounds(atHead);
      assert Events(atHead)[|atHead| - 1] in Events(atHead);
    }
    if atFloor != [] {
      Bounds(atFloor);
    }
    if Status(Head(atHead), Floor(atFloor), cursor).CursorOK? && NoHoles(atFloor, committed) {
      NothingMissed(atFloor, committed, cursor);
    }
  }

  // ----- without skipped ids

  /** No id was skipped: the n-th committed event has relay seq n. */
  ghost predicate Contiguous(committed: seq<Row>) {
    forall i :: 0 <= i < |committed| ==> committed[i].event.relaySeq == i + 1
  }

  /** The surviving seqs are all the numbers from the floor to the head. */
  ghost predicate Interval(rows: seq<Row>) {
    forall i :: 0 <= i < |rows| ==> rows[i].event.relaySeq == Floor(rows) + i
  }

  /**
   Outdated exactly when a committed event above the cursor is gone or the cursor is negative; OK means
   playback begins at cursor + 1, or is empty at the head.
   */
  ghost predicate SaysItExactly(rows: seq<Row>, committed: seq<Row>, cursor: int) {
    var status := Status(Head(rows), Floor(rows), cursor);
    && (status.CursorOutdated? <==>
          cursor < 0 || exists r :: r in committed && r !in rows && cursor < r.event.relaySeq)
    && (status.CursorOK? ==>
          if cursor == Head(rows) then Replay(rows, cursor) == []
          else Replay(rows, cursor) != [] && Replay(rows, cursor)[0].relaySeq == cursor + 1)
  }

  lemma OutdatedIsExact(rows: seq<Row>, committed: seq<Row>, cursor: int)
    requires Suffix(rows, committed) && Contiguous(committed) && rows != []
    ensures Status(Head(rows), Floor(rows), cursor).CursorOutdated?
            <==> cursor < 0 || exists r :: r in committed && r !in rows && cursor < r.event.relaySeq
  {
    var d := |committed| - |rows|;
    assert rows[0] == committed[d] && rows[|rows| - 1] == committed[|committed| - 1];
    forall r | r in committed ensures r in rows <==> d < r.event.relaySeq {
      var j :| 0 <= j < |committed| && committed[j] == r;
      if j >= d {
        assert rows[j - d] == r;
      }
    }
    if d > 0 {
      assert committed[d - 1] in committed;
    }
  }

  lemma StatusIsExact(rows: seq<Row>, committed: seq<Row>, cursor: int)
    requires Suffix(rows, committed) && Contiguous(committed) && |committed| < TWO_63 && rows != []
    ensures Interval(rows) && SaysItExactly(rows, committed, cursor)
  {
    OutdatedIsExact(rows, committed, cursor);
    ContiguousIsSequenced(committed);
    SuffixHasNoHoles(rows, committed);
    assert rows[|rows| - 1] == committed[|committed| - 1];
    if Status(Head(rows), Floor(rows), cursor).CursorOK? {
      PlaybackStart(rows, committed, cursor);
    }
  }

  lemma ContiguousIsSequenced(committed: seq<Row>)
    requires Contiguous(committed) && |committed| < TWO_63
    ensures Seam.Sequenced(Events(committed))
  {
    forall e | e in Events(committed) ensures 0 < e.relaySeq < TWO_63 {
      var k :| 0 <= k < |committed| && Events(committed)[k] == e;
    }
  }

  lemma PlaybackStart(rows: seq<Row>, committed: seq<Row>, cursor: int)
    requires Survives(rows, committed) && NoHoles(rows, committed) && Contiguous(committed) && rows != []
    requires Head(rows) == |committed| && Status(Head(rows), Floor(rows), cursor).CursorOK?
    ensures if cursor == Head(rows) then Replay(rows, cursor) == []
            else Replay(rows, cursor) != [] && Replay(rows, cursor)[0].relaySeq == cursor + 1
  {
    Bounds(rows);
    assert Events(rows)[0] in Events(committed);
    ReplayContents(rows, cursor);
    var replay := Replay(rows, cursor);
    if cursor == Head(rows) {
      AscendingUnique(replay, []);
    } else {
      var next := Events(committed)[cursor];
      assert next.relaySeq == cursor + 1 && next in Events(committed);
      var k :| 0 <= k < |replay| && replay[k] == next;
      assert replay[0] in replay;
    }
  }

  // ----- the contract over runs

  /** SQLite hands out the next id each time. */
  ghost predicate NoSkips(ops: seq<Op>) {
    forall i :: 0 <= i < |ops| && ops[i].Ingest? ==> ops[i].skip == 0
  }

  lemma {:induction false} NoSkipsIsContiguous(c: Codecs, ops: seq<Op>)
    requires NoSkips(ops)
    ensures Contiguous(Run(c, ops).committed) && Run(c, ops).db.lastId == |Run(c, ops).committed|
  {
    hide Frames.EncodeBody, Fresh, Delete;
    if ops != [] {
      NoSkipsIsContiguous(c, ops[..|ops| - 1]);
    }
  }

  /**
   The cursor contract: after any run of ingests, failures, crashes, restarts and completed prunes, under a
   clock that does not go back, the status of a cursor says what it means about everything ever committed;
   and when no id was skipped the surviving seqs are an interval and the status is exact.
   */
  lemma CursorContract(c: Codecs, ops: seq<Op>, cursor: int)
    requires SelfDelimiting(c) && Timely(ops) && Run(c, ops).db.rows != []
    ensures var w := Run(c, ops);
            && SaysWhatItMeans(w.db.rows, w.committed, cursor)
            && (NoSkips(ops) ==> Interval(w.db.rows) && SaysItExactly(w.db.rows, w.committed, cursor))
  {
    hide SelfDescribing, Run, SaysWhatItMeans, SaysItExactly, Interval, NoSkips;
    var w := Run(c, ops);
    GlobalSequencing(c, ops);
    SurvivorsAreSuffix(c, ops);
    SuffixHasNoHoles(w.db.rows, w.committed);
    StatusMeans(w.db.rows, w.committed, cursor);
    if NoSkips(ops) {
      NoSkipsIsContiguous(c, ops);
      assert Events(w.committed)[|w.committed| - 1] in Events(w.committed);
      StatusIsExact(w.db.rows, w.committed, cursor);
    }
  }

  // ----- between two batches

  /** The seqs from 2 to size + 1. */
  function AfterFirst(size: nat): (seqs: set<int>)
    ensures |seqs| == size && forall x :: x in seqs <==> 2 <= x < size + 2
  {
    if size == 0 then {} else AfterFirst(size - 1) + {size + 1}
  }

  lemma {:induction false} SubsetIsNoLarger<T>(a: set<T>, b: set<T>)
    requires a <= b
    ensures |a| <= |b|
  {
    if a != {} {
      var x :| x in a;
      SubsetIsNoLarger(a - {x}, b - {x});
    }
  }

  /** A full batch of any size may spare the oldest row and take the ones after it. */
  lemma BatchSparesOldest(committed: seq<Row>, cutoff: int, size: nat)
    requires Contiguous(committed) && size < |committed| < TWO_63
    requires forall r :: r in committed ==> r.ingestTs < cutoff
    ensures var after := Delete(committed, AfterFirst(size));
            && OneBatch(committed, cutoff, size, after) && Survives(after, committed)
            && (forall e :: e in Events(after) <==> e in Events(committed) && !(2 <= e.relaySeq < size + 2))
  {
    var dead, after := AfterFirst(size), Delete(committed, AfterFirst(size));
    ContiguousIsSequenced(committed);
    DeleteContents(committed, dead);
    forall x | x in dead ensures x in Old(committed, cutoff) {
      assert committed[x - 1] in committed && committed[x - 1].event.relaySeq == x;
    }
    SubsetIsNoLarger(dead, Old(committed, cutoff));
    DeleteEvents(committed, dead);
  }

  /** The floor of such a table is the oldest row. */
  lemma OldestIsFloor(committed: seq<Row>, after: seq<Row>)
    requires Contiguous(committed) && committed != [] && Survives(after, committed)
    requires Events(committed)[0] in Events(after)
    ensures after != [] && Floor(after) == 1
  {
    Bounds(after);
    assert Events(after)[0] in Events(committed);
  }

  /**
   Between two batches of a prune, whatever the batch size, a cursor can be OK although the event after it,
   which was committed and not yet received, is gone: the batch left a hole.
   */
  lemma HalfPrunedTableHidesLoss(committed: seq<Row>, cutoff: int, size: nat)
    requires Contiguous(committed) && 0 < size && size + 1 < |committed| < TWO_63
    requires forall r :: r in committed ==> r.ingestTs < cutoff
    ensures exists after :: OneBatch(committed, cutoff, size, after) && !NoHoles(after, committed)
                            && Status(Head(after), Floor(after), 1).CursorOK?
                            && Replay(after, 1) != Above(Events(committed), {}, 1)
  {
    var after := Delete(committed, AfterFirst(size));
    BatchSparesOldest(committed, cutoff, size);
    var es := Events(committed);
    assert es[0] in es && es[1] in es && es[size + 1] in es;
    assert es[0] in Events(after) && es[1] !in Events(after) && es[size + 1] in Events(after);
    OldestIsFloor(committed, after);
    Bounds(after);
    ReplayContents(after, 1);
    ReplayContents(committed, 1);
    assert es[1] in Above(es, {}, 1) && es[1] !in Replay(after, 1);
  }

  /** Between two batches a consumer can be refused as Future for the newest event, which it received, while rows survive. */
  lemma HalfPrunedTableRefusesReceived(committed: seq<Row>, cutoff: int, size: nat)
    requires Contiguous(committed) && 0 < size && size + 1 == |committed| < TWO_63
    requires forall r :: r in committed ==> r.ingestTs < cutoff
    ensures exists after :: OneBatch(committed, cutoff, size, after) && after != []
                            && Status(Head(after), Floor(after), size + 1).CursorFuture?
  {
    var after := Delete(committed, AfterFirst(size));
    BatchSparesOldest(committed, cutoff, size);
    var es := Events(committed);
    assert es[0] in es && es[size] in es && es[size].relaySeq == size + 1;
    assert es[0] in Events(after);
    OldestIsFloor(committed, after);
    forall e | e in Events(after) ensures e.relaySeq < size + 1 {
      var k :| 0 <= k < |es| && es[k] == e;
    }
    FutureForReceivedExactly(after, committed, size + 1);
  }
}
