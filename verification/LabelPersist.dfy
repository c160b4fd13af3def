/** The serialized single writer over the events table (persist.go:50). */
module LabelPersistObject {
  import opened Prelude
  import opened MapCodec
  import opened Frames
  import opened StoreSpec
  import opened Cursors
  import HubSpec
  import opened HubObjects

  lemma {:induction false} SubsetOfSize<T>(s: set<T>, n: nat)
    requires n <= |s|
    ensures exists t :: t <= s && |t| == n
    decreases |s|
  {
    if n == |s| {
      assert s <= s && |s| == n;
    } else {
      var x :| x in s;
      SubsetOfSize(s - {x}, n);
      var t :| t <= s - {x} && |t| == n;
      assert t <= s;
    }
  }

  lemma {:induction false} FreshSurvives(rows: seq<Row>, dead: set<int>, cutoff: int)
    requires forall r :: r in rows && r.event.relaySeq in dead ==> r.ingestTs < cutoff
    ensures Fresh(Delete(rows, dead), cutoff) == Fresh(rows, cutoff)
  {
    if rows != [] {
      var n := |rows| - 1;
      FreshSurvives(rows[..n], dead, cutoff);
      var left, last := Delete(rows[..n], dead), rows[n];
      assert last in rows;
      if last.event.relaySeq in dead {
        assert Delete(rows, dead) == left;
      } else {
        assert Delete(rows, dead) == left + [last] && (left + [last])[..|left|] == left;
      }
    }
  }

  /** Only old rows carry the seqs of old rows. */
  lemma OldSeqsAreOld(rows: seq<Row>, cutoff: int)
    requires Ascending(Events(rows))
    ensures forall r :: r in rows && r.event.relaySeq in Old(rows, cutoff) ==> r.ingestTs < cutoff
  {
    forall r, o | r in rows && o in rows && o.event.relaySeq == r.event.relaySeq ensures r == o {
      var i :| 0 <= i < |rows| && rows[i] == r;
      var j :| 0 <= j < |rows| && rows[j] == o;
      assert Events(rows)[i].relaySeq == Events(rows)[j].relaySeq;
    }
  }

  /** Deleting some old rows leaves the fresh ones, and that many fewer old ones. */
  lemma DeleteOld(rows: seq<Row>, dead: set<int>, cutoff: int)
    requires Ascending(Events(rows)) && dead <= Old(rows, cutoff)
    ensures Old(Delete(rows, dead), cutoff) == Old(rows, cutoff) - dead
    ensures |Old(Delete(rows, dead), cutoff)| == |Old(rows, cutoff)| - |dead|
    ensures Fresh(Delete(rows, dead), cutoff) == Fresh(rows, cutoff)
    ensures Ascending(Events(Delete(rows, dead)))
  {
    OldSeqsAreOld(rows, cutoff);
    FreshSurvives(rows, dead, cutoff);
    DeleteContents(rows, dead);
    forall x | x in Old(rows, cutoff) - dead ensures x in Old(Delete(rows, dead), cutoff) {
      var r :| r in rows && r.ingestTs < cutoff && r.event.relaySeq == x;
      assert r in Delete(rows, dead);
    }
    assert Old(Delete(rows, dead), cutoff) == Old(rows, cutoff) - dead;
  }

  /** A table without old rows is its own fresh part. */
  lemma {:induction false} AllFresh(rows: seq<Row>, cutoff: int)
    requires Old(rows, cutoff) == {}
    ensures Fresh(rows, cutoff) == rows
  {
    if rows != [] {
      var n := |rows| - 1;
      var last := rows[n];
      assert rows == rows[..n] + [last] && last in rows;
      assert last.ingestTs < cutoff ==> last.event.relaySeq in Old(rows, cutoff);
      assert Old(rows[..n], cutoff) <= Old(rows, cutoff);
      AllFresh(rows[..n], cutoff);
    }
  }

  class LabelPersist {
    const codecs: Codecs
    const pruneBatchSize: nat
    var rows: seq<Row>
    var lastId: nat
    var broadcaster: Hub?

    ghost predicate Valid()
      reads this
    {
      && pruneBatchSize > 0
      && Ascending(Events(rows)) && Last(Events(rows), 0) <= lastId
    }

    ghost function Table(): Db
      reads this
    {
      Db(rows, lastId)
    }

    constructor (codecs: Codecs, table: Db)
      requires IsTable(table)
      ensures Valid() && Table() == table && broadcaster == null
      ensures this.codecs == codecs && pruneBatchSize == 5000
    {
      this.codecs, pruneBatchSize := codecs, 5000;
      rows, lastId, broadcaster := table.rows, table.lastId, null;
    }

    method SetBroadcaster(hub: Hub)
      requires Valid()
      modifies this
      ensures Valid() && Table() == old(Table()) && broadcaster == hub
    {
      broadcaster := hub;
    }

    /**
     One transaction: a placeholder row reserves the id, the frame is encoded with it, the row is updated
     and committed; then the event is broadcast. `skip` and `fault` are SQLite's. It fails exactly when the
     transaction meets a fault, no id is left or the event has no frame, and then changes nothing.
     */
    method PersistIngest(e: IngestEvent, now: int, skip: nat, fault: Fault) returns (r: Result<int64>)
      requires Valid() && (broadcaster != null ==> broadcaster.Valid())
      modifies this`rows, this`lastId, broadcaster, if broadcaster == null then [] else broadcaster.all
      ensures Valid()
      ensures r.Ok? <==> fault.NoFault? && old(lastId) + 1 + skip < TWO_63 && Storable(codecs, e)
      ensures r.Ok? ==> r.value as int == lastId == old(lastId) + 1 + skip
      ensures r.Ok? ==> |rows| == |old(rows)| + 1 && old(rows) <= rows
      ensures r.Ok? && SelfDelimiting(codecs) ==>
                && rows[|rows| - 1].event.relaySeq == r.value && rows[|rows| - 1].ingestTs == now
                && SelfDescribing(codecs, rows[|rows| - 1], e)
      ensures r.Ok? && broadcaster != null ==> broadcaster.sent == old(broadcaster.sent) + [rows[|rows| - 1].event]
      ensures r.Err? ==> Table() == old(Table()) && (broadcaster != null ==> broadcaster.Abs() == old(broadcaster.Abs()))
      ensures var row := Minted(codecs, old(Table()), e, now, skip, fault);
              && Table() == Insert(old(Table()), row)
              && (r.Ok? <==> row.Some?) && (r.Ok? ==> r.value == row.value.event.relaySeq)
              && (broadcaster != null ==>
                    && broadcaster.Valid() && broadcaster.all == old(broadcaster.all)
                    && broadcaster.Abs() == (if row.None? then old(broadcaster.Abs())
                                             else HubSpec.Step(old(broadcaster.Abs()), HubSpec.Broadcast(row.value.event))))
    {
      hide EncodeBody, SelfDescribing, Storable, SelfDelimiting;
      MintedExactly(codecs, Table(), e, now, skip, fault);
      if SelfDelimiting(codecs) && Minted(codecs, Table(), e, now, skip, fault).Some? {
        MintedDescribes(codecs, Table(), e, now, skip, fault);
      }
      if fault.BeginFails? {
        return Err("failed to begin transaction");
      }
      var id := lastId + 1 + skip;
      if fault.InsertFails? || id >= TWO_63 {
        return Err("failed to insert placeholder");
      }
      var tx := rows + [Row(Event(id, e.kind, e.did, []), e.upstreamSeq, now)];
      var frame := EncodeBody(codecs, e, id);
      if frame.None? {
        return Err("failed to encode frame");
      }
      var event := Event(id, e.kind, e.did, frame.value);
      tx := tx[|tx| - 1 := Row(event, e.upstreamSeq, now)];
      if fault.UpdateFails? {
        return Err("failed to update frame");
      }
      if fault.CommitFails? {
        return Err("failed to commit transaction");
      }
      assert tx == rows + [Row(event, e.upstreamSeq, now)];
      assert Events(tx) == Events(rows) + [event];
      rows, lastId := tx, id;
      if broadcaster != null {
        broadcaster.Broadcast(event);
      }
      r := Ok(id);
    }

    /**
     Send the rows of one bounded query to a callback. `queryOk` says whether the query starts, `accept(k)`
     whether the callback takes the k-th row, `readable(k)` whether the k-th read of the result succeeds: the
     one after the last row reports how the iteration ended.
     */
    method PlaybackFramesChunk(since: int, limit: nat, queryOk: bool, accept: nat -> bool, readable: nat -> bool)
      returns (n: nat, delivered: seq<Event>, failed: bool)
      requires Valid()
      ensures var chunk := Take(Above(Events(rows), {}, since), limit);
              && n == |delivered| <= |chunk| && delivered == chunk[..n]
              && (failed <==> !(queryOk && n == |chunk| && readable(n)))
              && (failed ==> !queryOk || !readable(n) || (n < |chunk| && !accept(n)))
      ensures !queryOk ==> n == 0
      ensures forall k :: 0 <= k < n ==> readable(k) && accept(k)
    {
      n, delivered, failed := 0, [], true;
      if !queryOk {
        return;
      }
      var chunk := Take(Above(Events(rows), {}, since), limit);
      while n < |chunk|
        invariant 0 <= n <= |chunk| && delivered == chunk[..n] && failed
        invariant forall k :: 0 <= k < n ==> readable(k) && accept(k)
      {
        if !readable(n) || !accept(n) {
          return;
        }
        delivered, n := delivered + [chunk[n]], n + 1;
      }
      failed := !readable(n);
    }

    /** Other parties use the database between two queries: whatever they leave is a table again. */
    method Yield(meanwhile: Db -> Db)
      requires Valid() && Keeps(meanwhile)
      modifies this`rows, this`lastId
      ensures Valid() && Table() == meanwhile(old(Table()))
    {
      var after := meanwhile(Db(rows, lastId));
      rows, lastId := after.rows, after.lastId;
    }

    /** Two queries, each with its own snapshot. */
    method CursorStatus(cursor: int, meanwhile: Db -> Db) returns (state: CursorState)
      requires Valid() && Keeps(meanwhile)
      modifies this`rows, this`lastId
      ensures Valid() && Table() == meanwhile(old(Table()))
      ensures state == Status(Head(old(rows)), Floor(rows), cursor)
    {
      var head := Head(rows);
      Yield(meanwhile);
      var floor := Floor(rows);
      if cursor > head {
        return CursorFuture;
      }
      if floor > 0 && cursor < floor - 1 {
        return CursorOutdated;
      }
      state := CursorOK;
    }

    /** One DELETE ... LIMIT: as many old rows as the batch allows, in no particular order. */
    method DeleteSome(cutoff: int) returns (affected: nat)
      requires Valid()
      modifies this`rows
      ensures Valid()
      ensures |Old(rows, cutoff)| == |Old(old(rows), cutoff)| - affected
      ensures Fresh(rows, cutoff) == Fresh(old(rows), cutoff)
      ensures affected <= pruneBatchSize && (affected < pruneBatchSize ==> Old(rows, cutoff) == {})
      ensures OneBatch(old(rows), cutoff, pruneBatchSize, rows)
    {
      var old_ := Old(rows, cutoff);
      var size := if |old_| < pruneBatchSize then |old_| else pruneBatchSize;
      SubsetOfSize(old_, size);
      var dead :| dead <= old_ && |dead| == size;
      DeleteOld(rows, dead, cutoff);
      DeleteContents(rows, dead);
      ghost var before := rows;
      rows := Delete(rows, dead);
      affected := size;
      if rows != [] {
        assert rows[|rows| - 1] in before;
        SubsetBelow(rows, before);
      }
    }

    /** Whatever ingests get in between two batches: their rows are not old. */
    method Arrive(arrivals: seq<Row>, cutoff: int)
      requires Valid() && NewRows(lastId, arrivals, cutoff)
      modifies this`rows, this`lastId
      ensures Valid() && rows == old(rows) + arrivals
      ensures Old(rows, cutoff) == Old(old(rows), cutoff)
      ensures Fresh(rows, cutoff) == Fresh(old(rows), cutoff) + arrivals
    {
      ArrivalsAreFresh(rows, arrivals, cutoff);
      AppendAscending(rows, arrivals, lastId);
      rows := rows + arrivals;
      if arrivals != [] {
        lastId := arrivals[|arrivals| - 1].event.relaySeq;
      }
    }

    /**
     Delete everything older than the cutoff in batches, with ingests between them. `interrupt(k)` says
     whether the context is cancelled or the database fails before batch k; `ingests(k, id)` are the rows
     committed after batch k when the newest id is `id`; `floorOk` whether the last query succeeds.
     */
    method Prune(cutoff: int, interrupt: nat -> bool, ingests: (nat, nat) -> seq<Row>, floorOk: bool)
      returns (deleted: nat, newFloor: int, failed: bool, ghost arrived: seq<Row>)
      requires Valid() && forall k, id :: NewRows(id, ingests(k, id), cutoff)
      modifies this`rows, this`lastId
      ensures Valid()
      ensures deleted == |Old(old(rows), cutoff)| - |Old(rows, cutoff)|
      ensures Fresh(rows, cutoff) == Fresh(old(rows), cutoff) + arrived
      ensures !failed || (forall k :: !interrupt(k)) ==>
                rows == Fresh(old(rows), cutoff) + arrived && deleted == |Old(old(rows), cutoff)|
      ensures (failed ==> newFloor == 0) && (!failed ==> floorOk && newFloor == Floor(rows))
      ensures floorOk && (forall k :: !interrupt(k)) ==> !failed
    {
      hide Fresh, Old, NewRows;
      deleted, newFloor, failed, arrived := 0, 0, false, [];
      var batch := 0;
      while true
        invariant Valid()
        invariant deleted == |Old(old(rows), cutoff)| - |Old(rows, cutoff)|
        invariant Fresh(rows, cutoff) == Fresh(old(rows), cutoff) + arrived
        decreases |Old(rows, cutoff)|
      {
        if interrupt(batch) {
          failed := true;
          return;
        }
        var affected := DeleteSome(cutoff);
        deleted := deleted + affected;
        if affected < pruneBatchSize {
          break;
        }
        var more := ingests(batch, lastId);
        Arrive(more, cutoff);
        arrived := arrived + more;
        batch := batch + 1;
      }
      AllFresh(rows, cutoff);
      if !floorOk {
        failed := true;
        return;
      }
      newFloor := Floor(rows);
    }
  }

  ghost predicate IsTable(db: Db) {
    Ascending(Events(db.rows)) && Last(Events(db.rows), 0) <= db.lastId
  }

  /** What others do to the database turns tables into tables. */
  ghost predicate Keeps(meanwhile: Db -> Db) {
    forall db :: IsTable(db) ==> IsTable(meanwhile(db))
  }

  /** Rows minted after `lastId`, in order, none older than the cutoff. */
  ghost predicate NewRows(lastId: nat, arrivals: seq<Row>, cutoff: int) {
    && Ascending(Events(arrivals))
    && forall r :: r in arrivals ==> lastId < r.event.relaySeq && r.ingestTs >= cutoff
  }

  lemma {:induction false} ArrivalsAreFresh(rows: seq<Row>, arrivals: seq<Row>, cutoff: int)
    requires forall r :: r in arrivals ==> r.ingestTs >= cutoff
    ensures Fresh(rows + arrivals, cutoff) == Fresh(rows, cutoff) + arrivals
    ensures Old(rows + arrivals, cutoff) == Old(rows, cutoff)
    decreases |arrivals|
  {
    if arrivals == [] {
      assert rows + arrivals == rows;
    } else {
      var n := |arrivals| - 1;
      ArrivalsAreFresh(rows, arrivals[..n], cutoff);
      assert (rows + arrivals)[..|rows + arrivals| - 1] == rows + arrivals[..n];
      assert arrivals[n] in arrivals;
      assert forall r :: r in rows + arrivals <==> r in rows || r in arrivals;
    }
  }

  lemma AppendAscending(rows: seq<Row>, arrivals: seq<Row>, lastId: nat)
    requires Ascending(Events(rows)) && Ascending(Events(arrivals)) && Last(Events(rows), 0) <= lastId
    requires forall r :: r in arrivals ==> lastId < r.event.relaySeq
    ensures Ascending(Events(rows + arrivals))
  {
    var all := Events(rows + arrivals);
    assert all == Events(rows) + Events(arrivals);
    forall i, j | 0 <= i < j < |all| ensures all[i].relaySeq < all[j].relaySeq {
      assert i < |rows| ==> Events(rows)[i].relaySeq <= Last(Events(rows), 0);
      assert j >= |rows| ==> arrivals[j - |rows|] in arrivals;
      assert i >= |rows| ==> Events(arrivals)[i - |rows|].relaySeq < Events(arrivals)[j - |rows|].relaySeq;
    }
  }
}
