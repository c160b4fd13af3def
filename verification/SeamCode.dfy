/**
 The streaming goroutine as the program it is (seam.go:46-211), under any schedule of the parties around it:
 every execution is a run of the protocol of module Seam, so what holds of all its runs holds of the program.
 */
module SeamCode {
  import opened Prelude
  import opened Channels
  import opened Seam
  import opened SeamSafety
  import opened SeamTheorems
  import opened SeamProgress

  /** How a part of the goroutine ended. `Suspended`: the schedule is used up in the middle of it. */
  datatype Outcome = Again | GoOn | Return | Suspended

  /** What the other parties do at one scheduling point, and how the database and a select with two ready cases answer. */
  datatype Turn = Turn(others: seq<Step>, dbOk: bool, prefersSend: bool)

  /** Every database call succeeds. */
  ghost predicate Faultless(schedule: seq<Turn>) {
    forall i :: 0 <= i < |schedule| ==> schedule[i].dbOk
  }

  /** Nobody outside cancels or unsubscribes. */
  ghost predicate Unforced(schedule: seq<Turn>) {
    forall i, step :: 0 <= i < |schedule| && step in schedule[i].others ==> !step.Cancel? && !step.Unsubscribe?
  }

  /** From turn `from` on nothing is committed, broadcast or pruned; consumer and drainer get to run every turn. */
  ghost predicate Restful(schedule: seq<Turn>, from: nat) {
    forall i :: from <= i < |schedule| ==> RestfulTurn(schedule[i].others)
  }

  ghost predicate RestfulTurn(others: seq<Step>) {
    && Receive in others && DrainSawStop in others
    && forall step :: step in others ==> step.Receive? || Drainer(step)
  }

  ghost predicate NoFaultIn(trace: seq<Step>) {
    forall i :: 0 <= i < |trace| ==> !Fault(trace[i])
  }

  /** The goroutine can take no step until another party does. */
  predicate Stalled(s: State) {
    || ((s.pc.LiveSend? || (s.pc.Sending? && s.pc.chunk != [])) && |s.out| >= s.bufSize)
    || (s.pc.AwaitDrain? && !s.drainDone)
    || (s.pc.LiveSelect? && s.live.buf == [] && !s.live.closed)
  }

  /** Log, broadcasts and subscription are as they were. */
  ghost predicate SameRelay(was: State, s: State) {
    s.log == was.log && s.broadcast == was.broadcast && s.live.closed == was.live.closed && s.bufSize == was.bufSize
  }

  lemma DataStepFrame(s: State, step: Step)
    requires Enabled(s, step) && (step.QueryStarts? || step.SendRow? || step.LiveTake? || step.LivePut?)
    ensures var t := Apply(s, step);
            t.log == s.log && t.broadcast == s.broadcast && t.bufSize == s.bufSize
  {
    hide Chunk;
  }

  /** The goroutine's own steps leave the relay alone; as long as nothing hinders the stream each is progress. */
  lemma OwnStepFrame(s: State, step: Step)
    requires Enabled(s, step) && Worker(step) && !Drainer(step)
    ensures var t := Apply(s, step);
            t.log == s.log && t.broadcast == s.broadcast && t.bufSize == s.bufSize
  {
    hide Apply, Enabled;
    if Control(step) {
      ControlFrame(s, step);
    } else if Leaving(step) {
      LeavingFrame(s, step);
    } else {
      DataStepFrame(s, step);
    }
  }

  lemma OwnStepPays(s: State, step: Step)
    requires Inv(s) && Alive(s) && Enabled(s, step) && Worker(step) && !Drainer(step) && !Fault(step)
    ensures QuietWork(Apply(s, step)) < QuietWork(s) && !Quiescent(s)
  {
    QuietStep(s, step);
    hide Inv, Apply, QuietWork;
  }

  lemma OtherStepFrame(s: State, step: Step)
    requires Enabled(s, step) && (Relay(step) || Drainer(step))
    ensures var t := Apply(s, step);
            t.pc == s.pc && t.cursor == s.cursor && t.bufSize == s.bufSize && (s.cancelled ==> t.cancelled)
    ensures !Fault(step)
  {
    hide Head, Wrap64, Chunk, AfterChunk, Leave, Last, Committed;
  }

  /** Consumer and drainer leave the log and the subscription alone. */
  lemma RestFrame(s: State, step: Step)
    requires Enabled(s, step) && (step.Receive? || Drainer(step))
    ensures var t := Apply(s, step);
            && t.pc == s.pc && t.log == s.log && t.broadcast == s.broadcast && t.live.closed == s.live.closed
            && t.bufSize == s.bufSize && |t.out| <= |s.out| && (s.drainDone ==> t.drainDone)
            && (step.Receive? ==> |t.out| < |s.out|) && (step.DrainSawStop? ==> t.drainDone)
  {
    hide Head, Wrap64, Chunk, AfterChunk, Leave, Last, Committed;
  }

  /** What the steps `done` of consumer and drainer have made of an alive stream. */
  ghost predicate RestedBy(was: State, s: State, done: seq<Step>) {
    && Alive(s) && s.pc == was.pc && s.log == was.log && s.bufSize == was.bufSize
    && QuietWork(s) <= QuietWork(was)
    && (Receive in done ==> |s.out| < s.bufSize && (s.out != [] ==> QuietWork(s) < QuietWork(was)))
    && (DrainSawStop in done && s.pc.AwaitDrain? ==> s.drainDone)
    && (Quiescent(was) ==> s == was)
  }

  function After(s: State, step: Step): State {
    if Enabled(s, step) then Apply(s, step) else s
  }

  lemma IdleStep(was: State, s: State, done: seq<Step>, step: Step)
    requires RestedBy(was, s, done) && !Enabled(s, step) && (step.Receive? || Drainer(step))
    requires s.bufSize > 0 && DrainInv(s.pc, s.stopCloses, s.drainDone, s.outClosed)
    ensures RestedBy(was, s, done + [step])
  {
    hide QuietWork, Quiescent, Alive;
  }

  lemma BusyStep(was: State, s: State, done: seq<Step>, step: Step)
    requires Inv(s) && RestedBy(was, s, done) && Enabled(s, step) && (step.Receive? || Drainer(step))
    ensures RestedBy(was, Apply(s, step), done + [step])
  {
    QuietStep(s, step);
    RestFrame(s, step);
    QuietIsIdle(s, step);
    hide Inv, Apply, QuietWork, Alive, Enabled;
  }

  lemma QuietIsIdle(s: State, step: Step)
    requires Inv(s) && Enabled(s, step) && (step.Receive? || Drainer(step))
    ensures !Quiescent(s) && |s.out| <= s.bufSize
  {
    hide StreamInv, PcInv;
  }

  lemma RestedByNone(s: State)
    requires Alive(s)
    ensures RestedBy(s, s, [])
  {
  }

  lemma RestedMore(was: State, s: State, done: seq<Step>, step: Step)
    requires Inv(s) && RestedBy(was, s, done) && (step.Receive? || Drainer(step))
    ensures RestedBy(was, After(s, step), done + [step])
  {
    hide RestedBy, Apply, Enabled, StreamInv, PcInv;
    if Enabled(s, step) {
      BusyStep(was, s, done, step);
    } else {
      IdleStep(was, s, done, step);
    }
  }

  /** One more step of a restful turn. */
  lemma RestedTurn(was: State, s: State, others: seq<Step>, i: nat)
    requires Inv(s) && RestfulTurn(others) && i < |others| && SameRelay(was, s)
    requires Alive(was) ==> RestedBy(was, s, others[..i])
    ensures SameRelay(was, After(s, others[i]))
    ensures Alive(was) ==> RestedBy(was, After(s, others[i]), others[..i] + [others[i]])
  {
    hide RestedBy, Apply, Enabled, Alive, Inv;
    if Enabled(s, others[i]) {
      RestFrame(s, others[i]);
    }
    if Alive(was) {
      RestedMore(was, s, others[..i], others[i]);
    }
  }

  class Streamer {
    const schedule: seq<Turn>
    ghost const quietFrom: nat
    ghost const start: State
    ghost var trace: seq<Step>
    ghost var budget: nat               // the quiet work left when turn quietFrom began
    var s: State
    var clock: nat

    /** The schedule has become restful and nothing has hindered the stream. */
    ghost predicate AtRest()
      reads this
    {
      && Faultless(schedule) && Unforced(schedule) && Restful(schedule, quietFrom) && quietFrom < clock
      && !s.live.closed && s.broadcast == |s.log|
    }

    /** Since then every turn but `behind` of them has brought the stream closer to having delivered everything. */
    ghost predicate Pays(behind: nat)
      reads this
    {
      AtRest() ==>
        && budget <= WorkBound(s.log, s.bufSize)
        && (Quiescent(s) || QuietWork(s) + (clock - quietFrom) <= budget + behind)
    }

    ghost predicate Follows()
      reads this
    {
      && Init(start) && Runnable(start, trace) && s == Run(start, trace)
      && (Faultless(schedule) ==> NoFaultIn(trace))
      && (Faultless(schedule) && Unforced(schedule) && !s.live.closed ==> Unhindered(s))
    }

    ghost predicate Valid()
      reads this
    {
      clock <= |schedule| && Follows() && Pays(1)
    }

    /** The goroutine has used its turn: it may wait for the next. */
    ghost predicate Ready()
      reads this
    {
      Valid() && Pays(0)
    }

    constructor (start: State, schedule: seq<Turn>, ghost quietFrom: nat)
      requires Init(start)
      ensures Ready() && this.start == start && s == start && trace == []
      ensures this.schedule == schedule && this.quietFrom == quietFrom
    {
      this.schedule, this.quietFrom, this.start, trace, s, clock := schedule, quietFrom, start, [], start, 0;
      budget := 0;
    }

    /** One step of the protocol, by whichever party. */
    method Take(step: Step)
      requires Follows() && Enabled(s, step) && (Faultless(schedule) ==> !Fault(step))
      requires Unforced(schedule) ==> !step.Cancel? && !step.Unsubscribe?
      modifies this`s, this`trace
      ensures Follows() && s == Apply(old(s), step)
    {
      hide Fault, Unhindered;
      assert Runnable(s, [step]) && Run(s, [step]) == Apply(s, step) by {
        assert [step][1..] == [];
      }
      RunConcat(start, trace, [step]);
      if s.live.closed {
        ClosedStays(s, step);
      }
      if Faultless(schedule) && Unforced(schedule) && !s.live.closed {
        UnhinderedStep(s, step);
      }
      trace := trace + [step];
      s := Apply(s, step);
    }

    lemma Reached()
      requires Follows()
      ensures Inv(s)
    {
      InitInv(start);
      ReachableInv(start, trace);
    }

    /** A step of the goroutine itself, which pays for its turn. */
    method Do(step: Step)
      requires Valid() && Enabled(s, step) && Worker(step) && !Drainer(step) && (Faultless(schedule) ==> !Fault(step))
      modifies this`s, this`trace
      ensures Ready() && s == Apply(old(s), step)
    {
      ghost var was := s;
      Reached();
      OwnStepFrame(s, step);
      if s.live.closed {
        ClosedStays(s, step);
      }
      if Faultless(schedule) && Alive(s) {
        OwnStepPays(s, step);
      }
      hide Inv, Apply, Enabled, Quiescent, QuietWork, Worker, Drainer, Faultless, Unforced, Restful, WorkBound, Unhindered,
           Init, Run, Runnable, NoFaultIn, Fault;
      Take(step);
      assert AtRest() ==> Alive(was);
    }

    /** The goroutine's own part of the state is unchanged; a cancelled context stays cancelled. */
    twostate predicate OnlyOthersMoved()
      reads this
    {
      && s.pc == old(s.pc) && s.cursor == old(s.cursor) && s.bufSize == old(s.bufSize)
      && (old(s.cancelled) ==> s.cancelled)
    }

    /** One step of another party, if it can take it. */
    method TakeOther(step: Step)
      requires Follows() && (Relay(step) || Drainer(step)) && (Unforced(schedule) ==> !step.Cancel? && !step.Unsubscribe?)
      modifies this`s, this`trace
      ensures Follows() && OnlyOthersMoved() && s == After(old(s), step)
    {
      hide Apply, Enabled, Follows, Fault, Unforced;
      if Enabled(s, step) {
        OtherStepFrame(s, step);
        Take(step);
      }
    }

    /** A restful turn is paid for, unless the goroutine still has to take a step of its own. */
    lemma RestIsPaid(was: State)
      requires Follows() && 0 < clock <= |schedule| && RestfulTurn(schedule[clock - 1].others)
      requires SameRelay(was, s) && (Alive(was) ==> RestedBy(was, s, schedule[clock - 1].others))
      requires AtRest() ==> Alive(was) && budget <= WorkBound(was.log, was.bufSize)
                            && (Quiescent(was) || QuietWork(was) + (clock - 1 - quietFrom) <= budget)
      ensures Pays(1) && (Stalled(s) ==> Pays(0))
    {
    }

    method TakeAll(others: seq<Step>)
      requires Follows()
      requires Unforced(schedule) ==> forall step :: step in others ==> !step.Cancel? && !step.Unsubscribe?
      modifies this`s, this`trace
      ensures Follows() && OnlyOthersMoved()
      ensures RestfulTurn(others) ==> SameRelay(old(s), s)
      ensures RestfulTurn(others) && Alive(old(s)) ==> RestedBy(old(s), s, others)
    {
      if Alive(s) {
        RestedByNone(s);
      }
      for i := 0 to |others|
        invariant Follows() && OnlyOthersMoved()
        invariant RestfulTurn(others) ==> SameRelay(old(s), s)
        invariant RestfulTurn(others) && Alive(old(s)) ==> RestedBy(old(s), s, others[..i])
      {
        hide Follows, RestedBy, Apply, Enabled, Alive, Inv, After, SameRelay;
        Reached();
        if RestfulTurn(others) {
          RestedTurn(old(s), s, others, i);
        }
        if Relay(others[i]) || Drainer(others[i]) {
          TakeOther(others[i]);
        }
        assert others[..i + 1] == others[..i] + [others[i]];
      }
      assert others[..|others|] == others;
    }

    /** One turn of the other parties. */
    method RunOthers()
      requires Ready() && clock < |schedule|
      requires clock == quietFrom ==> budget == QuietWork(s) <= WorkBound(s.log, s.bufSize)
      modifies this`s, this`trace, this`clock
      ensures Valid() && OnlyOthersMoved() && clock == old(clock) + 1
      ensures Stalled(s) ==> Ready()
    {
      hide Apply, Enabled, Init, Run, Runnable, NoFaultIn;
      ghost var was := s;
      assert Faultless(schedule) && Unforced(schedule) && Restful(schedule, quietFrom) && quietFrom <= clock
             && !was.live.closed && was.broadcast == |was.log| ==>
          && Alive(was) && budget <= WorkBound(was.log, was.bufSize)
          && (Quiescent(was) || QuietWork(was) + (clock - quietFrom) <= budget);
      hide Follows, Alive, Quiescent, QuietWork, WorkBound, RestedBy, Stalled, Faultless, Unforced, RestfulTurn;
      assert Restful(schedule, quietFrom) && quietFrom <= clock ==> RestfulTurn(schedule[clock].others);
      TakeAll(schedule[clock].others);
      clock := clock + 1;
      if RestfulTurn(schedule[clock - 1].others) {
        RestIsPaid(was);
      } else {
        assert !AtRest();
      }
    }

    /** A scheduling point: the other parties take the steps they are able to take. */
    method Yield() returns (more: bool)
      requires Ready()
      modifies this
      ensures Valid() && OnlyOthersMoved()
      ensures if more then old(clock) < clock else clock == |schedule| && Ready()
      ensures more && Stalled(s) ==> Ready()
    {
      more := clock < |schedule|;
      if more {
        if clock == quietFrom {
          Reached();
          QuietWorkIsBounded(s);
          budget := QuietWork(s);
        }
        RunOthers();
      }
    }

    function Now(): Turn
      requires 0 < clock <= |schedule|
      reads this
    {
      schedule[clock - 1]
    }

    /** The callback of a playback: send on `out` unless the context is cancelled. `Again`: neither is possible yet. */
    method OfferRow(phase: Phase, ghost rows: seq<Event>, n: nat) returns (o: Outcome)
      requires Ready() && n < |rows| && s.pc == Sending(phase, rows[n..], n)
      modifies this
      ensures Ready() && (if o.Suspended? then clock == |schedule| else old(clock) < clock)
      ensures o.Again? ==> s.pc == Sending(phase, rows[n..], n) && s.cursor == old(s.cursor)
      ensures o.GoOn? ==> s.pc == Sending(phase, rows[n + 1..], n + 1) && s.cursor == rows[n].relaySeq
      ensures o.Return? ==> s.pc == ChunkEnd(phase, n, true) && s.cursor == old(s.cursor)
    {
      hide Follows, Pays, Chunk, Last, Committed;
      var more := Yield();
      if !more {
        return Suspended;
      }
      if !Now().dbOk {
        Do(RowsFail);
        return Return;
      }
      var ready := |s.out| < s.bufSize;
      if ready && (!s.cancelled || Now().prefersSend) {
        Do(SendRow);
        return GoOn;
      }
      if s.cancelled {
        Do(SendAborts);
        return Return;
      }
      o := Again;
    }

    /** Start a bounded query; `rows` is its snapshot. */
    method StartQuery(phase: Phase) returns (o: Outcome, rows: seq<Event>)
      requires Ready() && s.pc == Query(phase)
      modifies this
      ensures Ready() && !o.Again? && (if o.Suspended? then clock == |schedule| else old(clock) < clock)
      ensures !o.Suspended? ==> s.cursor == old(s.cursor)
      ensures o.GoOn? ==> s.pc == Sending(phase, rows, 0)
      ensures o.Return? ==> s.pc == ChunkEnd(phase, 0, true)
    {
      hide Follows, Pays, Chunk, Last, Committed, Stalled;
      rows := [];
      var more := Yield();
      if !more {
        return Suspended, rows;
      }
      if !Now().dbOk {
        Do(QueryStarts(false));
        return Return, rows;
      }
      rows := Chunk(s);
      Do(QueryStarts(true));
      o := GoOn;
    }

    /** The end of the result, or the error that ended it. */
    method EndQuery(phase: Phase, n: nat) returns (suspended: bool, failed: bool)
      requires Ready() && s.pc == Sending(phase, [], n)
      modifies this
      ensures Ready() && (if suspended then clock == |schedule| else old(clock) < clock)
      ensures !suspended ==> s.pc == ChunkEnd(phase, n, failed) && s.cursor == old(s.cursor)
    {
      hide Follows, Pays, Chunk, Last, Committed, Stalled;
      failed := true;
      var more := Yield();
      if !more {
        return true, failed;
      }
      suspended, failed := false, !Now().dbOk;
      Do(if failed then RowsFail else RowsEnd);
    }

    /** One bounded playback. */
    method PlaybackFramesChunk(phase: Phase, since: int) returns (suspended: bool, cursor: int, n: nat, failed: bool)
      requires Ready() && s.pc == Query(phase) && s.cursor == since
      modifies this
      ensures Ready() && old(clock) <= clock && (suspended ==> clock == |schedule|)
      ensures !suspended ==> old(clock) < clock && s.pc == ChunkEnd(phase, n, failed) && s.cursor == cursor
    {
      hide Follows, Pays, Apply, Enabled, Stalled;
      cursor, n, failed := since, 0, true;
      var o, rows := StartQuery(phase);
      if !o.GoOn? {
        return o.Suspended?, cursor, n, failed;
      }
      assert rows[0..] == rows;
      while n < |rows|
        invariant Ready() && n <= |rows| && old(clock) < clock
        invariant s.pc == Sending(phase, rows[n..], n) && s.cursor == cursor
        decreases |schedule| - clock
      {
        var e := rows[n];
        o := OfferRow(phase, rows, n);
        if o.Suspended? || o.Return? {
          return o.Suspended?, cursor, n, failed;
        }
        if o.GoOn? {
          cursor, n := e.relaySeq, n + 1;
        }
      }
      suspended, failed := EndQuery(phase, n);
    }

    /** A playback and what the loop around it makes of the result. */
    method OneChunk(phase: Phase, since: int) returns (o: Outcome, cursor: int)
      requires Ready() && s.pc == Query(phase) && s.cursor == since
      modifies this
      ensures Ready() && old(clock) <= clock && (o.Suspended? ==> clock == |schedule|)
      ensures !o.Suspended? ==> old(clock) < clock && s.cursor == cursor
      ensures o.Again? ==> s.pc == Top(phase)
      ensures o.GoOn? ==> s.pc == AfterChunk(phase, 0, false, false)
      ensures o.Return? ==> s.pc == Leave(phase)
    {
      hide Follows, Pays, Chunk, Last, Committed, Stalled, Above;
      var suspended, n, failed;
      suspended, cursor, n, failed := PlaybackFramesChunk(phase, since);
      if suspended {
        return Suspended, cursor;
      }
      var more := Yield();
      if !more {
        return Suspended, cursor;
      }
      var cancelled := s.cancelled;
      Do(ChunkReturns);
      if failed && !cancelled {
        return Return, cursor;
      }
      o := if n == 0 then GoOn else Again;
    }

    /** The context check that opens each loop. */
    method CheckTop(phase: Phase) returns (o: Outcome)
      requires Ready() && s.pc == Top(phase)
      modifies this
      ensures Ready() && !o.GoOn? && (if o.Suspended? then clock == |schedule| else old(clock) < clock)
      ensures !o.Suspended? ==> s.cursor == old(s.cursor)
      ensures o.Again? ==> s.pc == if phase.Bulk? then ReadHead else Query(phase)
      ensures o.Return? ==> s.pc == Leave(phase)
    {
      hide Follows, Pays, Leave, Stalled;
      var more := Yield();
      if !more {
        return Suspended;
      }
      var cancelled := s.cancelled;
      Do(CheckContext);
      o := if cancelled then Return else Again;
    }

    method QueryHead() returns (suspended: bool, head: int64, failed: bool)
      requires Ready() && s.pc == ReadHead
      modifies this
      ensures Ready() && (if suspended then clock == |schedule| else old(clock) < clock)
      ensures !suspended ==> s.pc == Decide(head, failed) && s.cursor == old(s.cursor)
    {
      hide Follows, Pays, Stalled, Seam.Head, Wrap64;
      head, failed := 0, true;
      var more := Yield();
      if !more {
        return true, head, failed;
      }
      suspended, failed := false, !Now().dbOk;
      if !failed {
        head := Wrap64(Seam.Head(s.log, s.gone));
      }
      Do(HeadReturns(!failed));
    }

    /** The head of Phase 1's loop: leave, go on to Phase 2, or read another chunk. */
    method MeasureGap(cursor: int) returns (o: Outcome)
      requires Ready() && s.pc == Top(Bulk) && s.cursor == cursor
      modifies this
      ensures Ready() && old(clock) <= clock && (o.Suspended? ==> clock == |schedule|)
      ensures !o.Suspended? ==> old(clock) < clock && s.cursor == cursor
      ensures o.Again? ==> s.pc == Query(Bulk)
      ensures o.GoOn? ==> s.pc == Top(Final)
      ensures o.Return? ==> s.pc == CloseStop(true)
    {
      hide Follows, Pays, Stalled, Chunk, Wrap64, Seam.Head, AfterChunk, Last, Committed;
      o := CheckTop(Bulk);
      if !o.Again? {
        return;
      }
      var suspended, head, failed := QueryHead();
      if suspended {
        return Suspended;
      }
      var more := Yield();
      if !more {
        return Suspended;
      }
      var cancelled := s.cancelled;
      Do(DecidePhase);
      if failed || cancelled {
        return Return;
      }
      var gap := Wrap64(head - cursor);
      o := if gap <= s.bufSize then GoOn else Again;
    }

    /** Phase 1: chunked backfill until within bufSize of the head. */
    method BulkBackfill(since: int) returns (o: Outcome, cursor: int)
      requires Ready() && s.pc == Top(Bulk) && s.cursor == since
      modifies this
      ensures Ready() && !o.Again? && (o.Suspended? ==> clock == |schedule|)
      ensures o.GoOn? ==> s.pc == Top(Final) && s.cursor == cursor
      ensures o.Return? ==> s.pc == CloseStop(true)
    {
      hide Follows, Pays, Chunk, Apply;
      cursor := since;
      while true
        invariant Ready() && s.pc == Top(Bulk) && s.cursor == cursor
        decreases |schedule| - clock
      {
        o := MeasureGap(cursor);
        if !o.Again? {
          return;
        }
        o, cursor := OneChunk(Bulk, cursor);
        if !o.Again? {
          return;
        }
      }
    }

    /** Phases 2 and 3: bounded chunks until one delivers nothing. */
    method DrainTable(phase: Phase, since: int) returns (o: Outcome, cursor: int)
      requires Ready() && !phase.Bulk? && s.pc == Top(phase) && s.cursor == since
      modifies this
      ensures Ready() && !o.Again? && (o.Suspended? ==> clock == |schedule|)
      ensures o.GoOn? ==> s.pc == (if phase.Final? then CloseStop(false) else LiveSelect) && s.cursor == cursor
      ensures o.Return? ==> s.pc == Leave(phase)
    {
      hide Follows, Pays, Chunk, Last, Committed, Stalled, Above;
      cursor := since;
      while true
        invariant Ready() && s.pc == Top(phase) && s.cursor == cursor
        decreases |schedule| - clock
      {
        o := CheckTop(phase);
        if !o.Again? {
          return;
        }
        o, cursor := OneChunk(phase, cursor);
        if !o.Again? {
          return;
        }
      }
    }

    /** close(stopDrain); <-drainDone */
    method JoinDrainer(exiting: bool) returns (suspended: bool)
      requires Ready() && s.pc == CloseStop(exiting)
      modifies this
      ensures Ready() && (suspended ==> clock == |schedule|)
      ensures !suspended ==> s.pc == (if exiting then ExitCancel else HandoffCheck) && s.cursor == old(s.cursor)
    {
      hide Follows, Pays;
      Do(StopDrainer);
      while true
        invariant Ready() && s.pc == AwaitDrain(exiting) && s.cursor == old(s.cursor)
        decreases |schedule| - clock
      {
        var more := Yield();
        if !more {
          return true;
        }
        if s.drainDone {
          Do(DrainerStopped);
          return false;
        }
      }
    }

    /** The inner select of Phase 4. */
    method PutLive(e: Event) returns (o: Outcome)
      requires Ready() && s.pc == LiveSend(e)
      modifies this
      ensures Ready() && old(clock) <= clock && (o.Suspended? ==> clock == |schedule|)
      ensures o.Suspended? || o.Return? || o.GoOn?
      ensures o.GoOn? ==> s.pc == LiveSelect && s.cursor == old(s.cursor)
      ensures o.Return? ==> s.pc == ExitCancel
    {
      hide Follows, Pays;
      while true
        invariant Ready() && s.pc == LiveSend(e) && s.cursor == old(s.cursor) && old(clock) <= clock
        decreases |schedule| - clock
      {
        var more := Yield();
        if !more {
          return Suspended;
        }
        var ready := |s.out| < s.bufSize;
        if ready && (!s.cancelled || Now().prefersSend) {
          Do(LivePut);
          return GoOn;
        }
        if s.cancelled {
          Do(LiveAborts);
          return Return;
        }
      }
    }

    /** Phase 4: live events above the last backfilled one. */
    method Live(lastBackfill: int) returns (suspended: bool)
      requires Ready() && s.pc == LiveSelect && s.cursor == lastBackfill
      modifies this
      ensures Ready() && (if suspended then clock == |schedule| else s.pc == ExitCancel)
    {
      hide Follows, Pays;
      while true
        invariant Ready() && s.pc == LiveSelect && s.cursor == lastBackfill
        decreases |schedule| - clock
      {
        var more := Yield();
        if !more {
          return true;
        }
        var ready := s.live.buf != [] || s.live.closed;
        if ready && (!s.cancelled || Now().prefersSend) {
          if s.live.buf == [] {
            Do(LiveSawClosed);
            return false;
          }
          var e := s.live.buf[0];
          Do(LiveTake);
          if e.relaySeq <= lastBackfill {
            continue;
          }
          var o := PutLive(e);
          if !o.GoOn? {
            return o.Suspended?;
          }
        } else if s.cancelled {
          Do(LiveSawCancel);
          return false;
        }
      }
    }

    /** One of the deferred calls. */
    method Defer(call: Step) returns (suspended: bool)
      requires Ready() && (call.DeferCancel? || call.DeferUnsubscribe? || call.DeferClose?) && Enabled(s, call)
      modifies this
      ensures Ready() && (suspended ==> clock == |schedule|)
      ensures !suspended ==>
                s.pc == if call.DeferCancel? then ExitUnsubscribe else if call.DeferUnsubscribe? then ExitClose else Finished
    {
      hide Follows, Pays, Stalled, Chunk, Head, Wrap64, AfterChunk, Leave, Last, Committed;
      var more := Yield();
      suspended := !more;
      if more {
        Do(call);
      }
    }

    /** The three deferred calls, the last registered first. */
    method Deferred() returns (suspended: bool)
      requires Ready() && s.pc == ExitCancel
      modifies this
      ensures Ready() && (if suspended then clock == |schedule| else s.pc == Finished)
    {
      hide Follows, Pays, Apply, Faultless, Chunk, Last, Committed;
      suspended := Defer(DeferCancel);
      if !suspended {
        suspended := Defer(DeferUnsubscribe);
      }
      if !suspended {
        suspended := Defer(DeferClose);
      }
    }

    /**
     The goroutine from its first line. It ends only by closing `out`, unless the schedule ends first; whatever
     the schedule, what it has put on `out` is ascending, committed and above since, and before a blind handoff
     it misses nothing that a query did not find deleted. When every database call succeeds it takes none for
     failed, and with no outside cancel and no drop it never leaves. When in addition the relay comes to rest, in
     a bounded number of turns it has delivered every committed event above since that no query found deleted.
     */
    method StreamFrom(since: int64) returns (suspended: bool)
      requires Ready() && s == start && trace == [] && s.since == since && clock == 0
      modifies this
      ensures Ready() && (if suspended then clock == |schedule| else s.pc == Finished && s.outClosed)
      ensures OutInv(s.log, since, s.History())
      ensures SentInv(s.log, since, s.History(), s.sent, s.blind, s.skipped)
      ensures Faultless(schedule) ==> NoFaultIn(trace)
      ensures Faultless(schedule) && Unforced(schedule) && !s.live.closed ==> suspended && Unhindered(s)
      ensures Faultless(schedule) && Unforced(schedule) && Restful(schedule, quietFrom) && !s.live.closed
              && s.broadcast == |s.log| && |schedule| > quietFrom + WorkBound(s.log, s.bufSize) ==>
                && Quiescent(s) && Runnable(start, trace)
                && forall e :: e in s.log && since < e.relaySeq ==> e in s.received || FoundDeleted(start, trace, e.relaySeq)
    {
      suspended := Goroutine(since);
      InitInv(start);
      ReachableInv(start, trace);
      RunKeepsSince(start, trace);
      if Quiescent(s) {
        QuiescentDeliveredAll(start, trace);
      }
    }

    method Goroutine(since: int64) returns (suspended: bool)
      requires Ready() && s == start && s.since == since
      modifies this
      ensures Ready() && (if suspended then clock == |schedule| else s.pc == Finished)
    {
      var o, cursor := BulkBackfill(since);
      if o.GoOn? {
        o, cursor := DrainTable(Final, cursor);
      }
      if o.Suspended? {
        return true;
      }
      suspended := JoinDrainer(o.Return?);
      if suspended {
        return;
      }
      if o.GoOn? {
        var more := Yield();
        if !more {
          return true;
        }
        var cancelled := s.cancelled;
        Do(CheckHandoff);
        if !cancelled {
          o, cursor := DrainTable(Straggler, cursor);
          if o.Suspended? {
            return true;
          }
          if o.GoOn? {
            suspended := Live(cursor);
            if suspended {
              return;
            }
          }
        }
      }
      suspended := Deferred();
    }
  }
}
