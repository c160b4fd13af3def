/** When a handoff on a failed straggler query (seam.go:180-186) leaves a gap, and when it cannot. */
module SeamGap {
  import opened Prelude
  import opened Channels
  import opened Seam
  import opened SeamSafety
  import opened SeamTheorems

  /** A committed event that no query found deleted is missing below the last delivered one. */
  ghost predicate Gap(t: State) {
    !Complete(t.History(), t.log, t.skipped, t.since, Last(t.History(), t.since))
  }

  /** A broadcast event above the last delivered one is gone from the live channel; no query found it deleted. */
  ghost predicate ThrewAway(t: State) {
    exists i :: 0 <= i < t.lo <= |t.log| && Last(t.History(), t.since) < t.log[i].relaySeq && t.log[i].relaySeq !in t.skipped
  }

  /** The live channel holds an event, or can still get one. */
  predicate CanDeliver(t: State) {
    t.live.buf != [] || (!t.live.closed && (t.broadcast < |t.log| || Last(t.log, 0) < TWO_63 - 1))
  }

  predicate PastBackfill(pc: Pc) {
    pc.LiveSelect? || pc.LiveSend? || pc.ExitCancel? || pc.ExitUnsubscribe? || pc.ExitClose? || pc.Finished?
  }

  /** The same state with its history rewritten as if the handoff had not been blind. */
  function Mended(s: State): State {
    s.(blind := false, sent := s.History())
  }

  // ----- nothing thrown away: no gap

  lemma MendedPut(s: State)
    requires Enabled(s, LivePut)
    ensures Enabled(Mended(s), LivePut) && Apply(Mended(s), LivePut) == Mended(Apply(s, LivePut))
  {
    assert Apply(s, LivePut).History() == s.History() + [s.pc.e];
  }

  lemma MendedReceive(s: State)
    requires Enabled(s, Receive)
    ensures Enabled(Mended(s), Receive) && Apply(Mended(s), Receive) == Mended(Apply(s, Receive))
  {
    assert Apply(s, Receive).History() == s.History();
  }

  lemma MendedOthers(s: State, step: Step)
    requires Enabled(s, step) && (Relay(step) || Drainer(step)) && !step.Receive?
    ensures Enabled(Mended(s), step) && Apply(s, step).pc == s.pc
    ensures Apply(Mended(s), step) == Mended(Apply(s, step))
  {
    hide Committed, Last, Chan.Offer;
    assert Apply(s, step).out == s.out && Apply(s, step).received == s.received;
  }

  lemma MendedStep(s: State, step: Step)
    requires PastBackfill(s.pc) && Enabled(s, step)
    ensures Enabled(Mended(s), step) && PastBackfill(Apply(s, step).pc)
    ensures Apply(Mended(s), step) == Mended(Apply(s, step))
  {
    if step.LivePut? {
      MendedPut(s);
    } else if step.Receive? {
      MendedReceive(s);
    } else if Relay(step) || Drainer(step) {
      MendedOthers(s, step);
    } else {
      hide Head, Wrap64, Chunk, AfterChunk, Leave, Committed, Last;
      assert Apply(s, step).out == s.out && Apply(s, step).received == s.received;
    }
  }

  lemma {:induction false} MendedRun(s: State, steps: seq<Step>)
    requires PastBackfill(s.pc) && Runnable(s, steps)
    ensures Runnable(Mended(s), steps) && Run(Mended(s), steps) == Mended(Run(s, steps))
    decreases |steps|
  {
    if steps != [] {
      hide Apply, Enabled, PastBackfill, Mended;
      MendedStep(s, steps[0]);
      MendedRun(Apply(s, steps[0]), steps[1..]);
    }
  }

  lemma {:induction false} NoHoleNoGap(t: State, more: seq<Step>)
    requires Inv(Mended(t)) && PastBackfill(t.pc) && Runnable(t, more)
    ensures !Gap(Run(t, more))
  {
    hide Inv, Complete;
    MendedRun(t, more);
    ReachableInv(Mended(t), more);
    NotBlindNoGap(Mended(Run(t, more)));
  }

  lemma NotBlindNoGap(t: State)
    requires Inv(t) && !t.blind
    ensures !Gap(t)
  {
  }

  // ----- nothing more to deliver: no gap

  /** Nothing will ever come out of the live channel. */
  predicate Starved(s: State) {
    && PastBackfill(s.pc) && !s.pc.LiveSend? && s.live.buf == [] && s.broadcast <= |s.log|
    && (s.live.closed || (s.broadcast == |s.log| && Last(s.log, 0) >= TWO_63 - 1))
  }

  lemma StarvedCommit(s: State, e: Event)
    requires Starved(s) && Enabled(s, Commit(e)) && StreamInv(s) && !Gap(s)
    ensures Starved(Apply(s, Commit(e))) && !Gap(Apply(s, Commit(e)))
  {
    assert Apply(s, Commit(e)).History() == s.History();
    CommitExtends(s.log, e);
    NewEventsAreAbove(s, e);
  }

  lemma StarvedFrame(s: State, step: Step)
    requires Starved(s) && Enabled(s, step) && !step.Commit?
    ensures var t := Apply(s, step);
            Starved(t) && t.History() == s.History() && t.log == s.log && t.since == s.since && t.skipped == s.skipped
  {
    hide Head, Wrap64, Chunk, AfterChunk, Leave, Committed;
    assert Apply(s, step).History() == s.History();
  }

  lemma StarvedStep(s: State, step: Step)
    requires Starved(s) && Enabled(s, step) && Inv(s) && !Gap(s)
    ensures Starved(Apply(s, step)) && !Gap(Apply(s, step))
  {
    hide Apply, Enabled, Starved, StreamInv, LocalInv;
    if step.Commit? {
      StarvedCommit(s, step.row);
    } else {
      StarvedFrame(s, step);
    }
  }

  lemma NewEventsAreAbove(s: State, e: Event)
    requires StreamInv(s) && Last(s.log, 0) < e.relaySeq
    ensures s.History() != [] ==> Last(s.History(), s.since) < e.relaySeq
  {
    if s.History() != [] {
      var last := s.History()[|s.History()| - 1];
      assert last in s.History();
      var k :| 0 <= k < |s.log| && s.log[k] == last;
    }
  }

  lemma {:induction false} StarvedRun(s: State, steps: seq<Step>)
    requires Starved(s) && Inv(s) && !Gap(s) && Runnable(s, steps)
    ensures !Gap(Run(s, steps))
    decreases |steps|
  {
    if steps != [] {
      hide Apply, Enabled, Starved, Gap, Inv;
      StarvedStep(s, steps[0]);
      StepKeepsInv(s, steps[0]);
      StarvedRun(Apply(s, steps[0]), steps[1..]);
    }
  }

  // ----- something thrown away and something to deliver: a gap

  /** Nothing about the delivery differs, and the log has at most grown. */
  ghost predicate SameDelivery(t: State, u: State) {
    && u.pc == t.pc && u.cursor == t.cursor && u.lo == t.lo && u.since == t.since && u.skipped == t.skipped
    && u.History() == t.History() && t.log <= u.log && u.bufSize == t.bufSize
  }

  /** Get an event into the live buffer. */
  lemma ReachEvent(t: State) returns (more: seq<Step>)
    requires Inv(t) && t.live.cap > 0 && CanDeliver(t)
    ensures Runnable(t, more) && SameDelivery(t, Run(t, more)) && Run(t, more).live.buf != [] && Run(t, more).out == t.out
  {
    more := [];
    if t.live.buf == [] && t.broadcast == |t.log| {
      more := Extend(t, more, Commit(Event(Last(t.log, 0) + 1, "", "", [])));
    }
    if t.live.buf == [] {
      more := Extend(t, more, Broadcast);
    }
  }

  lemma MakeRoom(u: State)
    requires u.out != [] && |u.out| <= u.bufSize
    ensures var v := Apply(u, Receive);
            SameDelivery(u, v) && v.live == u.live && |v.out| < v.bufSize
  {
    assert Apply(u, Receive).History() == u.History();
  }

  /** And room into `out`. */
  lemma ReachReady(t: State) returns (more: seq<Step>)
    requires Inv(t) && t.live.cap > 0 && CanDeliver(t)
    ensures Runnable(t, more)
    ensures var u := Run(t, more); SameDelivery(t, u) && u.live.buf != [] && |u.out| < u.bufSize
  {
    more := ReachEvent(t);
    var u := Run(t, more);
    if |t.out| == t.bufSize {
      MakeRoom(u);
      hide Apply, Run, Runnable, CanDeliver, Inv;
      more := Extend(t, more, Receive);
    }
  }

  lemma DeliverNext(u: State)
    requires u.pc.LiveSelect? && u.live.buf != [] && |u.out| < u.bufSize && u.cursor < u.live.buf[0].relaySeq
    ensures Enabled(u, LiveTake) && Enabled(Apply(u, LiveTake), LivePut)
    ensures var t := Apply(Apply(u, LiveTake), LivePut);
            t.History() == u.History() + [u.live.buf[0]] && t.log == u.log && t.since == u.since && t.skipped == u.skipped
  {
  }

  /** Delivering the next live event then jumps over the one that was thrown away. */
  lemma JumpLeavesGap(u: State, i: nat)
    requires Inv(u) && u.pc.LiveSelect? && u.live.buf != [] && |u.out| < u.bufSize
    requires u.cursor == Last(u.History(), u.since)
    requires i < u.lo && u.cursor < u.log[i].relaySeq && u.log[i].relaySeq !in u.skipped
    ensures Enabled(u, LiveTake) && Enabled(Apply(u, LiveTake), LivePut)
    ensures Gap(Apply(Apply(u, LiveTake), LivePut))
  {
    var e := u.live.buf[0];
    assert e == u.log[u.lo];
    assert u.log[i].relaySeq < e.relaySeq;
    SinceBelowLast(u);
    forall x | x in u.History() ensures x != u.log[i] {
      var k :| 0 <= k < |u.History()| && u.History()[k] == x;
    }
    hide Apply, Inv, LocalInv, OutInv, SentInv, WriterInv;
    DeliverNext(u);
    var t := Apply(Apply(u, LiveTake), LivePut);
    assert u.log[i] in t.log && u.log[i] !in t.History();
  }

  lemma SinceBelowLast(u: State)
    requires OutInv(u.log, u.since, u.History())
    ensures u.since <= Last(u.History(), u.since)
  {
    if u.History() != [] {
      assert u.History()[|u.History()| - 1] in u.History();
    }
  }

  lemma ThrownAwayLeavesGap(t: State) returns (more: seq<Step>)
    requires Inv(t) && t.live.cap > 0 && t.pc.LiveSelect? && t.cursor == Last(t.History(), t.since)
    requires ThrewAway(t) && CanDeliver(t)
    ensures Runnable(t, more) && Gap(Run(t, more))
  {
    var i :| 0 <= i < t.lo <= |t.log| && Last(t.History(), t.since) < t.log[i].relaySeq && t.log[i].relaySeq !in t.skipped;
    more := ReachReady(t);
    ReachableInv(t, more);
    hide Inv, Gap, Apply, Enabled;
    var u := Run(t, more);
    assert u.log[i] == t.log[i];
    JumpLeavesGap(u, i);
    more := Extend(t, more, LiveTake);
    more := Extend(t, more, LivePut);
  }

  // ----- the exact condition

  lemma ChunkEndStep(s: State)
    requires Enabled(s, ChunkReturns) && !s.blind
    ensures Backfilling(Apply(s, ChunkReturns).pc) ==> !Apply(s, ChunkReturns).blind
    ensures Apply(s, ChunkReturns).live.cap == s.live.cap
  {
  }

  lemma NotBlindStep(s: State, step: Step)
    requires Enabled(s, step) && (Backfilling(s.pc) ==> !s.blind)
    ensures Backfilling(Apply(s, step).pc) ==> !Apply(s, step).blind
    ensures Apply(s, step).live.cap == s.live.cap
  {
    if step.ChunkReturns? {
      ChunkEndStep(s);
    } else {
      hide AfterChunk, BlindHandoff, Chunk, Head, Wrap64, Last, Committed;
    }
  }

  /** Until Phase 4 no handoff has been blind; the live channel keeps its capacity. */
  lemma {:induction false} NotBlindYet(s: State, steps: seq<Step>)
    requires Runnable(s, steps) && (Backfilling(s.pc) ==> !s.blind)
    ensures Backfilling(Run(s, steps).pc) ==> !Run(s, steps).blind
    ensures Run(s, steps).live.cap == s.live.cap
    decreases |steps|
  {
    if steps != [] {
      hide Apply, Enabled, Backfilling;
      NotBlindStep(s, steps[0]);
      NotBlindYet(Apply(s, steps[0]), steps[1..]);
    }
  }

  /** The state right after the straggler query failed because of cancellation. */
  lemma BlindState(b: State)
    requires Inv(b) && !b.blind && b.pc.ChunkEnd? && BlindHandoff(b.pc.phase, b.pc.n, b.pc.failed, b.cancelled)
    ensures var t := Apply(b, ChunkReturns);
            && Inv(t) && t.pc.LiveSelect? && t.cursor == Last(t.History(), t.since) && !Gap(t) && t.live == b.live
            && (!ThrewAway(t) ==> Inv(Mended(t)))
  {
    var t := Apply(b, ChunkReturns);
    StepKeepsInv(b, ChunkReturns);
    NotBlindNoGap(b);
    assert t.History() == b.History() && Mended(t).History() == t.History();
  }

  ghost predicate CanComeToGap(t: State) {
    exists more :: Runnable(t, more) && Gap(Run(t, more))
  }

  lemma NoGapFrom(t: State)
    requires Inv(t) && t.pc.LiveSelect? && !Gap(t) && (Inv(Mended(t)) || !CanDeliver(t))
    ensures !CanComeToGap(t)
  {
    assert !Inv(Mended(t)) ==> Starved(t);
    hide Inv, Gap, Starved, CanDeliver, Mended;
    forall more | Runnable(t, more) ensures !Gap(Run(t, more)) {
      if Inv(Mended(t)) {
        NoHoleNoGap(t, more);
      } else {
        StarvedRun(t, more);
      }
    }
  }

  lemma ThrownAwayCanGap(t: State)
    requires Inv(t) && t.live.cap > 0 && t.pc.LiveSelect? && t.cursor == Last(t.History(), t.since)
    requires ThrewAway(t) && CanDeliver(t)
    ensures CanComeToGap(t)
  {
    hide Inv, Gap, ThrewAway, CanDeliver;
    var more := ThrownAwayLeavesGap(t);
  }

  lemma HandoffGapExactly(b: State)
    requires Inv(b) && !b.blind && b.live.cap > 0 && b.pc.ChunkEnd?
    requires BlindHandoff(b.pc.phase, b.pc.n, b.pc.failed, b.cancelled)
    ensures var t := Apply(b, ChunkReturns); CanComeToGap(t) <==> ThrewAway(t) && CanDeliver(t)
  {
    hide Inv, Gap, Apply, ThrewAway, CanDeliver, Mended, CanComeToGap;
    BlindState(b);
    var t := Apply(b, ChunkReturns);
    if ThrewAway(t) && CanDeliver(t) {
      ThrownAwayCanGap(t);
    } else {
      NoGapFrom(t);
    }
  }

  /**
   A stream that goes live on a straggler query that failed because of cancellation can come to leave a gap
   exactly when, at that moment, a broadcast event above the last delivered one is gone from the live channel,
   no query having found it deleted, and the live channel has or can still get something to deliver.
   */
  lemma BlindHandoffGapExactly(s: State, steps: seq<Step>)
    requires Init(s) && Runnable(s, steps)
    requires var b := Run(s, steps); b.pc.ChunkEnd? && BlindHandoff(b.pc.phase, b.pc.n, b.pc.failed, b.cancelled)
    ensures var t := Apply(Run(s, steps), ChunkReturns);
            CanComeToGap(t) <==> ThrewAway(t) && CanDeliver(t)
  {
    assert !s.blind && s.live.cap > 0;
    hide Init, Inv, Apply, Run, Runnable, CanComeToGap, ThrewAway, CanDeliver, BlindHandoff;
    InitInv(s);
    NotBlindYet(s, steps);
    ReachableInv(s, steps);
    HandoffGapExactly(Run(s, steps));
  }
}
