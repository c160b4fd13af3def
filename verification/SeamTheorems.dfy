/** The promises of the seam, over every run from StreamFrom's start. */
module SeamTheorems {
  import opened Prelude
  import opened Channels
  import opened Seam
  import opened SeamSafety

  /** Some query of the run, started above a cursor below `x`, found the committed event `x` already deleted. */
  ghost predicate FoundDeleted(s: State, steps: seq<Step>, x: int)
    requires Runnable(s, steps)
    decreases |steps|
  {
    && steps != []
    && ((steps[0] == QueryStarts(true) && s.cursor < x && x in s.gone && x in Committed(s.log))
        || FoundDeleted(Apply(s, steps[0]), steps[1..], x))
  }

  lemma {:induction false} SkippedWasDeleted(s: State, steps: seq<Step>, x: int)
    requires Runnable(s, steps) && x in Run(s, steps).skipped
    ensures x in s.skipped || FoundDeleted(s, steps, x)
    decreases |steps|
  {
    if steps != [] {
      SkippedWasDeleted(Apply(s, steps[0]), steps[1..], x);
    }
  }

  lemma {:induction false} DeletedIsSkipped(s: State, steps: seq<Step>, x: int)
    requires Runnable(s, steps)
    ensures x in s.skipped || FoundDeleted(s, steps, x) ==> x in Run(s, steps).skipped
    decreases |steps|
  {
    if steps != [] {
      DeletedIsSkipped(Apply(s, steps[0]), steps[1..], x);
    }
  }

  lemma {:induction false} RunConcat(s: State, before: seq<Step>, after: seq<Step>)
    requires Runnable(s, before) && Runnable(Run(s, before), after)
    ensures Runnable(s, before + after) && Run(s, before + after) == Run(Run(s, before), after)
    decreases |before|
  {
    hide Apply, Enabled;
    if before == [] {
      assert before + after == after;
    } else {
      RunConcat(Apply(s, before[0]), before[1..], after);
      assert (before + after)[1..] == before[1..] + after;
    }
  }

  /** One more step at the end of a run. */
  lemma Extend(s: State, steps: seq<Step>, step: Step) returns (longer: seq<Step>)
    requires Runnable(s, steps) && Enabled(Run(s, steps), step)
    ensures Runnable(s, longer) && Run(s, longer) == Apply(Run(s, steps), step)
  {
    longer := steps + [step];
    assert [step][1..] == [];
    RunConcat(s, steps, [step]);
  }

  lemma {:induction false} RunKeepsSince(s: State, steps: seq<Step>)
    requires Runnable(s, steps)
    ensures Run(s, steps).since == s.since && s.log <= Run(s, steps).log
    decreases |steps|
  {
    if steps != [] {
      RunKeepsSince(Apply(s, steps[0]), steps[1..]);
    }
  }

  /** The log only grows, and stays ascending. */
  lemma RunKeepsLog(s: State, steps: seq<Step>)
    requires Init(s) && Runnable(s, steps)
    ensures Run(s, steps).since == s.since && s.log <= Run(s, steps).log && Ascending(Run(s, steps).log)
    ensures Within(Run(s, steps).sent, Run(s, steps).log)
    ensures forall e :: e in Run(s, steps).sent ==> s.since < e.relaySeq
  {
    InitInv(s);
    ReachableInv(s, steps);
    RunKeepsSince(s, steps);
    assert forall e :: e in Run(s, steps).sent ==> e in Run(s, steps).History();
  }

  /**
   Whatever the writer, pruner, Hub, drainer and consumer do: what the stream delivers is strictly
   ascending, was committed with exactly that content, and lies above since. Nothing below the last
   delivered event is missing but events a query found deleted, unless the handoff was blind, which
   takes a cancelled context; then this holds of everything put on `out` before it.
   */
  lemma SeamDelivery(s: State, steps: seq<Step>)
    requires Init(s) && Runnable(s, steps)
    ensures var t := Run(s, steps);
            && Ascending(t.History()) && Within(t.History(), t.log)
            && (forall e :: e in t.History() ==> s.since < e.relaySeq)
            && t.sent <= t.History() && (!t.blind ==> t.sent == t.History()) && (t.blind ==> t.cancelled)
            && (forall e :: e in t.log && s.since < e.relaySeq <= Last(t.sent, s.since)
                            ==> e in t.sent || FoundDeleted(s, steps, e.relaySeq))
  {
    InitInv(s);
    ReachableInv(s, steps);
    RunKeepsSince(s, steps);
    var t := Run(s, steps);
    forall e | e in t.log && s.since < e.relaySeq <= Last(t.sent, s.since) && e !in t.sent
      ensures FoundDeleted(s, steps, e.relaySeq)
    {
      SkippedWasDeleted(s, steps, e.relaySeq);
    }
  }

  /** The head is the newest surviving seq, 0 when nothing survives. */
  lemma {:induction false} HeadIsNewest(log: seq<Event>, gone: set<int>)
    requires Sequenced(log)
    ensures forall e :: e in log && e.relaySeq !in gone ==> e.relaySeq <= Head(log, gone)
    ensures Head(log, gone) == 0 || exists e :: e in log && e.relaySeq !in gone && e.relaySeq == Head(log, gone)
  {
    if log != [] {
      var n := |log| - 1;
      assert log[n] in log && log == log[..n] + [log[n]];
      HeadIsNewest(log[..n], gone);
      forall e | e in log && e.relaySeq !in gone ensures e.relaySeq <= Head(log, gone) {
        var k :| 0 <= k < |log| && log[k] == e;
        assert k < n ==> log[..n][k] == e;
      }
    }
  }

  lemma SmallStays(x: int)
    requires -TWO_63 <= x < TWO_63
    ensures Wrap64(x) == x
  {
  }

  lemma HeadThenDecide(t: State)
    requires t.pc.ReadHead? && !t.cancelled
    ensures Enabled(t, HeadReturns(true)) && Enabled(Apply(t, HeadReturns(true)), DecidePhase)
    ensures Apply(Apply(t, HeadReturns(true)), DecidePhase).pc
            == if Wrap64(Wrap64(Head(t.log, t.gone)) - t.cursor) <= t.bufSize then Top(Final) else Query(Bulk)
  {
    hide Head, Wrap64;
  }

  /** Whether an uncancelled bulk phase ends on the head it reads, as long as the int64 difference does not overflow. */
  lemma {:induction false} GapDecides(t: State)
    requires Sequenced(t.log) && t.pc.ReadHead? && !t.cancelled && -TWO_63 < t.cursor < TWO_63
    requires forall e :: e in t.log ==> e.relaySeq - t.cursor < TWO_63
    ensures Enabled(t, HeadReturns(true)) && Enabled(Apply(t, HeadReturns(true)), DecidePhase)
    ensures Apply(Apply(t, HeadReturns(true)), DecidePhase).pc
            == if 0 <= t.cursor + t.bufSize
                  && forall e :: e in t.log && e.relaySeq !in t.gone ==> e.relaySeq <= t.cursor + t.bufSize
               then Top(Final) else Query(Bulk)
  {
    HeadIsNewest(t.log, t.gone);
    HeadThenDecide(t);
    hide Head, Apply, Enabled, Wrap64;
    SmallStays(Head(t.log, t.gone));
    SmallStays(Head(t.log, t.gone) - t.cursor);
  }

  /** It ends exactly when no surviving event lies more than bufSize above the cursor. */
  lemma {:induction false} BulkEndsNearHead(s: State, steps: seq<Step>)
    requires Init(s) && Runnable(s, steps) && Run(s, steps).pc.ReadHead? && !Run(s, steps).cancelled && s.since >= 0
    ensures var t := Run(s, steps);
            && Enabled(t, HeadReturns(true)) && Enabled(Apply(t, HeadReturns(true)), DecidePhase)
            && Apply(Apply(t, HeadReturns(true)), DecidePhase).pc
               == if forall e :: e in t.log && e.relaySeq !in t.gone ==> e.relaySeq <= t.cursor + t.bufSize
                  then Top(Final) else Query(Bulk)
  {
    InitInv(s);
    ReachableInv(s, steps);
    RunKeepsSince(s, steps);
    var t := Run(s, steps);
    CursorIsReached(t);
    hide Apply, Enabled, Inv, Init, Run, Runnable;
    GapDecides(t);
  }

  /** While it backfills, the cursor is `since` or the seq of the last event put on `out`. */
  lemma CursorIsReached(t: State)
    requires Inv(t) && t.pc.ReadHead?
    ensures Sequenced(t.log) && (t.cursor == t.since || 0 < t.cursor < TWO_63)
  {
  }

  predicate Unpruned(steps: seq<Step>) {
    forall i :: 0 <= i < |steps| ==> !steps[i].Prune?
  }

  lemma {:induction false} UnprunedKeepsAll(s: State, steps: seq<Step>)
    requires Runnable(s, steps) && Unpruned(steps) && s.gone == {} && s.skipped == {}
    ensures Run(s, steps).gone == {} && Run(s, steps).skipped == {}
    decreases |steps|
  {
    if steps != [] {
      UnprunedKeepsAll(Apply(s, steps[0]), steps[1..]);
    }
  }

  /** Without pruning, what was put on `out` before any blind handoff is exactly a window of the committed log. */
  lemma SeamExact(s: State, steps: seq<Step>)
    requires Init(s) && Runnable(s, steps) && Unpruned(steps) && s.gone == {}
    ensures var t := Run(s, steps); t.sent == Between(t.log, s.since, Last(t.sent, s.since))
  {
    InitInv(s);
    ReachableInv(s, steps);
    RunKeepsSince(s, steps);
    UnprunedKeepsAll(s, steps);
    var t := Run(s, steps);
    SentIsWindow(t);
  }

  lemma SentIsWindow(t: State)
    requires StreamInv(t) && t.skipped == {}
    ensures t.sent == Between(t.log, t.since, Last(t.sent, t.since))
  {
    var hi := Last(t.sent, t.since);
    var window := Between(t.log, t.since, hi);
    BetweenContents(t.log, t.since, hi);
    assert Ascending(t.sent);
    forall e ensures e in t.sent <==> e in window {
      if e in t.sent {
        assert e in t.History();
        var k :| 0 <= k < |t.sent| && t.sent[k] == e;
      }
    }
    AscendingUnique(t.sent, window);
  }

  /**
   After the handoff, every broadcast event above the last delivered one is still in the live buffer,
   unless a query found it deleted or the Hub dropped the subscription.
   */
  lemma HandoffComplete(s: State, steps: seq<Step>)
    requires Init(s) && Runnable(s, steps)
    requires Run(s, steps).pc.LiveSelect? && !Run(s, steps).cancelled && !Run(s, steps).live.closed
    ensures var t := Run(s, steps);
            && t.broadcast <= |t.log|
            && forall i :: 0 <= i < t.broadcast && Last(t.History(), s.since) < t.log[i].relaySeq
                           ==> t.log[i] in t.live.buf || FoundDeleted(s, steps, t.log[i].relaySeq)
  {
    InitInv(s);
    ReachableInv(s, steps);
    RunKeepsSince(s, steps);
    var t := Run(s, steps);
    hide Run, Runnable, Init;
    LiveBufferHolds(t);
    hide Inv;
    forall i | 0 <= i < t.broadcast && Last(t.History(), s.since) < t.log[i].relaySeq && t.log[i] !in t.live.buf
      ensures FoundDeleted(s, steps, t.log[i].relaySeq)
    {
      SkippedWasDeleted(s, steps, t.log[i].relaySeq);
    }
  }

  lemma LiveBufferHolds(t: State)
    requires Inv(t) && t.pc.LiveSelect? && !t.cancelled && !t.live.closed
    ensures t.broadcast <= |t.log|
    ensures forall i :: 0 <= i < t.broadcast && Last(t.History(), t.since) < t.log[i].relaySeq
                        ==> t.log[i] in t.live.buf || t.log[i].relaySeq in t.skipped
  {
    forall i | t.lo <= i < t.broadcast ensures t.log[i] in t.live.buf {
      assert t.live.buf[i - t.lo] == t.log[i];
    }
  }

  /** On the way out: stopping the drainer for good, or in the deferred calls. */
  predicate GoingAway(pc: Pc) {
    match pc
    case CloseStop(exiting) => exiting
    case AwaitDrain(exiting) => exiting
    case _ => pc.ExitCancel? || pc.ExitUnsubscribe? || pc.ExitClose? || pc.Finished?
  }

  /**
   A stream ends on a cancelled context, a failed head query, a query that fails while the context is alive,
   and a closed live channel with nothing left in it; on nothing else.
   */
  lemma {:induction false} LeavesExactly(s: State, step: Step)
    requires Enabled(s, step) && !GoingAway(s.pc)
    ensures GoingAway(Apply(s, step).pc)
            <==> || (step.CheckContext? && s.cancelled) || (step.CheckHandoff? && s.cancelled)
                 || (step.DecidePhase? && (s.pc.failed || s.cancelled))
                 || (step.ChunkReturns? && s.pc.failed && !s.cancelled)
                 || (step.LiveSawClosed? && s.live.closed && s.live.buf == [])
                 || (step.LiveSawCancel? && s.cancelled) || (step.LiveAborts? && s.cancelled)
  {
    hide Head, Chunk, Wrap64, Committed;
    if Relay(step) || Drainer(step) {
      assert Apply(s, step).pc == s.pc;
    }
  }

  /** Once it is leaving it never turns back, and puts nothing more on `out`. */
  lemma {:induction false} NothingAfterLeaving(s: State, steps: seq<Step>)
    requires Runnable(s, steps) && GoingAway(s.pc)
    ensures GoingAway(Run(s, steps).pc) && Run(s, steps).History() == s.History()
    decreases |steps|
  {
    if steps != [] {
      hide Apply, Enabled, GoingAway;
      StaysAway(s, steps[0]);
      NothingAfterLeaving(Apply(s, steps[0]), steps[1..]);
    }
  }

  lemma {:induction false} StaysAway(s: State, step: Step)
    requires Enabled(s, step) && GoingAway(s.pc)
    ensures GoingAway(Apply(s, step).pc) && Apply(s, step).History() == s.History()
  {
    hide Head, Chunk, Wrap64, Committed;
    if step.Receive? {
      assert Apply(s, step).History() == s.History();
    }
  }

  /** Nothing is left to do: the log is broadcast, the live buffer and `out` are empty, Phase 4 waits. */
  predicate Quiescent(t: State) {
    t.pc.LiveSelect? && !t.cancelled && !t.live.closed && t.live.buf == [] && t.out == [] && t.broadcast == |t.log|
  }

  /** A quiescent stream that was not dropped has delivered every committed event above since. */
  lemma QuiescentDeliveredAll(s: State, steps: seq<Step>)
    requires Init(s) && Runnable(s, steps) && Quiescent(Run(s, steps))
    ensures var t := Run(s, steps);
            forall e :: e in t.log && s.since < e.relaySeq ==> e in t.received || FoundDeleted(s, steps, e.relaySeq)
    ensures Unpruned(steps) && s.gone == {} ==>
              var t := Run(s, steps); t.received == Between(t.log, s.since, TWO_63)
  {
    var t := Run(s, steps);
    HandoffComplete(s, steps);
    SeamDelivery(s, steps);
    assert t.History() == t.received;
    forall e | e in t.log && s.since < e.relaySeq && e !in t.received ensures FoundDeleted(s, steps, e.relaySeq) {
      var i :| 0 <= i < |t.log| && t.log[i] == e;
    }
    if Unpruned(steps) && s.gone == {} {
      InitInv(s);
      ReachableInv(s, steps);
      UnprunedFindsNothing(s, steps);
      BetweenContents(t.log, s.since, TWO_63);
      AscendingUnique(t.received, Between(t.log, s.since, TWO_63));
    }
  }

  lemma {:induction false} UnprunedFindsNothing(s: State, steps: seq<Step>)
    requires Runnable(s, steps) && Unpruned(steps) && s.gone == {}
    ensures forall x :: !FoundDeleted(s, steps, x)
    decreases |steps|
  {
    if steps != [] {
      UnprunedFindsNothing(Apply(s, steps[0]), steps[1..]);
    }
  }

  /**
   No panic: stopDrain is closed at most once, and exactly once by the time `out` closes; nothing is
   sent on `out` after it is closed and it is closed once; `out` never holds more than its capacity.
   */
  lemma NoPanic(s: State, steps: seq<Step>)
    requires Init(s) && Runnable(s, steps)
    ensures var t := Run(s, steps);
            && t.stopCloses <= 1 && (t.outClosed ==> t.stopCloses == 1 && t.drainDone)
            && (Enabled(t, StopDrainer) ==> t.stopCloses == 0)
            && (t.outClosed ==> !Enabled(t, SendRow) && !Enabled(t, LivePut) && !Enabled(t, DeferClose))
            && |t.out| <= t.bufSize
  {
    InitInv(s);
    ReachableInv(s, steps);
    LocallySafe(Run(s, steps));
  }

  lemma LocallySafe(t: State)
    requires LocalInv(t)
    ensures t.stopCloses <= 1 && (t.outClosed ==> t.stopCloses == 1 && t.drainDone)
    ensures Enabled(t, StopDrainer) ==> t.stopCloses == 0
    ensures t.outClosed ==> !Enabled(t, SendRow) && !Enabled(t, LivePut) && !Enabled(t, DeferClose)
    ensures |t.out| <= t.bufSize
  {
  }
}
