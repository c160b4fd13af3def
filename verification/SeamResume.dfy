/** Reconnecting consumers: chained sessions, and what cancellation can cost. */
module SeamResume {
  import opened Prelude
  import opened Channels
  import opened Seam
  import opened SeamSafety
  import opened SeamTheorems

  /** One connection: how the relay stood when it subscribed, what happened, what the consumer took away. */
  datatype Session = Session(start: State, steps: seq<Step>, got: seq<Event>)

  /** The consumer walked away with some first part of what the stream put out before any blind handoff. */
  ghost predicate ValidSession(x: Session) {
    && Init(x.start) && x.start.gone == {}
    && Runnable(x.start, x.steps) && Unpruned(x.steps)
    && x.got <= Run(x.start, x.steps).sent
  }

  function EndLog(x: Session): seq<Event>
    requires Runnable(x.start, x.steps)
  {
    Run(x.start, x.steps).log
  }

  /** Each session resumes from the last event the one before it received, on the log as it is by then. */
  ghost predicate Chained(xs: seq<Session>) {
    && (forall i :: 0 <= i < |xs| ==> ValidSession(xs[i]))
    && forall i :: 0 < i < |xs| ==>
         && xs[i].start.since == Last(xs[i - 1].got, xs[i - 1].start.since)
         && EndLog(xs[i - 1]) <= xs[i].start.log
  }

  function Receipts(xs: seq<Session>): seq<Event> {
    if xs == [] then [] else Receipts(xs[..|xs| - 1]) + xs[|xs| - 1].got
  }

  /** A first part of a window of the log is itself a window. */
  lemma WindowPrefix(log: seq<Event>, lo: int, hi: int, part: seq<Event>)
    requires Ascending(log) && part <= Between(log, lo, hi)
    ensures part == Between(log, lo, Last(part, lo))
  {
    var whole := Between(log, lo, hi);
    BetweenContents(log, lo, hi);
    BetweenContents(log, lo, Last(part, lo));
    assert part == whole[..|part|];
    assert Ascending(part) by {
      assert forall i :: 0 <= i < |part| ==> part[i] == whole[i];
    }
    forall e | e in part ensures e in whole && lo < e.relaySeq <= Last(part, lo) {
      var k :| 0 <= k < |part| && part[k] == e;
      assert part[k] == whole[k];
    }
    forall e | e in whole && e.relaySeq <= Last(part, lo) ensures e in part {
      var k :| 0 <= k < |whole| && whole[k] == e;
    }
    assert part != [] ==> part[|part| - 1] in part;
    AscendingUnique(part, Between(log, lo, Last(part, lo)));
  }

  /** What one session brings is a window of the log that starts right after its cursor. */
  lemma SessionWindow(x: Session)
    requires ValidSession(x)
    ensures Ascending(EndLog(x)) && x.start.log <= EndLog(x)
    ensures x.got == Between(EndLog(x), x.start.since, Last(x.got, x.start.since))
    ensures x.start.since <= Last(x.got, x.start.since)
    ensures x.got != [] ==> Last(x.got, x.start.since) <= Last(EndLog(x), x.start.since)
  {
    var t := Run(x.start, x.steps);
    RunKeepsLog(x.start, x.steps);
    SeamExact(x.start, x.steps);
    WindowPrefix(t.log, t.since, Last(t.sent, t.since), x.got);
    if x.got != [] {
      var e := x.got[|x.got| - 1];
      assert e == t.sent[|x.got| - 1] && e in t.sent;
      var k :| 0 <= k < |t.log| && t.log[k] == e;
    }
  }

  /** A window of a log, followed by the window of a longer log that starts where it ended. */
  lemma JoinWindows(log: seq<Event>, longer: seq<Event>, since: int, first: seq<Event>, second: seq<Event>)
    requires Ascending(longer) && log <= longer
    requires since <= Last(first, since) && (first != [] ==> Last(first, since) <= Last(log, since))
    requires first == Between(log, since, Last(first, since))
    requires second == Between(longer, Last(first, since), Last(second, Last(first, since)))
    requires Last(first, since) <= Last(second, Last(first, since))
    ensures Last(first + second, since) == Last(second, Last(first, since))
    ensures first + second == Between(longer, since, Last(first + second, since))
    ensures first != [] ==> Last(log, since) <= Last(longer, since)
  {
    var mid := Last(first, since);
    BetweenStable(log, longer, since, mid);
    BetweenSplit(longer, since, mid, Last(second, mid));
    if first != [] {
      BetweenContents(log, since, mid);
      assert first[0] in first;
    }
  }

  /**
   Any number of sessions, each ended anywhere and resumed from its last event: the receipts put
   together are one window of the committed log, with nothing missing and nothing twice.
   */
  lemma {:induction false} ResumeChain(xs: seq<Session>)
    requires xs != [] && Chained(xs)
    ensures var since, log, all := xs[0].start.since, EndLog(xs[|xs| - 1]), Receipts(xs);
            && all == Between(log, since, Last(all, since))
            && Last(all, since) == Last(xs[|xs| - 1].got, xs[|xs| - 1].start.since)
            && since <= Last(all, since) && (all != [] ==> Last(all, since) <= Last(log, since))
    decreases |xs|
  {
    hide Between, Run, Runnable, Init;
    var n := |xs| - 1;
    var x := xs[n];
    var since := xs[0].start.since;
    SessionWindow(x);
    if n == 0 {
      assert Receipts(xs) == x.got by {
        assert xs[..0] == [];
      }
    } else {
      ResumeChain(xs[..n]);
      JoinWindows(EndLog(xs[n - 1]), EndLog(x), since, Receipts(xs[..n]), x.got);
    }
  }

  /** A stream that is dropped or fails, and was not cancelled from outside, is never handed off blind. */
  lemma {:induction false} DropIsNotBlind(s: State, steps: seq<Step>)
    requires Runnable(s, steps) && Cancel !in steps
    requires !s.blind && (s.cancelled ==> s.pc.ExitUnsubscribe? || s.pc.ExitClose? || s.pc.Finished?)
    ensures !Run(s, steps).blind
    decreases |steps|
  {
    if steps != [] {
      assert Cancel !in steps[1..];
      DropIsNotBlind(Apply(s, steps[0]), steps[1..]);
    }
  }

  const FIRST := Event(1, "labels", "did:a", [0xa4])
  const SECOND := Event(2, "labels", "did:a", [0xa4])

  /** An idle stream on an empty log with room for one buffered event. */
  const IDLE: State := State([], 0, {}, Chan(1, [], false), false, 0, 0, 0, Top(Bulk), false, 1, [], false, [], 0, {}, false, [])

  /** The final drain's query is about to run on an empty table. */
  lemma ReachFinalQuery() returns (run: seq<Step>)
    ensures Runnable(IDLE, run) && Run(IDLE, run) == IDLE.(pc := Query(Final))
  {
    run := Extend(IDLE, [], CheckContext);
    run := Extend(IDLE, run, HeadReturns(true));
    run := Extend(IDLE, run, DecidePhase);
    run := Extend(IDLE, run, CheckContext);
  }

  /** It finds nothing, so the goroutine turns to stopping the drainer. */
  lemma ReachStopDrain() returns (run: seq<Step>)
    ensures Runnable(IDLE, run) && Run(IDLE, run) == IDLE.(pc := CloseStop(false))
  {
    run := ReachFinalQuery();
    run := Extend(IDLE, run, QueryStarts(true));
    run := Extend(IDLE, run, RowsEnd);
    run := Extend(IDLE, run, ChunkReturns);
  }

  /** The first event is committed, broadcast and thrown away by the drainer before it is told to stop. */
  lemma ReachFirstDrained() returns (run: seq<Step>)
    ensures Runnable(IDLE, run)
    ensures Run(IDLE, run) == IDLE.(pc := CloseStop(false), log := [FIRST], broadcast := 1, lo := 1)
  {
    run := ReachStopDrain();
    run := Extend(IDLE, run, Commit(FIRST));
    run := Extend(IDLE, run, Broadcast);
    run := Extend(IDLE, run, DrainTake);
  }

  /** The straggler query that would find it is next. */
  lemma ReachStragglerQuery() returns (run: seq<Step>)
    ensures Runnable(IDLE, run)
    ensures Run(IDLE, run) == IDLE.(pc := Query(Straggler), log := [FIRST], broadcast := 1, lo := 1,
                                    stopCloses := 1, drainDone := true)
  {
    run := ReachFirstDrained();
    run := Extend(IDLE, run, StopDrainer);
    run := Extend(IDLE, run, DrainSawStop);
    run := Extend(IDLE, run, DrainerStopped);
    run := Extend(IDLE, run, CheckHandoff);
    run := Extend(IDLE, run, CheckContext);
  }

  /** The second event is buffered, the context is cancelled, and the query fails because of it. */
  lemma ReachCancelledHandoff() returns (run: seq<Step>)
    ensures Runnable(IDLE, run)
    ensures Run(IDLE, run) == IDLE.(pc := ChunkEnd(Straggler, 0, true), log := [FIRST, SECOND], broadcast := 2, lo := 1,
                                    stopCloses := 1, drainDone := true, live := Chan(1, [SECOND], false), cancelled := true)
  {
    run := ReachStragglerQuery();
    run := Extend(IDLE, run, Commit(SECOND));
    run := Extend(IDLE, run, Broadcast);
    run := Extend(IDLE, run, Cancel);
    run := Extend(IDLE, run, QueryStarts(false));
  }

  /**
   The limit of the no-gap promise: a stream cancelled before its straggler query can still put a live
   event on `out` although an earlier committed event, which was not pruned, did not get there.
   */
  lemma CancellationCanLeaveGap() returns (run: seq<Step>)
    ensures Init(IDLE) && Runnable(IDLE, run)
    ensures var t := Run(IDLE, run); t.History() == [SECOND] && t.log == [FIRST, SECOND] && t.gone == {} && t.blind
  {
    run := ReachCancelledHandoff();
    run := Extend(IDLE, run, ChunkReturns);
    run := Extend(IDLE, run, LiveTake);
    run := Extend(IDLE, run, LivePut);
  }
}
