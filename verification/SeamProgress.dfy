/** Termination: cleanup always ends the stream, and a quiet relay lets it deliver everything. */
module SeamProgress {
  import opened Prelude
  import opened Channels
  import opened Seam
  import opened SeamSafety
  import opened SeamTheorems

  // ----- after both cancels

  /** cleanup has cancelled the context and the subscription (seam.go:213-215). */
  predicate CleanedUp(s: State) {
    s.cancelled && s.live.closed
  }

  /** How many more steps the streaming goroutine can take once cleaned up. */
  function StepsLeft(pc: Pc, bufSize: nat, buffered: nat): nat {
    match pc
    case Finished => 0
    case ExitClose => 1
    case ExitUnsubscribe => 2
    case ExitCancel => 3
    case LiveSelect => 4 + 2 * buffered
    case LiveSend(_) => 5 + 2 * buffered
    case HandoffCheck => 5 + 2 * buffered
    case AwaitDrain(_) => 6 + 2 * buffered
    case CloseStop(_) => 7 + 2 * buffered
    case ReadHead => 9 + 2 * buffered
    case Decide(_, _) => 8 + 2 * buffered
    case Top(ph) => (if ph.Straggler? then 5 else 8) + 2 * buffered
    case ChunkEnd(ph, _, _) => (if ph.Straggler? then 6 else 9) + 2 * buffered
    case Sending(ph, chunk, _) => (if ph.Straggler? then 7 else 10) + |chunk| + 2 * buffered
    case Query(ph) => (if ph.Straggler? then 8 else 11) + bufSize + 2 * buffered
  }

  /** The work left for both goroutines. */
  function CleanupWork(s: State): nat {
    StepsLeft(s.pc, s.bufSize, |s.live.buf|) + if s.drainDone then 0 else 1
  }

  lemma DrainerStepsShrinkWork(s: State, step: Step)
    requires CleanedUp(s) && Enabled(s, step) && Drainer(step)
    requires DrainInv(s.pc, s.stopCloses, s.drainDone, s.outClosed)
    ensures CleanedUp(Apply(s, step)) && CleanupWork(Apply(s, step)) < CleanupWork(s)
  {
  }

  lemma {:induction false} StreamerStepsShrinkWork(s: State, step: Step)
    requires CleanedUp(s) && Enabled(s, step) && Worker(step) && !Drainer(step)
    requires DrainInv(s.pc, s.stopCloses, s.drainDone, s.outClosed)
    ensures CleanedUp(Apply(s, step)) && CleanupWork(Apply(s, step)) < CleanupWork(s)
  {
    hide Head, Wrap64, Above;
  }

  lemma RelayStepsKeepWork(s: State, step: Step)
    requires CleanedUp(s) && Enabled(s, step) && Relay(step)
    ensures CleanedUp(Apply(s, step)) && CleanupWork(Apply(s, step)) == CleanupWork(s)
  {
  }

  /** A worker step that can always be taken before the goroutine has finished: nothing can block it. */
  function NextWorker(s: State): (step: Step)
    requires CleanedUp(s) && DrainInv(s.pc, s.stopCloses, s.drainDone, s.outClosed) && !s.pc.Finished?
    ensures Worker(step) && Enabled(s, step)
  {
    match s.pc
    case Top(_) => CheckContext
    case ReadHead => HeadReturns(false)
    case Decide(_, _) => DecidePhase
    case Query(_) => QueryStarts(false)
    case Sending(_, chunk, _) => if chunk == [] then RowsEnd else SendAborts
    case ChunkEnd(_, _, _) => ChunkReturns
    case CloseStop(_) => StopDrainer
    case AwaitDrain(_) => if s.drainDone then DrainerStopped else DrainSawStop
    case HandoffCheck => CheckHandoff
    case LiveSelect => LiveSawCancel
    case LiveSend(_) => LiveAborts
    case ExitCancel => DeferCancel
    case ExitUnsubscribe => DeferUnsubscribe
    case ExitClose => DeferClose
  }

  function WorkerSteps(steps: seq<Step>): nat {
    if steps == [] then 0 else (if Worker(steps[0]) then 1 else 0) + WorkerSteps(steps[1..])
  }

  /**
   Cleanup terminates: from any reachable state in which both cancels have run, the two goroutines can
   take at most CleanupWork more steps in any interleaving, they are never stuck before `out` is closed,
   and when they can do nothing more it is closed.
   */
  lemma {:induction false} CleanupTerminates(s: State, steps: seq<Step>)
    requires Inv(s) && CleanedUp(s) && Runnable(s, steps)
    ensures var t := Run(s, steps);
            && WorkerSteps(steps) + CleanupWork(t) <= CleanupWork(s)
            && ((forall step | Worker(step) :: !Enabled(t, step)) ==> t.outClosed)
            && CleanedUp(t)
    decreases |steps|
  {
    if steps == [] {
      assert DrainInv(s.pc, s.stopCloses, s.drainDone, s.outClosed);
      if !s.pc.Finished? {
        var next := NextWorker(s);
      }
    } else {
      var u := Apply(s, steps[0]);
      if Drainer(steps[0]) {
        DrainerStepsShrinkWork(s, steps[0]);
      } else if Worker(steps[0]) {
        StreamerStepsShrinkWork(s, steps[0]);
      } else {
        RelayStepsKeepWork(s, steps[0]);
      }
      StepKeepsInv(s, steps[0]);
      CleanupTerminates(u, steps[1..]);
    }
  }

  // ----- in a quiet relay

  /** A step taken while nothing is committed, pruned or cancelled and every database call succeeds. */
  predicate Quiet(step: Step) {
    (Worker(step) || step.Receive?) && step != HeadReturns(false) && step != QueryStarts(false) && !step.RowsFail?
  }

  /** Neither cancelled nor dropped, nor on the way out. */
  predicate Unhindered(s: State) {
    && !s.cancelled && !s.live.closed
    && match s.pc
       case Decide(_, failed) => !failed
       case ChunkEnd(_, _, failed) => !failed
       case CloseStop(exiting) => !exiting
       case AwaitDrain(exiting) => !exiting
       case ExitCancel => false
       case ExitUnsubscribe => false
       case ExitClose => false
       case Finished => false
       case _ => true
  }

  /** The stream is alive: unhindered, and the log is broadcast. */
  predicate Alive(s: State) {
    Unhindered(s) && s.broadcast == |s.log|
  }

  /** A database call that fails. */
  predicate Fault(step: Step) {
    step == HeadReturns(false) || step == QueryStarts(false) || step.RowsFail?
  }

  /** Only a failing call, an outside cancel or unsubscribe, or a drop can take a stream off its way. */
  lemma UnhinderedStep(s: State, step: Step)
    requires Unhindered(s) && Enabled(s, step) && !Fault(step) && !step.Cancel? && !step.Unsubscribe?
    ensures Unhindered(Apply(s, step)) || Apply(s, step).live.closed
  {
    hide Head, Wrap64, Chunk, Last, Committed;
  }

  lemma ClosedStays(s: State, step: Step)
    requires Enabled(s, step) && s.live.closed
    ensures Apply(s, step).live.closed
  {
    hide Head, Wrap64, Chunk, Last, Committed, AfterChunk, Leave;
  }

  /** How many committed events lie above the cursor. */
  function Ahead(log: seq<Event>, cursor: int): nat {
    |Filter(log, (e: Event) => cursor < e.relaySeq)|
  }

  lemma {:induction false} FilterShrinks(log: seq<Event>, p: Event -> bool, q: Event -> bool, e: Event)
    requires forall x :: q(x) ==> p(x)
    ensures |Filter(log, q)| <= |Filter(log, p)|
    ensures e in log && p(e) && !q(e) ==> |Filter(log, q)| < |Filter(log, p)|
  {
    if log != [] {
      var n := |log| - 1;
      FilterShrinks(log[..n], p, q, e);
      assert log == log[..n] + [log[n]];
    }
  }

  lemma AheadShrinks(log: seq<Event>, cursor: int, e: Event)
    requires e in log && cursor < e.relaySeq
    ensures Ahead(log, e.relaySeq) < Ahead(log, cursor)
  {
    FilterShrinks(log, (x: Event) => cursor < x.relaySeq, (x: Event) => e.relaySeq < x.relaySeq, e);
  }

  /** Position within the four phases; a chunk that has delivered something may still loop back. */
  function Rank(pc: Pc): nat {
    var base := (ph: Phase) => match ph case Bulk => 40 case Final => 30 case Straggler => 10;
    match pc
    case Top(ph) => base(ph) + 6
    case ReadHead => 45
    case Decide(_, _) => 44
    case Query(ph) => base(ph) + 3
    case Sending(ph, _, n) => base(ph) + 2 + if n > 0 then 6 else 0
    case ChunkEnd(ph, n, _) => base(ph) + 1 + if n > 0 then 6 else 0
    case CloseStop(_) => 25
    case AwaitDrain(_) => 24
    case HandoffCheck => 23
    case LiveSend(_) => 2
    case _ => 0
  }

  /** The quiet steps left: events above the cursor, position, buffered live events, undelivered output. */
  function QuietWork(s: State): nat {
    10 * Ahead(s.log, s.cursor) + Rank(s.pc) + 4 * |s.live.buf| + |s.out| + if s.drainDone then 0 else 1
  }

  lemma SendShrinksQuietWork(s: State)
    requires Alive(s) && LocalInv(s) && Enabled(s, SendRow)
    ensures Alive(Apply(s, SendRow)) && QuietWork(Apply(s, SendRow)) < QuietWork(s)
  {
    assert s.pc.chunk[0] in s.pc.chunk;
    AheadShrinks(s.log, s.cursor, s.pc.chunk[0]);
  }

  lemma QuietStepsShrinkWork(s: State, step: Step)
    requires Alive(s) && Enabled(s, step) && Quiet(step) && !step.SendRow?
    requires DrainInv(s.pc, s.stopCloses, s.drainDone, s.outClosed)
    ensures Alive(Apply(s, step)) && QuietWork(Apply(s, step)) < QuietWork(s)
  {
    hide Head, Wrap64, Chunk, Ahead, Last;
  }

  /** Every quiet step of an alive stream takes it closer to having delivered everything. */
  lemma QuietStep(s: State, step: Step)
    requires Inv(s) && Alive(s) && Enabled(s, step) && Quiet(step)
    ensures Alive(Apply(s, step)) && QuietWork(Apply(s, step)) < QuietWork(s)
  {
    hide Apply, Enabled, QuietWork, Alive, StreamInv, PcInv;
    if step.SendRow? {
      SendShrinksQuietWork(s);
    } else {
      QuietStepsShrinkWork(s, step);
    }
  }

  lemma {:induction false} FilterSize(log: seq<Event>, p: Event -> bool)
    ensures |Filter(log, p)| <= |log|
  {
    if log != [] {
      FilterSize(log[..|log| - 1], p);
    }
  }

  /** The work left is bounded by the log and the buffer size. */
  function WorkBound(log: seq<Event>, bufSize: nat): nat {
    14 * |log| + bufSize + 49
  }

  lemma QuietWorkIsBounded(s: State)
    requires Inv(s)
    ensures QuietWork(s) <= WorkBound(s.log, s.bufSize)
  {
    FilterSize(s.log, (e: Event) => s.cursor < e.relaySeq);
    hide PcInv, OutInv, SentInv, WriterInv;
    assert Rank(s.pc) <= 48;
  }

  /** A stream that is alive but not quiescent always has a quiet step to take. */
  function NextQuiet(s: State): (step: Step)
    requires Alive(s) && !Quiescent(s) && s.bufSize > 0
    requires DrainInv(s.pc, s.stopCloses, s.drainDone, s.outClosed)
    ensures Quiet(step) && Enabled(s, step)
  {
    if s.out != [] then Receive
    else match s.pc
      case Top(_) => CheckContext
      case ReadHead => HeadReturns(true)
      case Decide(_, _) => DecidePhase
      case Query(_) => QueryStarts(true)
      case Sending(_, chunk, _) => if chunk == [] then RowsEnd else SendRow
      case ChunkEnd(_, _, _) => ChunkReturns
      case CloseStop(_) => StopDrainer
      case AwaitDrain(_) => if s.drainDone then DrainerStopped else DrainSawStop
      case HandoffCheck => CheckHandoff
      case LiveSelect => LiveTake
      case LiveSend(_) => LivePut
  }

  predicate AllQuiet(steps: seq<Step>) {
    forall i :: 0 <= i < |steps| ==> Quiet(steps[i])
  }

  lemma {:induction false} QuietRunsEnd(s: State, steps: seq<Step>)
    requires Inv(s) && Alive(s) && Runnable(s, steps) && AllQuiet(steps)
    ensures var t := Run(s, steps);
            && |steps| + QuietWork(t) <= QuietWork(s)
            && ((forall step | Quiet(step) :: !Enabled(t, step)) ==> Quiescent(t))
    decreases |steps|
  {
    if steps == [] {
      if !Quiescent(s) {
        var next := NextQuiet(s);
      }
    } else {
      QuietStep(s, steps[0]);
      StepKeepsInv(s, steps[0]);
      QuietRunsEnd(Apply(s, steps[0]), steps[1..]);
    }
  }

  /**
   Delivery: once the relay goes quiet, a stream that has been neither cancelled nor dropped takes a
   bounded number of steps, and when it can take no more its consumer has received every committed
   event above since, except those a query found already deleted.
   */
  lemma {:induction false} QuietStreamDelivers(s: State, before: seq<Step>, quiet: seq<Step>)
    requires Init(s) && Runnable(s, before) && Alive(Run(s, before))
    requires Runnable(Run(s, before), quiet) && AllQuiet(quiet)
    ensures |quiet| <= QuietWork(Run(s, before))
    ensures Runnable(s, before + quiet)
    ensures var t := Run(s, before + quiet);
            (forall step | Quiet(step) :: !Enabled(t, step)) ==>
              forall e :: e in t.log && s.since < e.relaySeq ==>
                e in t.received || FoundDeleted(s, before + quiet, e.relaySeq)
  {
    InitInv(s);
    ReachableInv(s, before);
    QuietRunsEnd(Run(s, before), quiet);
    RunConcat(s, before, quiet);
    if forall step | Quiet(step) :: !Enabled(Run(s, before + quiet), step) {
      QuiescentDeliveredAll(s, before + quiet);
    }
  }
}
