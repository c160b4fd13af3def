/**
 The backfill-to-live seam: StreamFrom (seam.go:35) running against the single writer, the pruner,
 its Hub subscription, its drainer goroutine and its consumer. Every interleaving is a sequence of
 steps; each step is one action of one party.
 */
module Seam {
  import opened Prelude
  import opened Channels

  /** The three loops that read the database: bulk backfill, final drain, stragglers. */
  datatype Phase = Bulk | Final | Straggler

  /** Where the streaming goroutine is. */
  datatype Pc =
    | Top(phase: Phase)                                      // the context check opening a loop
    | ReadHead                                               // p.Head
    | Decide(head: int64, failed: bool)                      // after p.Head has returned
    | Query(phase: Phase)                                    // about to start PlaybackFramesChunk
    | Sending(phase: Phase, chunk: seq<Event>, n: nat)       // inside it: rows left, rows delivered
    | ChunkEnd(phase: Phase, n: nat, failed: bool)           // it has returned
    | CloseStop(exiting: bool)                               // close(stopDrain)
    | AwaitDrain(exiting: bool)                              // <-drainDone
    | HandoffCheck                                           // the context check after the drainer stopped
    | LiveSelect                                             // the outer select of Phase 4
    | LiveSend(e: Event)                                     // the inner select of Phase 4
    | ExitCancel | ExitUnsubscribe | ExitClose               // the three deferred calls, last registered first
    | Finished

  datatype State = State(
    // the writer and the events table
    log: seq<Event>, broadcast: nat, gone: set<int>,
    // this stream's subscription and drainer
    live: Chan, drainDone: bool, stopCloses: nat,
    // the streaming goroutine
    since: int64, cursor: int, pc: Pc, cancelled: bool,
    // its output channel and what the consumer has taken from it
    bufSize: nat, out: seq<Event>, outClosed: bool, received: seq<Event>,
    // history: index in log of the oldest buffered live event; seqs that a query above them found
    // already deleted; whether Phase 4 was entered on a query that cancellation had cut short;
    // everything put on out before that
    lo: nat, skipped: set<int>, blind: bool, sent: seq<Event>)
  {
    /** Everything ever put on `out`. */
    function History(): seq<Event> {
      received + out
    }
  }

  datatype Step =
    // the writer, the pruner, the consumer and its cleanup
    | Commit(row: Event) | Broadcast | Prune(dead: set<int>)
    | Cancel | Unsubscribe | Receive
    // the drainer
    | DrainTake | DrainSawClosed | DrainSawStop | DrainSawCancel
    // the streaming goroutine
    | CheckContext | HeadReturns(ok: bool) | DecidePhase
    | QueryStarts(ok: bool) | SendRow | SendAborts | RowsFail | RowsEnd | ChunkReturns
    | StopDrainer | DrainerStopped | CheckHandoff
    | LiveTake | LiveSawClosed | LiveSawCancel | LivePut | LiveAborts
    | DeferCancel | DeferUnsubscribe | DeferClose

  /** The seqs of the committed events. */
  function Committed(log: seq<Event>): set<int> {
    set e | e in log :: e.relaySeq
  }

  /** Every relay_seq is an int64 above those committed before it, the first above 0. */
  ghost predicate Sequenced(log: seq<Event>) {
    && Ascending(log)
    && forall e :: e in log ==> 0 < e.relaySeq < TWO_63
  }

  /** StreamFrom has just subscribed; the rest of the relay may be in any state. */
  ghost predicate Init(s: State) {
    && Sequenced(s.log) && s.gone <= Committed(s.log)
    && s.broadcast <= |s.log| <= s.broadcast + 1
    && s.bufSize > 0
    && s.live == Chan(s.bufSize, [], false)
    && !s.drainDone && s.stopCloses == 0
    && s.cursor == s.since && s.pc == Top(Bulk) && !s.cancelled
    && s.out == [] && !s.outClosed && s.received == []
    && s.lo == s.broadcast && s.skipped == {} && !s.blind && s.sent == []
  }

  /** The surviving rows a query above `cursor` would return, at most `bufSize` of them. */
  function Chunk(s: State): seq<Event> {
    Take(Above(s.log, s.gone, s.cursor), s.bufSize)
  }

  /** MAX(relay_seq) over surviving rows, 0 when there are none (persist.go:270). */
  function Head(log: seq<Event>, gone: set<int>): int {
    if log == [] then 0
    else
      var e := log[|log| - 1];
      if e.relaySeq in gone then Head(log[..|log| - 1], gone) else e.relaySeq
  }

  predicate Enabled(s: State, step: Step) {
    match step
    case Commit(e) => s.broadcast == |s.log| && Last(s.log, 0) < e.relaySeq < TWO_63
    case Broadcast => s.broadcast < |s.log|
    case Prune(dead) => dead <= Committed(s.log)
    case Cancel => true
    case Unsubscribe => s.cancelled
    case Receive => s.out != []

    case DrainTake => !s.drainDone && s.live.buf != []
    case DrainSawClosed => !s.drainDone && s.live.buf == [] && s.live.closed
    case DrainSawStop => !s.drainDone && s.stopCloses > 0
    case DrainSawCancel => !s.drainDone && s.cancelled

    case CheckContext => s.pc.Top?
    case HeadReturns(ok) => s.pc.ReadHead?
    case DecidePhase => s.pc.Decide?
    case QueryStarts(ok) => s.pc.Query?
    case SendRow => s.pc.Sending? && s.pc.chunk != [] && |s.out| < s.bufSize
    case SendAborts => s.pc.Sending? && s.pc.chunk != [] && s.cancelled
    case RowsFail => s.pc.Sending?
    case RowsEnd => s.pc.Sending? && s.pc.chunk == []
    case ChunkReturns => s.pc.ChunkEnd?
    case StopDrainer => s.pc.CloseStop?
    case DrainerStopped => s.pc.AwaitDrain? && s.drainDone
    case CheckHandoff => s.pc.HandoffCheck?
    case LiveTake => s.pc.LiveSelect? && s.live.buf != []
    case LiveSawClosed => s.pc.LiveSelect? && s.live.buf == [] && s.live.closed
    case LiveSawCancel => s.pc.LiveSelect? && s.cancelled
    case LivePut => s.pc.LiveSend? && |s.out| < s.bufSize
    case LiveAborts => s.pc.LiveSend? && s.cancelled
    case DeferCancel => s.pc.ExitCancel?
    case DeferUnsubscribe => s.pc.ExitUnsubscribe?
    case DeferClose => s.pc.ExitClose?
  }

  /** The steps of the relay around the stream: writer, pruner, consumer, cleanup. */
  predicate Relay(step: Step) {
    step.Commit? || step.Broadcast? || step.Prune? || step.Cancel? || step.Unsubscribe? || step.Receive?
  }

  predicate Drainer(step: Step) {
    step.DrainTake? || step.DrainSawClosed? || step.DrainSawStop? || step.DrainSawCancel?
  }

  /** The steps of the two goroutines StreamFrom starts. */
  predicate Worker(step: Step) {
    !Relay(step)
  }

  function Put(s: State, e: Event): State {
    s.(out := s.out + [e], sent := if s.blind then s.sent else s.sent + [e])
  }

  /** Take the oldest event off the live channel. */
  function TakeLive(s: State): State
    requires s.live.buf != []
  {
    s.(live := s.live.Rest(), lo := s.lo + 1)
  }

  /** Leaving a loop early: Phases 1 and 2 stop the drainer first, Phase 3 runs without it. */
  function Leave(phase: Phase): Pc {
    if phase.Straggler? then ExitCancel else CloseStop(true)
  }

  function AfterChunk(phase: Phase, n: nat, failed: bool, cancelled: bool): Pc {
    if failed && !cancelled then Leave(phase)
    else if n > 0 then Top(phase)
    else match phase
      case Bulk => Top(Final)
      case Final => CloseStop(false)
      case Straggler => LiveSelect
  }

  /** The straggler query failed because of cancellation, and Phase 4 starts all the same (seam.go:180-186). */
  predicate BlindHandoff(phase: Phase, n: nat, failed: bool, cancelled: bool) {
    phase.Straggler? && n == 0 && failed && cancelled
  }

  function Apply(s: State, step: Step): State
    requires Enabled(s, step)
  {
    match step
    case Commit(e) => s.(log := s.log + [e])
    case Broadcast => s.(broadcast := s.broadcast + 1, live := s.live.Offer(s.log[s.broadcast]))
    case Prune(dead) => s.(gone := s.gone + dead)
    case Cancel => s.(cancelled := true)
    case Unsubscribe => s.(live := s.live.Close())
    case Receive => s.(received := s.received + [s.out[0]], out := s.out[1..])

    case DrainTake => TakeLive(s)
    case DrainSawClosed => s.(drainDone := true)
    case DrainSawStop => s.(drainDone := true)
    case DrainSawCancel => s.(drainDone := true)

    case CheckContext =>
      s.(pc := if s.cancelled then Leave(s.pc.phase)
               else if s.pc.phase.Bulk? then ReadHead else Query(s.pc.phase))
    case HeadReturns(ok) => s.(pc := Decide(if ok then Wrap64(Head(s.log, s.gone)) else 0, !ok))
    case DecidePhase =>
      s.(pc := if s.pc.failed || s.cancelled then Leave(Bulk)
               else if Wrap64(s.pc.head - s.cursor) <= s.bufSize then Top(Final) else Query(Bulk))
    case QueryStarts(ok) =>
      if !ok then s.(pc := ChunkEnd(s.pc.phase, 0, true))
      else s.(pc := Sending(s.pc.phase, Chunk(s), 0),
              skipped := s.skipped + set e | e in s.log && s.cursor < e.relaySeq && e.relaySeq in s.gone :: e.relaySeq)
    case SendRow =>
      var e := s.pc.chunk[0];
      Put(s, e).(cursor := e.relaySeq, pc := Sending(s.pc.phase, s.pc.chunk[1..], s.pc.n + 1))
    case SendAborts => s.(pc := ChunkEnd(s.pc.phase, s.pc.n, true))
    case RowsFail => s.(pc := ChunkEnd(s.pc.phase, s.pc.n, true))
    case RowsEnd => s.(pc := ChunkEnd(s.pc.phase, s.pc.n, false))
    case ChunkReturns =>
      s.(pc := AfterChunk(s.pc.phase, s.pc.n, s.pc.failed, s.cancelled),
         blind := s.blind || BlindHandoff(s.pc.phase, s.pc.n, s.pc.failed, s.cancelled))
    case StopDrainer => s.(stopCloses := s.stopCloses + 1, pc := AwaitDrain(s.pc.exiting))
    case DrainerStopped => s.(pc := if s.pc.exiting then ExitCancel else HandoffCheck)
    case CheckHandoff => s.(pc := if s.cancelled then ExitCancel else Top(Straggler))
    case LiveTake =>
      var e := s.live.buf[0];
      TakeLive(s).(pc := if e.relaySeq <= s.cursor then LiveSelect else LiveSend(e))
    case LiveSawClosed => s.(pc := ExitCancel)
    case LiveSawCancel => s.(pc := ExitCancel)
    case LivePut => Put(s, s.pc.e).(pc := LiveSelect)
    case LiveAborts => s.(pc := ExitCancel)
    case DeferCancel => s.(cancelled := true, pc := ExitUnsubscribe)
    case DeferUnsubscribe => s.(live := s.live.Close(), pc := ExitClose)
    case DeferClose => s.(outClosed := true, pc := Finished)
  }

  /** `steps` can be taken in this order from `s`. */
  predicate Runnable(s: State, steps: seq<Step>)
    decreases |steps|
  {
    steps == [] || (Enabled(s, steps[0]) && Runnable(Apply(s, steps[0]), steps[1..]))
  }

  function Run(s: State, steps: seq<Step>): State
    requires Runnable(s, steps)
    decreases |steps|
  {
    if steps == [] then s else Run(Apply(s, steps[0]), steps[1..])
  }
}
