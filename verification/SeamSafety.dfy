/** What every interleaving of the seam keeps: order, no duplicate, no gap before a blind handoff. */
module SeamSafety {
  import opened Prelude
  import opened Channels
  import opened Seam

  /** Every committed event in (lo, hi] is in `es`, unless a query found it already deleted. */
  ghost predicate Complete(es: seq<Event>, log: seq<Event>, skipped: set<int>, lo: int, hi: int) {
    forall e :: e in log && lo < e.relaySeq <= hi ==> e in es || e.relaySeq in skipped
  }

  /** The first `k` committed events lie at or below `hi`, are in `es`, or were found deleted. */
  ghost predicate Covered(log: seq<Event>, k: nat, hi: int, es: seq<Event>, skipped: set<int>) {
    forall i :: 0 <= i < k <= |log| ==> log[i].relaySeq <= hi || log[i] in es || log[i].relaySeq in skipped
  }

  /** The writer commits one event at a time and broadcasts it before the next. */
  ghost predicate WriterInv(log: seq<Event>, gone: set<int>, skipped: set<int>, broadcast: nat) {
    && Sequenced(log)
    && skipped <= gone <= Committed(log)
    && broadcast <= |log| <= broadcast + 1
  }

  /** The live buffer is a run of the broadcasts; while the channel is open it reaches the newest one. */
  ghost predicate LiveInv(log: seq<Event>, broadcast: nat, live: Chan, lo: nat) {
    && lo + |live.buf| <= broadcast <= |log|
    && (forall i :: 0 <= i < |live.buf| ==> live.buf[i] == log[lo + i])
    && (!live.closed ==> lo + |live.buf| == broadcast)
  }

  /** What was put on `out`: committed events above since, ascending, each once. */
  ghost predicate OutInv(log: seq<Event>, since: int, history: seq<Event>) {
    && Ascending(history) && Within(history, log)
    && forall e :: e in history ==> since < e.relaySeq
  }

  /** The part put there before a blind handoff has no gap. */
  ghost predicate SentInv(log: seq<Event>, since: int, history: seq<Event>, sent: seq<Event>,
                          blind: bool, skipped: set<int>) {
    && sent <= history && (!blind ==> sent == history)
    && Complete(sent, log, skipped, since, Last(sent, since))
  }

  predicate Backfilling(pc: Pc) {
    pc.Top? || pc.ReadHead? || pc.Decide? || pc.Query? || pc.Sending? || pc.ChunkEnd?
    || pc.CloseStop? || pc.AwaitDrain? || pc.HandoffCheck?
  }

  /** Phase 3 or later: the drainer has been told to stop and has stopped. */
  predicate PastDrain(pc: Pc) {
    match pc
    case Top(ph) => ph.Straggler?
    case Query(ph) => ph.Straggler?
    case Sending(ph, _, _) => ph.Straggler?
    case ChunkEnd(ph, _, _) => ph.Straggler?
    case ReadHead => false
    case Decide(_, _) => false
    case CloseStop(_) => false
    case AwaitDrain(_) => false
    case _ => true
  }

  /** close(stopDrain) has run exactly once by the time Phase 3 or any exit is reached. */
  ghost predicate DrainInv(pc: Pc, stopCloses: nat, drainDone: bool, outClosed: bool) {
    && stopCloses == (if PastDrain(pc) || pc.AwaitDrain? then 1 else 0)
    && (PastDrain(pc) ==> drainDone)
    && (outClosed <==> pc.Finished?)
  }

  ghost predicate SendingInv(phase: Phase, chunk: seq<Event>, n: nat, bufSize: nat,
                             log: seq<Event>, cursor: int, lo: nat, skipped: set<int>) {
    && Ascending(chunk) && Within(chunk, log)
    && (forall e :: e in chunk ==> cursor < e.relaySeq)
    && Complete(chunk, log, skipped, cursor, Last(chunk, cursor))
    && n + |chunk| <= bufSize
    && (n + |chunk| < bufSize && phase.Straggler? ==> Covered(log, lo, cursor, chunk, skipped))
  }

  ghost predicate LiveSelectInv(log: seq<Event>, cursor: int, last: int, lo: nat, skipped: set<int>, blind: bool) {
    && cursor <= last
    && (last <= cursor || (0 < lo <= |log| && last <= log[lo - 1].relaySeq))
    && (!blind ==> Covered(log, lo, last, [], skipped))
  }

  ghost predicate LiveSendInv(e: Event, log: seq<Event>, cursor: int, last: int, lo: nat, skipped: set<int>,
                              blind: bool) {
    && 0 < lo <= |log| && e == log[lo - 1]
    && cursor <= last < e.relaySeq
    && (!blind ==> Covered(log, lo - 1, last, [], skipped))
  }

  /** What each point of the streaming goroutine knows about its cursor and the log. */
  ghost predicate PcInv(pc: Pc, bufSize: nat, log: seq<Event>, cursor: int, last: int, lo: nat, skipped: set<int>,
                        blind: bool) {
    && (Backfilling(pc) ==> cursor == last)
    && (pc.Sending? ==> SendingInv(pc.phase, pc.chunk, pc.n, bufSize, log, cursor, lo, skipped))
    && (pc.ChunkEnd? && pc.phase.Straggler? && pc.n == 0 && !pc.failed ==> Covered(log, lo, cursor, [], skipped))
    && (pc.LiveSelect? ==> LiveSelectInv(log, cursor, last, lo, skipped, blind))
    && (pc.LiveSend? ==> LiveSendInv(pc.e, log, cursor, last, lo, skipped, blind))
  }

  /** The part of the invariant about the rest of the relay and what has been delivered. */
  ghost predicate StreamInv(s: State) {
    && WriterInv(s.log, s.gone, s.skipped, s.broadcast)
    && LiveInv(s.log, s.broadcast, s.live, s.lo)
    && OutInv(s.log, s.since, s.History())
    && SentInv(s.log, s.since, s.History(), s.sent, s.blind, s.skipped)
    && (s.blind ==> s.cancelled)
  }

  /** The part about the streaming goroutine's own position. */
  ghost predicate LocalInv(s: State) {
    && s.bufSize > 0 && |s.out| <= s.bufSize
    && DrainInv(s.pc, s.stopCloses, s.drainDone, s.outClosed)
    && PcInv(s.pc, s.bufSize, s.log, s.cursor, Last(s.History(), s.since), s.lo, s.skipped, s.blind)
  }

  ghost predicate Inv(s: State) {
    StreamInv(s) && LocalInv(s)
  }

  lemma InitInv(s: State)
    requires Init(s)
    ensures Inv(s)
  {
  }

  /** A commit goes to the end of the log, above everything there. */
  lemma CommitExtends(log: seq<Event>, e: Event)
    requires Sequenced(log) && Last(log, 0) < e.relaySeq < TWO_63
    ensures Sequenced(log + [e])
    ensures forall x :: x in log ==> x.relaySeq < e.relaySeq
    ensures forall x :: x in log + [e] <==> x in log || x == e
    ensures forall i :: 0 <= i < |log| ==> (log + [e])[i] == log[i]
  {
    assert forall x :: x in log + [e] <==> x in log || x == e;
    forall x | x in log ensures x.relaySeq < e.relaySeq {
      assert log != [];
    }
  }

  /** Nothing below the end of what was delivered can appear later. */
  lemma CompleteGrows(es: seq<Event>, log: seq<Event>, e: Event, skipped: set<int>, lo: int)
    requires Sequenced(log) && Last(log, 0) < e.relaySeq < TWO_63
    requires Within(es, log) && Complete(es, log, skipped, lo, Last(es, lo))
    ensures Within(es, log + [e]) && Complete(es, log + [e], skipped, lo, Last(es, lo))
  {
    CommitExtends(log, e);
    assert es != [] ==> es[|es| - 1] in es;
  }

  lemma CommitKeepsPc(pc: Pc, bufSize: nat, log: seq<Event>, e: Event, cursor: int, last: int, lo: nat,
                      skipped: set<int>, blind: bool)
    requires Sequenced(log) && Last(log, 0) < e.relaySeq < TWO_63 && lo <= |log|
    requires PcInv(pc, bufSize, log, cursor, last, lo, skipped, blind)
    ensures PcInv(pc, bufSize, log + [e], cursor, last, lo, skipped, blind)
  {
    CommitExtends(log, e);
    if pc.Sending? {
      CompleteGrows(pc.chunk, log, e, skipped, cursor);
    }
  }

  lemma {:induction false} CommitKeepsInv(s: State, e: Event)
    requires Inv(s) && Enabled(s, Commit(e))
    ensures Inv(Apply(s, Commit(e)))
  {
    CommitKeepsStream(s, e);
    CommitKeepsPc(s.pc, s.bufSize, s.log, e, s.cursor, Last(s.History(), s.since), s.lo, s.skipped, s.blind);
  }

  lemma CommitKeepsStream(s: State, e: Event)
    requires StreamInv(s) && Enabled(s, Commit(e))
    ensures StreamInv(Apply(s, Commit(e)))
  {
    hide Complete;
    CommitExtends(s.log, e);
    assert Within(s.sent, s.log) by {
      assert forall x :: x in s.sent ==> x in s.History();
    }
    CompleteGrows(s.sent, s.log, e, s.skipped, s.since);
  }

  lemma OfferKeepsLive(log: seq<Event>, broadcast: nat, live: Chan, lo: nat)
    requires LiveInv(log, broadcast, live, lo) && broadcast < |log|
    ensures LiveInv(log, broadcast + 1, live.Offer(log[broadcast]), lo)
  {
  }

  /** A broadcast delivers to the subscription or closes it, and moves nothing else. */
  lemma {:induction false} BroadcastKeepsInv(s: State)
    requires Inv(s) && Enabled(s, Broadcast)
    ensures Inv(Apply(s, Broadcast))
  {
    hide LiveInv, OutInv, SentInv, DrainInv, PcInv;
    OfferKeepsLive(s.log, s.broadcast, s.live, s.lo);
    assert Apply(s, Broadcast).History() == s.History();
  }

  lemma CloseKeepsLive(log: seq<Event>, broadcast: nat, live: Chan, lo: nat)
    requires LiveInv(log, broadcast, live, lo)
    ensures LiveInv(log, broadcast, live.Close(), lo)
  {
  }

  /** Deleting rows, cancelling, unsubscribing and receiving leave the stream's facts as they were. */
  lemma {:induction false} OthersKeepInv(s: State, step: Step)
    requires Inv(s) && Enabled(s, step)
    requires Relay(step) && !step.Commit? && !step.Broadcast?
    ensures Inv(Apply(s, step))
  {
    hide LiveInv, OutInv, SentInv, DrainInv, PcInv, Sequenced;
    CloseKeepsLive(s.log, s.broadcast, s.live, s.lo);
    assert Apply(s, step).History() == s.History();
  }

  lemma TakeKeepsLive(log: seq<Event>, broadcast: nat, live: Chan, lo: nat)
    requires LiveInv(log, broadcast, live, lo) && live.buf != []
    ensures LiveInv(log, broadcast, live.Rest(), lo + 1)
    ensures live.buf[0] == log[lo]
  {
  }

  /** Before Phase 3 nothing depends on how much the drainer has thrown away. */
  lemma DrainerFreePc(pc: Pc, bufSize: nat, log: seq<Event>, cursor: int, last: int, lo: nat, skipped: set<int>,
                      blind: bool, lo': nat)
    requires PcInv(pc, bufSize, log, cursor, last, lo, skipped, blind) && !PastDrain(pc)
    ensures PcInv(pc, bufSize, log, cursor, last, lo', skipped, blind)
  {
  }

  lemma {:induction false} DrainerKeepsInv(s: State, step: Step)
    requires Inv(s) && Enabled(s, step)
    requires Drainer(step)
    ensures Inv(Apply(s, step))
  {
    var t := Apply(s, step);
    if step.DrainTake? {
      TakeKeepsLive(s.log, s.broadcast, s.live, s.lo);
      DrainerFreePc(s.pc, s.bufSize, s.log, s.cursor, Last(s.History(), s.since), s.lo, s.skipped, s.blind, t.lo);
    }
  }

  predicate Control(step: Step) {
    step.CheckContext? || step.HeadReturns? || step.DecidePhase? || step.ChunkReturns?
    || step.SendAborts? || step.RowsFail? || step.RowsEnd?
    || step.StopDrainer? || step.DrainerStopped? || step.CheckHandoff?
  }

  predicate Leaving(step: Step) {
    step.LiveSawClosed? || step.LiveSawCancel? || step.LiveAborts?
    || step.DeferCancel? || step.DeferUnsubscribe? || step.DeferClose?
  }

  /** A step that leaves the relay and the output alone keeps everything known about them. */
  lemma StreamFrame(s: State, t: State)
    requires StreamInv(s) && (t.blind ==> t.cancelled)
    requires t == s.(pc := t.pc, stopCloses := t.stopCloses, outClosed := t.outClosed, blind := s.blind || t.blind)
             || t == s.(pc := t.pc, cancelled := true) || t == s.(pc := t.pc, live := s.live.Close())
    ensures StreamInv(t)
  {
    assert t.History() == s.History();
  }

  lemma ControlFrame(s: State, step: Step)
    requires Enabled(s, step) && Control(step)
    ensures var t := Apply(s, step);
            t == s.(pc := t.pc, stopCloses := t.stopCloses, blind := s.blind || t.blind)
  {
    hide AfterChunk, BlindHandoff, Head, Wrap64, Chunk, Put, Last;
  }

  lemma LeavingFrame(s: State, step: Step)
    requires Enabled(s, step) && Leaving(step)
    ensures var t := Apply(s, step);
            t == s.(pc := t.pc, outClosed := t.outClosed)
            || t == s.(pc := t.pc, cancelled := true) || t == s.(pc := t.pc, live := s.live.Close())
  {
    hide AfterChunk, BlindHandoff, Head, Wrap64, Chunk, Put, Last;
  }

  lemma BlindOnlyIfCancelled(s: State, step: Step)
    requires Enabled(s, step) && (s.blind ==> s.cancelled)
    ensures Apply(s, step).blind ==> Apply(s, step).cancelled
  {
  }

  lemma ControlKeepsLocal(s: State, step: Step)
    requires LocalInv(s) && Enabled(s, step) && Control(step) && !step.ChunkReturns? && !s.pc.Sending?
    ensures LocalInv(Apply(s, step))
  {
    hide Covered, SendingInv, LiveSelectInv, LiveSendInv;
  }

  lemma RowsKeepLocal(s: State, step: Step)
    requires LocalInv(s) && Enabled(s, step) && Control(step) && s.pc.Sending?
    ensures LocalInv(Apply(s, step))
  {
  }

  lemma ChunkReturnsKeepsLocal(s: State)
    requires LocalInv(s) && Enabled(s, ChunkReturns)
    ensures LocalInv(Apply(s, ChunkReturns))
  {
  }

  lemma LeavingKeepsLocal(s: State, step: Step)
    requires s.bufSize > 0 && |s.out| <= s.bufSize && DrainInv(s.pc, s.stopCloses, s.drainDone, s.outClosed)
    requires Enabled(s, step) && Leaving(step)
    ensures LocalInv(Apply(s, step))
  {
  }

  lemma QueryKeepsInv(s: State, ok: bool)
    requires Inv(s) && Enabled(s, QueryStarts(ok))
    ensures Inv(Apply(s, QueryStarts(ok)))
  {
    if ok {
      ChunkContents(s.log, s.gone, s.cursor, s.bufSize);
    }
  }

  /** Sending the next event keeps order. */
  lemma PutKeepsHistory(s: State, e: Event)
    requires OutInv(s.log, s.since, s.History()) && e in s.log && Last(s.History(), s.since) < e.relaySeq
    ensures Put(s, e).History() == s.History() + [e] && Last(Put(s, e).History(), s.since) == e.relaySeq
    ensures OutInv(s.log, s.since, Put(s, e).History())
  {
    var history := s.History();
    assert Put(s, e).History() == history + [e];
    assert forall x :: x in history + [e] <==> x in history || x == e;
    assert history != [] ==> history[|history| - 1] in history;
  }

  /** And keeps what was sent so far complete. */
  lemma PutKeepsSent(s: State, e: Event)
    requires SentInv(s.log, s.since, s.History(), s.sent, s.blind, s.skipped)
    requires !s.blind ==> Complete([e], s.log, s.skipped, Last(s.History(), s.since), e.relaySeq)
    requires Put(s, e).History() == s.History() + [e]
    ensures SentInv(s.log, s.since, Put(s, e).History(), Put(s, e).sent, s.blind, s.skipped)
  {
    if !s.blind {
      assert forall x :: x in s.sent + [e] <==> x in s.sent || x == e;
    }
  }

  lemma SendingAdvances(phase: Phase, chunk: seq<Event>, n: nat, bufSize: nat, log: seq<Event>, cursor: int, lo: nat,
                        skipped: set<int>)
    requires SendingInv(phase, chunk, n, bufSize, log, cursor, lo, skipped) && chunk != []
    ensures var e := chunk[0];
            && SendingInv(phase, chunk[1..], n + 1, bufSize, log, e.relaySeq, lo, skipped)
            && e in log && cursor < e.relaySeq && Complete([e], log, skipped, cursor, e.relaySeq)
  {
    var e, rest := chunk[0], chunk[1..];
    assert e in chunk && chunk == [e] + rest;
    assert forall x :: x in chunk <==> x == e || x in rest;
  }

  lemma {:induction false} SendKeepsInv(s: State)
    requires Inv(s) && Enabled(s, SendRow)
    ensures Inv(Apply(s, SendRow))
  {
    hide WriterInv, LiveInv, OutInv, SentInv, SendingInv, Complete;
    SendingAdvances(s.pc.phase, s.pc.chunk, s.pc.n, s.bufSize, s.log, s.cursor, s.lo, s.skipped);
    PutKeepsHistory(s, s.pc.chunk[0]);
    PutKeepsSent(s, s.pc.chunk[0]);
  }

  lemma LiveTakeKeepsPc(e: Event, log: seq<Event>, cursor: int, last: int, lo: nat, skipped: set<int>, blind: bool)
    requires Ascending(log) && lo < |log| && e == log[lo]
    requires LiveSelectInv(log, cursor, last, lo, skipped, blind)
    ensures e.relaySeq <= cursor ==> LiveSelectInv(log, cursor, last, lo + 1, skipped, blind)
    ensures e.relaySeq > cursor ==> LiveSendInv(e, log, cursor, last, lo + 1, skipped, blind)
  {
  }

  lemma {:induction false} LiveTakeKeepsStream(s: State)
    requires StreamInv(s) && Enabled(s, LiveTake)
    ensures StreamInv(Apply(s, LiveTake))
    ensures Ascending(s.log) && s.lo < |s.log| && s.live.buf[0] == s.log[s.lo]
  {
    TakeKeepsLive(s.log, s.broadcast, s.live, s.lo);
  }

  lemma LiveTakeKeepsLocal(s: State)
    requires LocalInv(s) && Enabled(s, LiveTake)
    requires Ascending(s.log) && s.lo < |s.log| && s.live.buf[0] == s.log[s.lo]
    ensures LocalInv(Apply(s, LiveTake))
  {
    LiveTakeKeepsPc(s.live.buf[0], s.log, s.cursor, Last(s.History(), s.since), s.lo, s.skipped, s.blind);
  }

  lemma LivePutKeepsPc(e: Event, log: seq<Event>, cursor: int, last: int, lo: nat, skipped: set<int>, blind: bool)
    requires Ascending(log)
    requires LiveSendInv(e, log, cursor, last, lo, skipped, blind)
    ensures LiveSelectInv(log, cursor, e.relaySeq, lo, skipped, blind)
    ensures e in log && (!blind ==> Complete([e], log, skipped, last, e.relaySeq))
  {
  }

  lemma LivePutKeepsStream(s: State)
    requires StreamInv(s) && Enabled(s, LivePut)
    requires LiveSendInv(s.pc.e, s.log, s.cursor, Last(s.History(), s.since), s.lo, s.skipped, s.blind)
    ensures StreamInv(Apply(s, LivePut))
    ensures Last(Apply(s, LivePut).History(), s.since) == s.pc.e.relaySeq && Ascending(s.log)
  {
    LivePutKeepsPc(s.pc.e, s.log, s.cursor, Last(s.History(), s.since), s.lo, s.skipped, s.blind);
    PutKeepsHistory(s, s.pc.e);
    PutKeepsSent(s, s.pc.e);
  }

  lemma LivePutKeepsLocal(s: State)
    requires LocalInv(s) && Enabled(s, LivePut) && Ascending(s.log)
    requires Last(Apply(s, LivePut).History(), s.since) == s.pc.e.relaySeq
    ensures LocalInv(Apply(s, LivePut))
  {
    LivePutKeepsPc(s.pc.e, s.log, s.cursor, Last(s.History(), s.since), s.lo, s.skipped, s.blind);
  }

  lemma {:induction false} ControlKeepsInv(s: State, step: Step)
    requires Inv(s) && Enabled(s, step) && (Control(step) || Leaving(step))
    ensures Inv(Apply(s, step))
  {
    hide Apply, WriterInv, LiveInv, OutInv, SentInv, PcInv;
    if Leaving(step) {
      LeavingFrame(s, step);
    } else {
      ControlFrame(s, step);
    }
    BlindOnlyIfCancelled(s, step);
    StreamFrame(s, Apply(s, step));
    if step.ChunkReturns? {
      ChunkReturnsKeepsLocal(s);
    } else if Control(step) && s.pc.Sending? {
      RowsKeepLocal(s, step);
    } else if Control(step) {
      ControlKeepsLocal(s, step);
    } else {
      LeavingKeepsLocal(s, step);
    }
  }

  lemma RelayKeepsInv(s: State, step: Step)
    requires Inv(s) && Enabled(s, step) && !Worker(step)
    ensures Inv(Apply(s, step))
  {
    hide Inv, Apply, Enabled;
    match step {
      case Commit(e) => CommitKeepsInv(s, e);
      case Broadcast => BroadcastKeepsInv(s);
      case _ => OthersKeepInv(s, step);
    }
  }

  lemma StreamerKeepsInv(s: State, step: Step)
    requires Inv(s) && Enabled(s, step) && !(Control(step) || Leaving(step))
    requires step.QueryStarts? || step.SendRow? || step.LiveTake? || step.LivePut?
    ensures Inv(Apply(s, step))
  {
    hide StreamInv, Apply;
    match step {
      case QueryStarts(ok) => QueryKeepsInv(s, ok);
      case SendRow => SendKeepsInv(s);
      case LiveTake => LiveTakeKeepsStream(s); LiveTakeKeepsLocal(s);
      case LivePut => LivePutKeepsStream(s); LivePutKeepsLocal(s);
    }
  }

  /** Every step of every party keeps the invariant. */
  lemma {:induction false} StepKeepsInv(s: State, step: Step)
    requires Inv(s) && Enabled(s, step)
    ensures Inv(Apply(s, step))
  {
    hide Inv, Apply, Enabled;
    if !Worker(step) {
      RelayKeepsInv(s, step);
    } else if Drainer(step) {
      DrainerKeepsInv(s, step);
    } else if Control(step) || Leaving(step) {
      ControlKeepsInv(s, step);
    } else {
      StreamerKeepsInv(s, step);
    }
  }

  /** Safety over whole runs: every state any interleaving can reach satisfies the invariant. */
  lemma {:induction false} ReachableInv(s: State, steps: seq<Step>)
    requires Inv(s) && Runnable(s, steps)
    ensures Inv(Run(s, steps))
    decreases |steps|
  {
    if steps != [] {
      StepKeepsInv(s, steps[0]);
      ReachableInv(Apply(s, steps[0]), steps[1..]);
    }
  }
}
