/** Crash-safe ingest of one labeler: persist a frame, then move the bookmark (subscription.go). */
module IngestSpec {
  import opened Prelude
  import opened MapCodec
  import opened Structs
  import Frames
  import opened SlurperPolicy
  import Registry = RegistrySpec
  import Store = StoreSpec

  /** An upstream #labels frame. */
  datatype Frame = Frame(no: int64, labels: seq<Label>)

  /** The labels the policy keeps, in order. */
  function Kept(labels: seq<Label>, sigRequired: bool): seq<Label> {
    if labels == [] then []
    else
      var last := labels[|labels| - 1];
      Kept(labels[..|labels| - 1], sigRequired) + if KeepLabel(last, sigRequired) then [last] else []
  }

  /** A kept label is relayed as often as it came, any other not at all. */
  lemma {:induction false} KeptMeaning(labels: seq<Label>, sigRequired: bool, l: Label)
    ensures multiset(Kept(labels, sigRequired))[l] == if |l.sig| > 0 || !sigRequired then multiset(labels)[l] else 0
  {
    if labels != [] {
      var before, last := labels[..|labels| - 1], labels[|labels| - 1];
      KeptMeaning(before, sigRequired, l);
      assert labels == before + [last];
      assert multiset(labels) == multiset(before) + multiset{last};
    }
  }

  /** Without a signature policy the frame goes through unmodified. */
  lemma {:induction false} KeptEverything(labels: seq<Label>)
    ensures Kept(labels, false) == labels
  {
    if labels != [] {
      KeptEverything(labels[..|labels| - 1]);
    }
  }

  /** `kept` is the labels of `labels` that carry a signature: at these places, in order, and no others. */
  ghost predicate SignedAt(kept: seq<Label>, labels: seq<Label>, at: seq<nat>) {
    && |at| == |kept|
    && (forall j, k :: 0 <= j < k < |at| ==> at[j] < at[k])
    && (forall k :: 0 <= k < |at| ==> at[k] < |labels| && kept[k] == labels[at[k]])
    && (forall i :: 0 <= i < |labels| ==> (i in at <==> |labels[i].sig| > 0))
  }

  ghost predicate ExactlySigned(kept: seq<Label>, labels: seq<Label>) {
    exists at :: SignedAt(kept, labels, at)
  }

  /** Under a signature policy the signed labels go through, in order and as often as they came, and nothing else. */
  lemma {:induction false} KeptSigned(labels: seq<Label>)
    ensures ExactlySigned(Kept(labels, true), labels)
  {
    if labels == [] {
      assert SignedAt([], labels, []);
    } else {
      var n := |labels| - 1;
      KeptSigned(labels[..n]);
      var before := Kept(labels[..n], true);
      var at :| SignedAt(before, labels[..n], at);
      assert Kept(labels, true) == if |labels[n].sig| > 0 then before + [labels[n]] else before;
      hide Kept, SignedAt;
      SignedAtGrows(before, labels, at);
    }
  }

  lemma {:induction false} SignedAtGrows(kept: seq<Label>, labels: seq<Label>, at: seq<nat>)
    requires labels != [] && SignedAt(kept, labels[..|labels| - 1], at)
    ensures var n := |labels| - 1;
            if |labels[n].sig| > 0 then SignedAt(kept + [labels[n]], labels, at + [n]) else SignedAt(kept, labels, at)
  {
    var n := |labels| - 1;
    assert forall i :: i in at + [n] <==> i in at || i == n;
    assert forall i :: 0 <= i < n ==> labels[..n][i] == labels[i];
    assert forall k :: 0 <= k < |at| ==> at[k] < n;
    assert n !in at;
  }

  /** What a subscription whose row has this override keeps of a frame, under this default. */
  ghost predicate KeptUnder(override_: Option<bool>, globalDefault: bool, kept: seq<Label>, labels: seq<Label>) {
    && (override_ == Some(true) || (override_.None? && globalDefault) ==> ExactlySigned(kept, labels))
    && (override_ == Some(false) || (override_.None? && !globalDefault) ==> kept == labels)
  }

  /** An override decides alone; without one the default does. */
  lemma {:induction false} PolicyDecides(override_: Option<bool>, globalDefault: bool, labels: seq<Label>)
    ensures KeptUnder(override_, globalDefault, Kept(labels, SigRequired(override_, globalDefault)), labels)
  {
    hide Kept, ExactlySigned;
    KeptSigned(labels);
    KeptEverything(labels);
  }

  function Present(labels: seq<Label>): seq<Option<Label>> {
    seq(|labels|, i requires 0 <= i < |labels| => Some(labels[i]))
  }

  /** What is handed to PersistIngest for a frame. */
  function EventOf(did: Text, f: Frame, policy: bool): Frames.IngestEvent {
    Frames.IngestEvent("labels", did, Some(f.no), Present(Kept(f.labels, policy)), "", None)
  }

  /** A connection: its policy, the last frame it is past, and a frame handled whose bookmark is not yet written. */
  datatype Session = Session(policy: bool, last: int64, handled: Option<Frame>)

  /** `passed` is history: the frames sessions got past, each with the policy of the session that did. */
  datatype State = State(world: Store.World, table: Registry.Table, sessions: map<nat, Session>, passed: set<(Frame, bool)>)

  /** The labeler, everything its upstream ever publishes, and the codecs. */
  datatype Setting = Setting(c: Codecs, did: Text, upstream: seq<Frame>)

  ghost predicate Ordered(fs: seq<Frame>) {
    forall i, j :: 0 <= i < j < |fs| ==> fs[i].no < fs[j].no
  }

  /** The upstream replays what lies above the cursor in ascending order. */
  ghost predicate Next(upstream: seq<Frame>, last: int64, f: Frame) {
    f in upstream && last < f.no && forall g :: g in upstream && last < g.no ==> f.no <= g.no
  }

  datatype Step =
    | Open(id: nat, policy: bool)
    | Handle(id: nat, f: Frame, now: int, skip: nat, fault: Store.Fault)
    | WriteBookmark(id: nat, dbOk: bool)
    | End(id: nat)                             // dropped, cancelled, or a handler error
    | Crash
    | OtherStore(op: Store.Op)                 // other labelers, discovery, pruning
    | OtherRegistry(change: Registry.Op)

  ghost predicate Enabled(k: Setting, s: State, step: Step) {
    match step
    case Open(id, _) => id !in s.sessions && k.did in s.table && s.table[k.did].lastUpstreamSeq.Some?
    case Handle(id, f, _, _, _) =>
      id in s.sessions && s.sessions[id].handled.None? && Next(k.upstream, s.sessions[id].last, f)
    case WriteBookmark(id, _) => id in s.sessions && s.sessions[id].handled.Some?
    case End(id) => id in s.sessions
    case Crash => true
    case OtherStore(_) => true
    case OtherRegistry(change) => !(change.WriteCursor? && change.did == k.did)
  }

  /** A session past its handled frame. */
  function Advanced(session: Session): Session
    requires session.handled.Some?
  {
    session.(last := session.handled.value.no, handled := None)
  }

  ghost function Apply(k: Setting, s: State, step: Step): State
    requires Enabled(k, s, step)
  {
    match step
    case Open(id, policy) =>
      s.(sessions := s.sessions[id := Session(policy, s.table[k.did].lastUpstreamSeq.value, None)])
    case Handle(id, f, now, skip, fault) =>
      var session := s.sessions[id];
      var past := s.(sessions := s.sessions[id := session.(handled := Some(f))], passed := s.passed + {(f, session.policy)});
      if Kept(f.labels, session.policy) == [] then past
      else
        var e := EventOf(k.did, f, session.policy);
        if Store.Minted(k.c, s.world.db, e, now, skip, fault).None? then s.(sessions := s.sessions - {id})
        else past.(world := Store.Step(k.c, s.world, Store.Ingest(e, now, skip, fault, false)))
    case WriteBookmark(id, dbOk) =>
      if !dbOk then s.(sessions := s.sessions - {id})
      else s.(table := Registry.Apply(s.table, Registry.WriteCursor(k.did, s.sessions[id].handled.value.no)),
              sessions := s.sessions[id := Advanced(s.sessions[id])])
    case End(id) => s.(sessions := s.sessions - {id})
    case Crash => s.(world := Store.Boot(s.world), sessions := map[])
    case OtherStore(op) => s.(world := Store.Step(k.c, s.world, op))
    case OtherRegistry(change) => s.(table := Registry.Apply(s.table, change))
  }

  ghost predicate Runnable(k: Setting, s: State, steps: seq<Step>)
    decreases |steps|, 0
  {
    steps != [] ==> Runnable(k, s, steps[..|steps| - 1])
                    && Enabled(k, Run(k, s, steps[..|steps| - 1]), steps[|steps| - 1])
  }

  ghost function Run(k: Setting, s: State, steps: seq<Step>): State
    requires Runnable(k, s, steps)
    decreases |steps|, 1
  {
    if steps == [] then s else Apply(k, Run(k, s, steps[..|steps| - 1]), steps[|steps| - 1])
  }

  /** The row a frame commits under a policy: none when it keeps nothing or the store fails. */
  function RowFor(c: Codecs, did: Text, db: Store.Db, f: Frame, policy: bool, now: int, skip: nat, fault: Store.Fault)
    : Option<Store.Row>
  {
    if Kept(f.labels, policy) == [] then None else Store.Minted(c, db, EventOf(did, f, policy), now, skip, fault)
  }

  /** Handling a frame and writing its bookmark have the effect the frame handler's contract states. */
  lemma StepsAreTheHandler(k: Setting, s: State, handle: Step, writeOk: bool)
    requires handle.Handle? && Enabled(k, s, handle)
    ensures var t, policy := Apply(k, s, handle), s.sessions[handle.id].policy;
            var row := RowFor(k.c, k.did, s.world.db, handle.f, policy, handle.now, handle.skip, handle.fault);
            var handled := Kept(handle.f.labels, policy) == [] || row.Some?;
            && t.table == s.table && t.world.db == Store.Insert(s.world.db, row)
            && t.world.emitted == s.world.emitted + (if row.Some? then [row.value.event] else [])
            && (handled <==> handle.id in t.sessions)
            && (handled ==>
                  && Enabled(k, t, WriteBookmark(handle.id, writeOk))
                  && var u := Apply(k, t, WriteBookmark(handle.id, writeOk));
                     && u.world == t.world && (writeOk <==> handle.id in u.sessions)
                     && u.table == if writeOk then Registry.Apply(s.table, Registry.WriteCursor(k.did, handle.f.no))
                                   else s.table)
  {
    hide Store.Minted, Kept, EventOf, Next, Registry.Apply;
  }

  // ----- the invariant

  /** Under the policy of a session that got past it, the frame has nothing to keep or is committed with what is kept. */
  ghost predicate Done(did: Text, passed: set<(Frame, bool)>, sources: seq<Frames.IngestEvent>, f: Frame) {
    exists p :: (f, p) in passed && (Kept(f.labels, p) == [] || EventOf(did, f, p) in sources)
  }

  /** Some session whose policy was `p` handled the frame: it kept nothing, or committed what it kept there and then. */
  ghost predicate HandledIn(k: Setting, s: State, steps: seq<Step>, f: Frame, p: bool)
    requires Runnable(k, s, steps)
    decreases |steps|
  {
    steps != [] &&
    var before, last := Run(k, s, steps[..|steps| - 1]), steps[|steps| - 1];
    || HandledIn(k, s, steps[..|steps| - 1], f, p)
    || (last.Handle? && last.f == f && before.sessions[last.id].policy == p
        && (Kept(f.labels, p) == []
            || Apply(k, before, last).world.sources == before.world.sources + [EventOf(k.did, f, p)]))
  }

  /** A session got past the frame, which had nothing to keep under its policy or is committed with what that keeps. */
  ghost predicate Ingested(k: Setting, s: State, steps: seq<Step>, f: Frame)
    requires Runnable(k, s, steps)
  {
    exists p :: HandledIn(k, s, steps, f, p)
                && (Kept(f.labels, p) == [] || EventOf(k.did, f, p) in Run(k, s, steps).world.sources)
  }

  lemma {:induction false} PassedWasHandled(k: Setting, s: State, steps: seq<Step>, f: Frame, p: bool)
    requires Runnable(k, s, steps) && s.passed == {} && (f, p) in Run(k, s, steps).passed
    ensures HandledIn(k, s, steps, f, p)
    decreases |steps|
  {
    hide Kept, EventOf, Next, Store.Minted;
    var before, last := Run(k, s, steps[..|steps| - 1]), steps[|steps| - 1];
    if (f, p) in before.passed {
      PassedWasHandled(k, s, steps[..|steps| - 1], f, p);
    }
  }

  ghost predicate DoneUpTo(k: Setting, c0: int64, passed: set<(Frame, bool)>, sources: seq<Frames.IngestEvent>, b: int64) {
    forall f :: f in k.upstream && c0 < f.no <= b ==> Done(k.did, passed, sources, f)
  }

  ghost predicate SessionInv(k: Setting, c0: int64, passed: set<(Frame, bool)>, sources: seq<Frames.IngestEvent>,
                             session: Session)
  {
    && DoneUpTo(k, c0, passed, sources, session.last)
    && (session.handled.Some? ==>
          && Next(k.upstream, session.last, session.handled.value)
          && Done(k.did, passed, sources, session.handled.value))
  }

  ghost predicate BookmarkInv(k: Setting, c0: int64, passed: set<(Frame, bool)>, sources: seq<Frames.IngestEvent>,
                              table: Registry.Table)
  {
    && k.did in table && table[k.did].lastUpstreamSeq.Some?
    && DoneUpTo(k, c0, passed, sources, table[k.did].lastUpstreamSeq.value)
  }

  ghost predicate Inv(k: Setting, c0: int64, s: State) {
    && BookmarkInv(k, c0, s.passed, s.world.sources, s.table)
    && forall id :: id in s.sessions ==> SessionInv(k, c0, s.passed, s.world.sources, s.sessions[id])
  }

  /** The labeler has a bookmark c0 and no connection; the store is in any state. */
  ghost predicate Init(k: Setting, c0: int64, s: State) {
    && Ordered(k.upstream) && s.sessions == map[] && s.passed == {}
    && k.did in s.table && s.table[k.did].lastUpstreamSeq == Some(c0)
  }

  lemma DoneStays(k: Setting, c0: int64, p: set<(Frame, bool)>, q: set<(Frame, bool)>,
                  a: seq<Frames.IngestEvent>, b: seq<Frames.IngestEvent>)
    requires p <= q && forall e :: e in a ==> e in b
    ensures forall f :: Done(k.did, p, a, f) ==> Done(k.did, q, b, f)
  {
  }

  lemma {:induction false} InvStays(k: Setting, c0: int64, s: State, t: State)
    requires Inv(k, c0, s)
    requires s.passed <= t.passed && forall e :: e in s.world.sources ==> e in t.world.sources
    requires t.table == s.table && t.sessions.Keys <= s.sessions.Keys
             && forall id :: id in t.sessions ==> t.sessions[id] == s.sessions[id]
    ensures Inv(k, c0, t)
  {
    DoneStays(k, c0, s.passed, t.passed, s.world.sources, t.world.sources);
  }

  lemma SourcesGrow(c: Codecs, w: Store.World, op: Store.Op)
    ensures forall e :: e in w.sources ==> e in Store.Step(c, w, op).sources
  {
  }

  /** Being past the next frame is being past everything up to it. */
  lemma PastNext(k: Setting, c0: int64, passed: set<(Frame, bool)>, sources: seq<Frames.IngestEvent>, session: Session)
    requires Ordered(k.upstream) && SessionInv(k, c0, passed, sources, session) && session.handled.Some?
    ensures DoneUpTo(k, c0, passed, sources, session.handled.value.no)
  {
    var f := session.handled.value;
    forall g | g in k.upstream && session.last < g.no <= f.no ensures g == f {
      var i :| 0 <= i < |k.upstream| && k.upstream[i] == g;
      var j :| 0 <= j < |k.upstream| && k.upstream[j] == f;
    }
  }

  lemma {:induction false} OpenKeepsInv(k: Setting, c0: int64, s: State, id: nat, policy: bool)
    requires Inv(k, c0, s) && Enabled(k, s, Open(id, policy))
    ensures Inv(k, c0, Apply(k, s, Open(id, policy)))
  {
  }

  lemma {:induction false} HandleKeepsInv(k: Setting, c0: int64, s: State, step: Step)
    requires Inv(k, c0, s) && step.Handle? && Enabled(k, s, step)
    ensures Inv(k, c0, Apply(k, s, step))
  {
    hide Store.Minted, Kept, Present, EventOf;
    var t, session := Apply(k, s, step), s.sessions[step.id];
    if Kept(step.f.labels, session.policy) != [] {
      var e := EventOf(k.did, step.f, session.policy);
      var op := Store.Ingest(e, step.now, step.skip, step.fault, false);
      SourcesGrow(k.c, s.world, op);
      assert Store.Minted(k.c, s.world.db, e, step.now, step.skip, step.fault).Some? ==>
          t.world.sources == s.world.sources + [e];
    }
    InvStays(k, c0, s, s.(world := t.world, passed := t.passed));
  }

  lemma {:induction false} WriteKeepsInv(k: Setting, c0: int64, s: State, step: Step)
    requires Ordered(k.upstream) && Inv(k, c0, s) && step.WriteBookmark? && Enabled(k, s, step)
    ensures Inv(k, c0, Apply(k, s, step))
  {
    hide Done, DoneUpTo;
    PastNext(k, c0, s.passed, s.world.sources, s.sessions[step.id]);
  }

  lemma {:induction false} OthersKeepInv(k: Setting, c0: int64, s: State, step: Step)
    requires Inv(k, c0, s) && Enabled(k, s, step)
    requires step.End? || step.Crash? || step.OtherStore? || step.OtherRegistry?
    ensures Inv(k, c0, Apply(k, s, step))
  {
    hide Store.Step, Done;
    var t := Apply(k, s, step);
    match step {
      case OtherStore(op) => SourcesGrow(k.c, s.world, op);
      case OtherRegistry(change) => Registry.BookmarkMovesOnlyByWrite(s.table, change, k.did);
      case _ =>
    }
    InvStays(k, c0, s, t.(table := s.table));
  }

  lemma {:induction false} ReachableInv(k: Setting, c0: int64, s: State, steps: seq<Step>)
    requires Init(k, c0, s) && Runnable(k, s, steps)
    ensures Inv(k, c0, Run(k, s, steps))
    decreases |steps|
  {
    if steps != [] {
      hide Inv, Enabled, Apply;
      var before, last := Run(k, s, steps[..|steps| - 1]), steps[|steps| - 1];
      ReachableInv(k, c0, s, steps[..|steps| - 1]);
      match last {
        case Open(id, policy) => OpenKeepsInv(k, c0, before, id, policy);
        case Handle(_, _, _, _, _) => HandleKeepsInv(k, c0, before, last);
        case WriteBookmark(_, _) => WriteKeepsInv(k, c0, before, last);
        case _ => OthersKeepInv(k, c0, before, last);
      }
    }
  }

  /**
   At-least-once ingest: from a bookmark c0, over any run of connections, failures, crashes and overlapping
   sessions, with the rest of the relay doing what it likes, every upstream frame above c0 up to the
   current bookmark was handled by some session, and either had nothing to keep under the policy of that
   session, or is committed with exactly what that policy keeps.
   */
  lemma {:induction false} AtLeastOnce(k: Setting, c0: int64, s: State, steps: seq<Step>)
    requires Init(k, c0, s) && Runnable(k, s, steps)
    ensures var t := Run(k, s, steps);
            && k.did in t.table && t.table[k.did].lastUpstreamSeq.Some?
            && forall f :: f in k.upstream && c0 < f.no <= t.table[k.did].lastUpstreamSeq.value ==>
                 Ingested(k, s, steps, f)
  {
    hide Apply, Enabled, Kept, EventOf;
    ReachableInv(k, c0, s, steps);
    var t := Run(k, s, steps);
    forall f | f in k.upstream && c0 < f.no <= t.table[k.did].lastUpstreamSeq.value
      ensures Ingested(k, s, steps, f)
    {
      var p :| (f, p) in t.passed && (Kept(f.labels, p) == [] || EventOf(k.did, f, p) in t.world.sources);
      PassedWasHandled(k, s, steps, f, p);
    }
  }

  lemma {:induction false} StepKeepsStore(k: Setting, s: State, step: Step)
    requires SelfDelimiting(k.c) && Store.WorldInv(k.c, s.world) && Enabled(k, s, step)
    ensures Store.WorldInv(k.c, Apply(k, s, step).world)
  {
    hide SelfDelimiting, Store.WorldInv, Store.Step, Kept, EventOf, Next;
    match step {
      case Handle(id, f, now, skip, fault) =>
        Store.StepKeepsWorld(k.c, s.world, Store.Ingest(EventOf(k.did, f, s.sessions[id].policy), now, skip, fault, false));
      case OtherStore(op) => Store.StepKeepsWorld(k.c, s.world, op);
      case Crash => Store.BootKeepsWorld(k.c, s.world);
      case _ =>
    }
  }

  /** The store of a run is a store the relay can reach. */
  lemma {:induction false} StoreReachable(k: Setting, s: State, steps: seq<Step>)
    requires SelfDelimiting(k.c) && Store.WorldInv(k.c, s.world) && Runnable(k, s, steps)
    ensures Store.WorldInv(k.c, Run(k, s, steps).world)
    decreases |steps|
  {
    hide SelfDelimiting, Store.WorldInv, Apply, Enabled;
    if steps != [] {
      StoreReachable(k, s, steps[..|steps| - 1]);
      StepKeepsStore(k, Run(k, s, steps[..|steps| - 1]), steps[|steps| - 1]);
    }
  }

  /** What is committed for a frame can be read back: upstream seq, labeler and the kept labels. */
  lemma {:induction false} CommittedFrameReadsBack(k: Setting, past: seq<Store.Op>, s: State, steps: seq<Step>, f: Frame, p: bool)
    requires SelfDelimiting(k.c) && s.world == Store.Run(k.c, past) && Runnable(k, s, steps)
    requires EventOf(k.did, f, p) in Run(k, s, steps).world.sources
    ensures exists row :: row in Run(k, s, steps).world.committed
                          && Decode(k.c, LabelsShape, row.event.frame)
                             == Ok((Labels(row.event.relaySeq, k.did, Present(Kept(f.labels, p)), f.no), []))
  {
    Store.GlobalSequencing(k.c, past);
    StoreReachable(k, s, steps);
    var w, e := Run(k, s, steps).world, EventOf(k.did, f, p);
    var i :| 0 <= i < |w.sources| && w.sources[i] == e;
    assert Store.SelfDescribing(k.c, w.committed[i], e);
  }

  lemma OneMoreStep(k: Setting, s: State, steps: seq<Step>, step: Step)
    requires Runnable(k, s, steps) && Enabled(k, Run(k, s, steps), step)
    ensures Runnable(k, s, steps + [step])
    ensures Run(k, s, steps + [step]) == Apply(k, Run(k, s, steps), step)
  {
    assert (steps + [step])[..|steps|] == steps;
  }

  lemma HandleCommits(k: Setting, s: State, step: Step)
    requires step.Handle? && Enabled(k, s, step) && Kept(step.f.labels, s.sessions[step.id].policy) != []
    requires var e := EventOf(k.did, step.f, s.sessions[step.id].policy);
             Store.Minted(k.c, s.world.db, e, step.now, step.skip, step.fault).Some?
    ensures var e := EventOf(k.did, step.f, s.sessions[step.id].policy);
            && Apply(k, s, step).world.sources == s.world.sources + [e]
            && Apply(k, s, step).world.db
               == Store.Insert(s.world.db, Store.Minted(k.c, s.world.db, e, step.now, step.skip, step.fault))
            && Apply(k, s, step).table == s.table
  {
  }

  /** At least once, not exactly once: a crash between the commit and the bookmark repeats the frame. */
  lemma {:induction false} CrashRepeatsFrame(k: Setting, c0: int64, s: State, f: Frame, p: bool, now: int)
    requires Init(k, c0, s) && Next(k.upstream, c0, f) && Kept(f.labels, p) != []
    requires var e, db := EventOf(k.did, f, p), s.world.db;
             var first := Store.Minted(k.c, db, e, now, 0, Store.NoFault);
             first.Some? && Store.Minted(k.c, Store.Insert(db, first), e, now, 0, Store.NoFault).Some?
    ensures var e, handle := EventOf(k.did, f, p), Handle(0, f, now, 0, Store.NoFault);
            var steps := [] + [Open(0, p)] + [handle] + [Crash] + [Open(0, p)] + [handle];
            Runnable(k, s, steps) && Run(k, s, steps).world.sources == s.world.sources + [e, e]
  {
    hide Store.Minted, Store.Step, EventOf, Kept;
    var handle := Handle(0, f, now, 0, Store.NoFault);
    var a := [] + [Open(0, p)];
    OneMoreStep(k, s, [], Open(0, p));
    OneMoreStep(k, s, a, handle);
    HandleCommits(k, Run(k, s, a), handle);
    var b := a + [handle] + [Crash];
    OneMoreStep(k, s, a + [handle], Crash);
    OneMoreStep(k, s, b, Open(0, p));
    OneMoreStep(k, s, b + [Open(0, p)], handle);
    HandleCommits(k, Run(k, s, b + [Open(0, p)]), handle);
  }
}

/** One subscription's frame handler over the shared registry and store (subscription.go:139-193). */
module IngestObject {
  import opened Prelude
  import opened MapCodec
  import opened Structs
  import Frames
  import opened SlurperPolicy
  import opened IngestSpec
  import Registry = RegistrySpec
  import RegistryObject
  import Store = StoreSpec
  import LabelPersistObject

  class FrameHandler {
    const labeler: Registry.Labeler
    const sigDefault: bool
    const registry: RegistryObject.LabelerRegistry
    const persist: LabelPersistObject.LabelPersist

    constructor (labeler: Registry.Labeler, sigDefault: bool, registry: RegistryObject.LabelerRegistry,
                 persist: LabelPersistObject.LabelPersist)
      ensures this.labeler == labeler && this.sigDefault == sigDefault
      ensures this.registry == registry && this.persist == persist
    {
      this.labeler, this.sigDefault, this.registry, this.persist := labeler, sigDefault, registry, persist;
    }

    function Policy(): bool {
      SigRequired(labeler.requireSig, sigDefault)
    }

    /** `waits(i)` says whether the limiter lets the i-th label through before the context is cancelled. */
    method KeepLabels(labels: seq<Label>, waits: nat -> bool) returns (ok: bool, kept: seq<Label>)
      ensures ok <==> forall i :: 0 <= i < |labels| ==> waits(i)
      ensures ok ==> kept == Kept(labels, Policy()) && KeptUnder(labeler.requireSig, sigDefault, kept, labels)
    {
      kept := [];
      for i := 0 to |labels|
        invariant forall j :: 0 <= j < i ==> waits(j)
        invariant kept == Kept(labels[..i], Policy())
      {
        if !waits(i) {
          return false, kept;
        }
        assert labels[..i + 1][..i] == labels[..i];
        if !KeepLabel(labels[i], Policy()) {
          continue;
        }
        kept := kept + [labels[i]];
      }
      assert labels[..|labels|] == labels;
      PolicyDecides(labeler.requireSig, sigDefault, labels);
      ok := true;
    }

    /**
     Persist what is kept, then move the bookmark: never the other way round, and not at all when the limiter
     or the store fails. A frame with nothing to keep only moves the bookmark.
     */
    method HandleLabelLabels(f: Frame, waits: nat -> bool, now: int, skip: nat, fault: Store.Fault, writeOk: bool)
      returns (ok: bool, ghost kept: seq<Label>)
      requires registry.Valid() && persist.Valid() && (persist.broadcaster != null ==> persist.broadcaster.Valid())
      modifies registry, persist`rows, persist`lastId, persist.broadcaster,
               if persist.broadcaster == null then [] else persist.broadcaster.all
      ensures registry.Valid() && persist.Valid() && (persist.broadcaster != null ==> persist.broadcaster.Valid())
      ensures KeptUnder(labeler.requireSig, sigDefault, kept, f.labels)
      ensures persist.lastId != old(persist.lastId) && SelfDelimiting(persist.codecs) ==>
                && kept != [] && |persist.rows| == |old(persist.rows)| + 1 && old(persist.rows) <= persist.rows
                && var row := persist.rows[|persist.rows| - 1];
                   row.ingestTs == now && row.event.did == labeler.did && row.event.kind == "labels"
                   && Store.Carries(persist.codecs, row.event.frame,
                                    Labels(row.event.relaySeq, labeler.did, Present(kept), f.no))
      ensures ok && kept != [] ==> persist.lastId != old(persist.lastId)
      ensures var waited := forall i :: 0 <= i < |f.labels| ==> waits(i);
              var row := if !waited then None
                         else RowFor(persist.codecs, labeler.did, old(persist.Table()), f, Policy(), now, skip, fault);
              var handled := waited && (kept == [] || row.Some?);
              && persist.Table() == Store.Insert(old(persist.Table()), row)
              && (persist.broadcaster != null ==>
                    persist.broadcaster.sent == old(persist.broadcaster.sent) + (if row.Some? then [row.value.event] else []))
              && registry.rows == (if handled && writeOk
                                   then Registry.Apply(old(registry.rows), Registry.WriteCursor(labeler.did, f.no))
                                   else old(registry.rows))
              && (ok <==> handled && writeOk && labeler.did in old(registry.rows))
    {
      hide Store.Minted, Registry.Apply, Kept, KeptUnder, Store.Carries, Store.Storable, SelfDelimiting;
      kept := Kept(f.labels, Policy());
      PolicyDecides(labeler.requireSig, sigDefault, f.labels);
      var waited, labels := KeepLabels(f.labels, waits);
      if !waited {
        return false, kept;
      }
      if |labels| == 0 {
        ok := registry.WriteCursor(labeler.did, f.no, writeOk);
        return;
      }
      var persisted := persist.PersistIngest(
        Frames.IngestEvent("labels", labeler.did, Some(f.no), Present(labels), "", None), now, skip, fault);
      if persisted.Err? {
        return false, kept;
      }
      ok := registry.WriteCursor(labeler.did, f.no, writeOk);
    }
  }
}
