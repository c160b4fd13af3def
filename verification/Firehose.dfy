/** The firehose bookmark over any sequence of sessions (watcher.go:124-174, 258-294). */
module FirehoseSpec {
  import opened Prelude

  /** The watcher's cursor batching fields, and the cursor in the meta table. */
  datatype Batch = Batch(pending: Option<int64>, count: nat, lastFlush: int, stored: Option<int64>)

  datatype Thresholds = Thresholds(flushEvery: int, interval: int) {
    function Every(): nat {
      if flushEvery <= 0 then 100 else flushEvery
    }

    function Interval(): nat {
      if interval <= 0 then 5_000_000_000 else interval
    }
  }

  /** The clock when the thresholds are checked and after the write, and whether the write succeeds. */
  datatype Flush = Flush(now: int, later: int, setOk: bool)

  function Reset(b: Batch, now: int): Batch {
    Batch(None, 0, now, b.stored)
  }

  predicate Due(th: Thresholds, b: Batch, now: int) {
    b.count + 1 >= th.Every() || now - b.lastFlush >= th.Interval()
  }

  function Stage(th: Thresholds, b: Batch, no: int64, flush: Flush): Batch {
    if Due(th, b, flush.now) && flush.setOk then Batch(None, 0, flush.later, Some(no))
    else b.(pending := Some(no), count := b.count + 1)
  }

  function Deferred(b: Batch, setOk: bool): Batch {
    if b.pending.Some? && setOk then b.(stored := b.pending) else b
  }

  /**
   A session: the last commit it is past, and its history: the staged commits no successful write covers,
   the last one staged, and whether every write so far succeeded.
   */
  datatype Session = Session(position: int, unflushed: seq<int64>, lastStaged: Option<int64>, clean: bool)

  datatype State = State(batch: Batch, session: Option<Session>, handled: set<int64>)

  /** The upstream's commits in order, by sequence number, and the thresholds. */
  datatype Setting = Setting(th: Thresholds, upstream: seq<int64>)

  datatype Step =
    | Dial(now: int, getOk: bool, start: int)          // `start`: where an upstream begins without a cursor
    | Commit(no: int64, extracts: bool, flush: Flush)
    | Exit(setOk: bool)                                // the deferred flush
    | Kill                                             // the process dies

  ghost predicate Ordered(nos: seq<int64>) {
    forall i, j :: 0 <= i < j < |nos| ==> nos[i] < nos[j]
  }

  ghost predicate Next(upstream: seq<int64>, position: int, no: int64) {
    no in upstream && position < no && forall m :: m in upstream && position < m ==> no <= m
  }

  ghost predicate Enabled(k: Setting, s: State, step: Step) {
    match step
    case Dial(_, _, _) => s.session.None?
    case Commit(no, _, _) => s.session.Some? && Next(k.upstream, s.session.value.position, no)
    case Exit(_) => s.session.Some?
    case Kill => true
  }

  function Record(th: Thresholds, b: Batch, session: Session, no: int64, flush: Flush): Session {
    var due := Due(th, b, flush.now);
    Session(no, if due && flush.setOk then [] else session.unflushed + [no], Some(no),
            session.clean && (due ==> flush.setOk))
  }

  ghost function Apply(k: Setting, s: State, step: Step): State
    requires Enabled(k, s, step)
  {
    match step
    case Dial(now, getOk, start) =>
      State(Reset(s.batch, now),
            Some(Session(if getOk && s.batch.stored.Some? then s.batch.stored.value else start, [], None, true)), s.handled)
    case Commit(no, extracts, flush) =>
      var session, handled := s.session.value, s.handled + {no};
      if !extracts then s.(session := Some(session.(position := no)), handled := handled)
      else State(Stage(k.th, s.batch, no, flush), Some(Record(k.th, s.batch, session, no, flush)), handled)
    case Exit(setOk) => State(Deferred(s.batch, setOk), None, s.handled)
    case Kill => s.(session := None)
  }

  ghost predicate Runnable(k: Setting, s: State, steps: seq<Step>)
    decreases |steps|, 0
  {
    steps != [] ==> Runnable(k, s, steps[..|steps| - 1])
                    && Enabled(k, Run(k, s, steps[..|steps| - 1]), steps[|steps| - 1])
  }

  ghost function Run(k: Setting, s: State, steps: seq<Step>): State
    requires Runnable(k, s, steps)
    decreases |steps|, 1
  {
    if steps == [] then s else Apply(k, Run(k, s, steps[..|steps| - 1]), steps[|steps| - 1])
  }

  ghost predicate Init(k: Setting, s: State) {
    Ordered(k.upstream) && s.session.None? && s.handled == {}
  }

  // ----- the bookmark is a handled commit, and not far behind

  ghost predicate SessionInv(k: Setting, b: Batch, session: Session, handled: set<int64>) {
    && b.count == |session.unflushed|
    && b.pending == (if session.unflushed == [] then None else Some(session.unflushed[|session.unflushed| - 1]))
    && (forall no :: no in session.unflushed ==> no in handled)
    && (session.clean ==> b.count < k.th.Every())
    && (session.lastStaged.Some? ==> b.pending == session.lastStaged || (b.pending.None? && b.stored == session.lastStaged))
    && (session.lastStaged.None? ==> session.unflushed == [])
  }

  ghost predicate Inv(k: Setting, initial: Option<int64>, s: State) {
    && (s.batch.stored == initial || (s.batch.stored.Some? && s.batch.stored.value in s.handled))
    && (s.session.Some? ==> SessionInv(k, s.batch, s.session.value, s.handled))
  }

  lemma {:induction false} BookmarkSafety(k: Setting, s: State, steps: seq<Step>)
    requires Init(k, s) && Runnable(k, s, steps)
    ensures Inv(k, s.batch.stored, Run(k, s, steps))
    decreases |steps|
  {
    if steps != [] {
      BookmarkSafety(k, s, steps[..|steps| - 1]);
    }
  }

  /** A session that ends with its deferred write succeeding leaves the last commit it staged as the bookmark. */
  lemma {:induction false} ExitKeepsLastStaged(k: Setting, s: State, steps: seq<Step>)
    requires Init(k, s) && Runnable(k, s, steps) && Run(k, s, steps).session.Some?
    ensures var t := Run(k, s, steps);
            Apply(k, t, Exit(true)).batch.stored
            == if t.session.value.lastStaged.Some? then t.session.value.lastStaged else t.batch.stored
  {
    BookmarkSafety(k, s, steps);
  }

  // ----- no commit is skipped

  ghost predicate CoveredTo(k: Setting, c0: int64, handled: set<int64>, to: int) {
    forall no :: no in k.upstream && c0 < no <= to ==> no in handled
  }

  /** Every commit after c0 up to the bookmark has reached the handler. */
  ghost predicate Skipless(k: Setting, c0: int64, s: State) {
    s.batch.stored.Some? && CoveredTo(k, c0, s.handled, s.batch.stored.value)
  }

  /** Nothing the watcher may store skips a commit; a session that starts past the end of the upstream stores nothing. */
  ghost predicate Gapless(k: Setting, c0: int64, s: State) {
    && Skipless(k, c0, s)
    && (s.batch.pending.Some? && s.session.Some? ==> CoveredTo(k, c0, s.handled, s.batch.pending.value))
    && (s.session.Some? ==> CoveredTo(k, c0, s.handled, s.session.value.position)
                            || (s.batch.pending.None? && NothingAbove(k, s.session.value.position)))
  }

  ghost predicate NothingAbove(k: Setting, position: int) {
    forall no :: no in k.upstream ==> no <= position
  }

  /** Where a session starts: after the bookmark, or where the upstream likes when there is none to ask from. */
  function StartOf(s: State, dial: Step): int
    requires dial.Dial?
  {
    if dial.getOk && s.batch.stored.Some? then s.batch.stored.value else dial.start
  }

  predicate AlwaysReadsCursor(steps: seq<Step>) {
    forall i :: 0 <= i < |steps| && steps[i].Dial? ==> steps[i].getOk
  }

  /** From a gapless state, as long as every dial can read the bookmark, no commit is ever skipped. */
  lemma {:induction false} StaysGapless(k: Setting, c0: int64, s: State, steps: seq<Step>)
    requires Gapless(k, c0, s) && Runnable(k, s, steps) && AlwaysReadsCursor(steps)
    ensures Gapless(k, c0, Run(k, s, steps))
    decreases |steps|
  {
    if steps != [] {
      StaysGapless(k, c0, s, steps[..|steps| - 1]);
    }
  }

  /** In particular from a first bookmark. */
  lemma NoCommitSkipped(k: Setting, c0: int64, s: State, steps: seq<Step>)
    requires Init(k, s) && Runnable(k, s, steps) && AlwaysReadsCursor(steps) && s.batch.stored == Some(c0)
    ensures Skipless(k, c0, Run(k, s, steps))
  {
    StaysGapless(k, c0, s, steps);
  }

  lemma OneMoreStep(k: Setting, s: State, steps: seq<Step>, step: Step)
    requires Runnable(k, s, steps) && Enabled(k, Run(k, s, steps), step)
    ensures Runnable(k, s, steps + [step]) && Run(k, s, steps + [step]) == Apply(k, Run(k, s, steps), step)
  {
    assert (steps + [step])[..|steps|] == steps;
  }

  /** After a dial, a run that reads the bookmark from then on can make it skip a commit. */
  ghost predicate CanSkip(k: Setting, c0: int64, s: State) {
    exists steps :: Runnable(k, s, steps) && AlwaysReadsCursor(steps) && !Skipless(k, c0, Run(k, s, steps))
  }

  lemma {:induction false} LeastAbove(upstream: seq<int64>, position: int, no: int64) returns (least: int64)
    requires no in upstream && position < no
    ensures Next(upstream, position, least)
    decreases no - position
  {
    if m :| m in upstream && position < m < no {
      least := LeastAbove(upstream, position, m);
    } else {
      least := no;
    }
  }

  /** Its first write that is due takes the bookmark past the commits between. */
  lemma UncoveredStartSkips(k: Setting, c0: int64, s: State, dial: Step)
    requires Gapless(k, c0, s) && dial.Dial? && Enabled(k, s, dial)
    requires !CoveredTo(k, c0, s.handled, StartOf(s, dial)) && !NothingAbove(k, StartOf(s, dial))
    ensures CanSkip(k, c0, Apply(k, s, dial))
  {
    var t, position := Apply(k, s, dial), StartOf(s, dial);
    var missed :| missed in k.upstream && c0 < missed <= position && missed !in s.handled;
    var no :| no in k.upstream && position < no;
    var next := LeastAbove(k.upstream, position, no);
    var commit := Commit(next, true, Flush(dial.now + k.th.Interval(), dial.now, true));
    OneMoreStep(k, t, [], commit);
    assert Run(k, t, [] + [commit]).batch.stored == Some(next) && missed !in Run(k, t, [] + [commit]).handled;
    assert AlwaysReadsCursor([] + [commit]);
  }

  /**
   A dial can make the bookmark skip a commit exactly when a commit after c0, up to where its session starts,
   has not reached the handler, and the upstream has anything after that start. A dial that reads the bookmark
   never can.
   */
  lemma DialSkipsExactly(k: Setting, c0: int64, s: State, dial: Step)
    requires Gapless(k, c0, s) && dial.Dial? && Enabled(k, s, dial)
    ensures CanSkip(k, c0, Apply(k, s, dial))
            <==> !CoveredTo(k, c0, s.handled, StartOf(s, dial)) && !NothingAbove(k, StartOf(s, dial))
    ensures dial.getOk ==> !CanSkip(k, c0, Apply(k, s, dial))
  {
    if !CoveredTo(k, c0, s.handled, StartOf(s, dial)) && !NothingAbove(k, StartOf(s, dial)) {
      UncoveredStartSkips(k, c0, s, dial);
    } else {
      var t := Apply(k, s, dial);
      assert Gapless(k, c0, t);
      forall steps | Runnable(k, t, steps) && AlwaysReadsCursor(steps) ensures Skipless(k, c0, Run(k, t, steps)) {
        StaysGapless(k, c0, t, steps);
      }
    }
  }

  /** And it does happen: the bookmark cannot be read, and the upstream starts past a commit that was never handled. */
  lemma FailedReadCanSkip(k: Setting, s: State, missed: int64, no: int64, now: int)
    requires Init(k, s) && s.batch.stored.Some? && missed in k.upstream && no in k.upstream
    requires s.batch.stored.value < missed < no
    ensures CanSkip(k, s.batch.stored.value, Apply(k, s, Dial(now, false, missed)))
  {
    DialSkipsExactly(k, s.batch.stored.value, s, Dial(now, false, missed));
  }
}

/** The watcher itself (watcher.go:24, 191-294): commits change the registry, the store and the cursor batch. */
module FirehoseObject {
  import opened Prelude
  import opened MapCodec
  import opened Structs
  import Frames
  import opened FirehoseSpec
  import Registry = RegistrySpec
  import RegistryObject
  import Store = StoreSpec
  import LabelPersistObject

  /** A labeler service record that a commit creates, updates or deletes. */
  datatype ServiceOp = ServiceOp(did: Text, action: Text, record: Option<Record>)

  datatype Resolution = Resolved(endpoint: Text) | NoEndpoint | Unresolved(error: Text)

  /** How the outside world answers while one such operation is processed. */
  datatype Answer = Answer(resolution: Resolution, dbOk: bool, now: int, skip: nat, fault: Store.Fault)

  const NO_ENDPOINT: Text := "no atproto_labeler service endpoint"

  predicate Discovers(op: ServiceOp) {
    op.action == "create" || op.action == "update"
  }

  /** The statement an operation runs on the registry, if it runs one that succeeds. */
  function StatementFor(op: ServiceOp, a: Answer, enabled: bool): seq<Registry.Op> {
    if !Discovers(op) || !a.dbOk then []
    else match a.resolution
      case NoEndpoint => [Registry.RecordError(op.did, NO_ENDPOINT, a.now)]
      case Unresolved(error) => [Registry.RecordError(op.did, error, a.now)]
      case Resolved(endpoint) =>
        [Registry.Upsert(Registry.Labeler(op.did, endpoint, Registry.FIREHOSE, enabled, None, None, "", a.now))]
  }

  function EventOf(op: ServiceOp): Frames.IngestEvent {
    Frames.IngestEvent("service", op.did, None, [], op.action, op.record)
  }

  /** The operation upserts its labeler. */
  predicate Upserts(op: ServiceOp, a: Answer) {
    Discovers(op) && a.dbOk && a.resolution.Resolved?
  }

  /** The event it commits: only after its labeler has been upserted. */
  function RowFor(c: Codecs, db: Store.Db, op: ServiceOp, a: Answer): Option<Store.Row> {
    if Upserts(op, a) then Store.Minted(c, db, EventOf(op), a.now, a.skip, a.fault) else None
  }

  /** The table with an error recorded for a labeler, known or not. */
  function WithError(t: Registry.Table, did: Text, message: Text, now: int): Registry.Table {
    t[did := if did in t then t[did].(lastError := message, updatedAt := now)
             else Registry.Labeler(did, "", "firehose", false, None, None, message, now)]
  }

  /** Only a created or updated record whose statement succeeds leaves a trace in the registry. */
  lemma DiscoveryMeans(t: Registry.Table, op: ServiceOp, a: Answer, enabled: bool)
    ensures var u := Registry.Run(t, StatementFor(op, a, enabled));
            var known := op.did in t;
            if (op.action != "create" && op.action != "update") || !a.dbOk then u == t
            else if a.resolution.Resolved? then
              u == t[op.did := if known
                               then t[op.did].(endpoint := a.resolution.endpoint, lastError := "", updatedAt := a.now)
                               else Registry.Labeler(op.did, a.resolution.endpoint, "firehose", enabled, None, None, "", a.now)]
            else if a.resolution.NoEndpoint? then u == WithError(t, op.did, "no atproto_labeler service endpoint", a.now)
            else u == WithError(t, op.did, a.resolution.error, a.now)
  {
    hide Registry.Apply;
    var sts := StatementFor(op, a, enabled);
    if sts != [] {
      assert sts[..0] == [];
      if a.resolution.Resolved? {
        Registry.UpsertMeans(t, sts[0].row);
      } else {
        Registry.SettersMean(t, op.did, false, None, 0, sts[0].message, a.now);
      }
    }
  }

  /** An event is committed for it exactly after a successful upsert, and carries the record as it was found. */
  lemma {:induction false} DiscoveryCommits(c: Codecs, db: Store.Db, op: ServiceOp, a: Answer)
    requires SelfDelimiting(c)
    ensures RowFor(c, db, op, a).Some? <==>
              && (op.action == "create" || op.action == "update") && a.resolution.Resolved? && a.dbOk
              && a.fault.NoFault? && db.lastId + 1 + a.skip < TWO_63
              && |op.did| <= 8192 && (op.record.Some? ==> c.encRecord(op.record.value).Some?)
    ensures RowFor(c, db, op, a).Some? ==>
              var row := RowFor(c, db, op, a).value;
              && row.event.relaySeq == db.lastId + 1 + a.skip && row.event.did == op.did && row.event.kind == "service"
              && row.upstreamSeq == None && row.ingestTs == a.now
              && Store.Carries(c, row.event.frame, Service(op.action, row.event.relaySeq, op.did, op.record))
  {
    hide Store.Minted, Store.Carries, SelfDelimiting;
    if Upserts(op, a) {
      Store.MintedExactly(c, db, EventOf(op), a.now, a.skip, a.fault);
      if RowFor(c, db, op, a).Some? {
        Store.MintedDescribes(c, db, EventOf(op), a.now, a.skip, a.fault);
      }
    }
  }

  /** What the operations of a commit do in turn: registry statements, the store, and pokes. */
  function Statements(ops: seq<ServiceOp>, answers: nat -> Answer, enabled: bool): seq<Registry.Op> {
    if ops == [] then []
    else
      var n := |ops| - 1;
      Statements(ops[..n], answers, enabled) + StatementFor(ops[n], answers(n), enabled)
  }

  function Stored(c: Codecs, db: Store.Db, ops: seq<ServiceOp>, answers: nat -> Answer): Store.Db {
    if ops == [] then db
    else
      var n := |ops| - 1;
      var before := Stored(c, db, ops[..n], answers);
      Store.Insert(before, RowFor(c, before, ops[n], answers(n)))
  }

  function Pokes(c: Codecs, db: Store.Db, ops: seq<ServiceOp>, answers: nat -> Answer): nat {
    if ops == [] then 0
    else
      var n := |ops| - 1;
      Pokes(c, db, ops[..n], answers)
      + if RowFor(c, Stored(c, db, ops[..n], answers), ops[n], answers(n)).Some? then 1 else 0
  }

  lemma AtMostOneAutomatic(op: ServiceOp, a: Answer, enabled: bool)
    ensures var sts := StatementFor(op, a, enabled);
            sts == [] || (|sts| == 1 && Registry.Automatic(sts[0]))
  {
  }

  lemma {:induction false} OnlyAutomatic(ops: seq<ServiceOp>, answers: nat -> Answer, enabled: bool)
    ensures Registry.OperatorsOnly(Statements(ops, answers, enabled)) == []
  {
    hide StatementFor, Registry.Automatic;
    if ops != [] {
      var n := |ops| - 1;
      OnlyAutomatic(ops[..n], answers, enabled);
      AtMostOneAutomatic(ops[n], answers(n), enabled);
      var sts, last := Statements(ops, answers, enabled), StatementFor(ops[n], answers(n), enabled);
      assert last == [] ==> sts == Statements(ops[..n], answers, enabled);
      assert last != [] ==> sts[..|sts| - 1] == Statements(ops[..n], answers, enabled);
    }
  }

  /** The watcher only discovers: for a labeler already registered it never decides source, enabled or require_sig. */
  lemma {:induction false} WatcherKeepsPolicy(t: Registry.Table, ops: seq<ServiceOp>, answers: nat -> Answer,
                                              enabled: bool, did: Text)
    requires did in t
    ensures var u := Registry.Run(t, Statements(ops, answers, enabled));
            did in u && Registry.Policy(u[did]) == Registry.Policy(t[did])
  {
    hide Statements;
    OnlyAutomatic(ops, answers, enabled);
    Registry.DiscoveryNeverInterferes(t, Statements(ops, answers, enabled), did);
  }

  lemma {:induction false} OneMoreOp(t: Registry.Table, ops: seq<ServiceOp>, i: nat, answers: nat -> Answer, enabled: bool)
    requires i < |ops|
    ensures Registry.Run(t, Statements(ops[..i + 1], answers, enabled))
            == Registry.Run(Registry.Run(t, Statements(ops[..i], answers, enabled)), StatementFor(ops[i], answers(i), enabled))
  {
    hide StatementFor, Registry.Apply;
    AtMostOneAutomatic(ops[i], answers(i), enabled);
    assert ops[..i + 1][..i] == ops[..i];
    var sts, last := Statements(ops[..i + 1], answers, enabled), StatementFor(ops[i], answers(i), enabled);
    if last == [] {
      assert sts == Statements(ops[..i], answers, enabled);
    } else {
      assert sts[..|sts| - 1] == Statements(ops[..i], answers, enabled);
      assert last[..0] == [];
    }
  }

  /** One commit as a connection delivers it. */
  datatype Delivery = Delivery(no: int64, extracted: Option<seq<ServiceOp>>, answers: nat -> Answer, flush: Flush)

  /** The cursor batch after the commits of a connection. */
  function AfterAll(th: Thresholds, b: Batch, ds: seq<Delivery>): Batch {
    if ds == [] then b
    else
      var d, before := ds[|ds| - 1], AfterAll(th, b, ds[..|ds| - 1]);
      if d.extracted.None? then before else Stage(th, before, d.no, d.flush)
  }

  function OpsOf(d: Delivery): seq<ServiceOp> {
    if d.extracted.Some? then d.extracted.value else []
  }

  /** The registry, the store and the pokes after the commits of a connection. */
  function RegistryAfter(t: Registry.Table, ds: seq<Delivery>, enabled: bool): Registry.Table {
    if ds == [] then t
    else
      var d := ds[|ds| - 1];
      Registry.Run(RegistryAfter(t, ds[..|ds| - 1], enabled), Statements(OpsOf(d), d.answers, enabled))
  }

  function StoreAfter(c: Codecs, db: Store.Db, ds: seq<Delivery>): Store.Db {
    if ds == [] then db
    else
      var d := ds[|ds| - 1];
      Stored(c, StoreAfter(c, db, ds[..|ds| - 1]), OpsOf(d), d.answers)
  }

  function PokesIn(c: Codecs, db: Store.Db, ds: seq<Delivery>): nat {
    if ds == [] then 0
    else
      var d := ds[|ds| - 1];
      PokesIn(c, db, ds[..|ds| - 1]) + Pokes(c, StoreAfter(c, db, ds[..|ds| - 1]), OpsOf(d), d.answers)
  }

  lemma OneMoreDelivery(c: Codecs, t: Registry.Table, db: Store.Db, th: Thresholds, b: Batch, ds: seq<Delivery>,
                        i: nat, enabled: bool)
    requires i < |ds|
    ensures var d, before := ds[i], ds[..i];
            && RegistryAfter(t, ds[..i + 1], enabled)
               == Registry.Run(RegistryAfter(t, before, enabled), Statements(OpsOf(d), d.answers, enabled))
            && StoreAfter(c, db, ds[..i + 1]) == Stored(c, StoreAfter(c, db, before), OpsOf(d), d.answers)
            && PokesIn(c, db, ds[..i + 1]) == PokesIn(c, db, before) + Pokes(c, StoreAfter(c, db, before), OpsOf(d), d.answers)
            && AfterAll(th, b, ds[..i + 1])
               == if d.extracted.None? then AfterAll(th, b, before) else Stage(th, AfterAll(th, b, before), d.no, d.flush)
  {
    hide Registry.Run, Statements, Stored, Pokes, Stage;
    assert ds[..i + 1][..i] == ds[..i];
  }

  /** A whole connection only discovers, too. */
  lemma {:induction false} ConnectionKeepsPolicy(t: Registry.Table, ds: seq<Delivery>, enabled: bool, did: Text)
    requires did in t
    ensures var u := RegistryAfter(t, ds, enabled);
            did in u && Registry.Policy(u[did]) == Registry.Policy(t[did])
  {
    hide Statements, Registry.Run, Registry.Policy;
    if ds != [] {
      var d := ds[|ds| - 1];
      ConnectionKeepsPolicy(t, ds[..|ds| - 1], enabled, did);
      WatcherKeepsPolicy(RegistryAfter(t, ds[..|ds| - 1], enabled), OpsOf(d), d.answers, enabled, did);
    }
  }

  function StepsOf(ds: seq<Delivery>): seq<Step> {
    if ds == [] then []
    else StepsOf(ds[..|ds| - 1]) + [Commit(ds[|ds| - 1].no, ds[|ds| - 1].extracted.Some?, ds[|ds| - 1].flush)]
  }

  /** A dial method's effect on the batch is that of the session's steps. */
  lemma {:induction false} DialIsItsSteps(k: Setting, s: State, now: int, getOk: bool, start: int, ds: seq<Delivery>)
    requires Runnable(k, s, [Dial(now, getOk, start)] + StepsOf(ds))
    ensures var t := Run(k, s, [Dial(now, getOk, start)] + StepsOf(ds));
            && t.batch == AfterAll(k.th, Reset(s.batch, now), ds) && t.session.Some?
            && forall exitOk :: Apply(k, t, Exit(exitOk)).batch == Deferred(t.batch, exitOk)
  {
    var steps := [Dial(now, getOk, start)] + StepsOf(ds);
    if ds == [] {
      assert steps[..0] == [];
    } else {
      assert steps[..|steps| - 1] == [Dial(now, getOk, start)] + StepsOf(ds[..|ds| - 1]);
      DialIsItsSteps(k, s, now, getOk, start, ds[..|ds| - 1]);
    }
  }

  class FirehoseWatcher {
    const thresholds: Thresholds
    const autoSubscribe: bool
    const registry: RegistryObject.LabelerRegistry
    const persist: LabelPersistObject.LabelPersist
    var pendingSeq: Option<int64>
    var commitCount: nat
    var lastFlushTime: int
    var firehoseCursor: Option<int64>          // the meta table's firehose_cursor
    var pokes: nat

    ghost predicate Valid()
      reads this, registry, persist, persist.broadcaster,
            if persist.broadcaster == null then [] else persist.broadcaster.all
    {
      registry.Valid() && persist.Valid() && (persist.broadcaster != null ==> persist.broadcaster.Valid())
    }

    ghost function View(): Batch
      reads this
    {
      Batch(pendingSeq, commitCount, lastFlushTime, firehoseCursor)
    }

    constructor (thresholds: Thresholds, autoSubscribe: bool, registry: RegistryObject.LabelerRegistry,
                 persist: LabelPersistObject.LabelPersist, cursor: Option<int64>)
      ensures this.registry == registry && this.persist == persist
      ensures View() == Batch(None, 0, 0, cursor) && pokes == 0
    {
      this.thresholds, this.autoSubscribe, this.registry, this.persist := thresholds, autoSubscribe, registry, persist;
      pendingSeq, commitCount, lastFlushTime, firehoseCursor, pokes := None, 0, 0, cursor, 0;
    }

    /** Stage a commit's seq, and write it once enough commits or enough time have passed. */
    method MaybeFlushCursor(no: int64, flush: Flush)
      modifies this`pendingSeq, this`commitCount, this`lastFlushTime, this`firehoseCursor
      ensures View() == Stage(thresholds, old(View()), no, flush)
      ensures var every := if thresholds.flushEvery <= 0 then 100 else thresholds.flushEvery;
              var interval := if thresholds.interval <= 0 then 5_000_000_000 else thresholds.interval;
              if flush.setOk && (old(commitCount) + 1 >= every || flush.now - old(lastFlushTime) >= interval) then
                firehoseCursor == Some(no) && pendingSeq == None && commitCount == 0 && lastFlushTime == flush.later
              else
                && firehoseCursor == old(firehoseCursor) && pendingSeq == Some(no) && commitCount == old(commitCount) + 1
                && lastFlushTime == old(lastFlushTime)
    {
      pendingSeq := Some(no);
      commitCount := commitCount + 1;
      var flushEvery := thresholds.flushEvery;
      if flushEvery <= 0 {
        flushEvery := 100;
      }
      var flushInterval := thresholds.interval;
      if flushInterval <= 0 {
        flushInterval := 5_000_000_000;
      }
      if commitCount < flushEvery && flush.now - lastFlushTime < flushInterval {
        return;
      }
      if !flush.setOk {
        return;
      }
      firehoseCursor := Some(no);
      pendingSeq := None;
      commitCount := 0;
      lastFlushTime := flush.later;
    }

    method ProcessOp(op: ServiceOp, a: Answer)
      requires Valid()
      modifies this`pokes, registry, persist`rows, persist`lastId, persist.broadcaster,
               if persist.broadcaster == null then [] else persist.broadcaster.all
      ensures Valid() && (persist.broadcaster != null ==> persist.broadcaster.all == old(persist.broadcaster.all))
      ensures registry.rows == Registry.Run(old(registry.rows), StatementFor(op, a, autoSubscribe))
      ensures var row := RowFor(persist.codecs, old(persist.Table()), op, a);
              persist.Table() == Store.Insert(old(persist.Table()), row) && pokes == old(pokes) + if row.Some? then 1 else 0
    {
      hide Store.Minted, Store.Storable, Store.SelfDescribing, SelfDelimiting, Registry.Apply;
      if !Discovers(op) {
        return;
      }
      ghost var st := StatementFor(op, a, autoSubscribe);
      assert st != [] ==> st[..0] == [] && st == [st[0]];
      match a.resolution {
        case NoEndpoint =>
          var recorded := registry.RecordError(op.did, NO_ENDPOINT, a.now, a.dbOk);
        case Unresolved(error) =>
          var recorded := registry.RecordError(op.did, error, a.now, a.dbOk);
        case Resolved(endpoint) =>
          var labeler := Registry.Labeler(op.did, endpoint, Registry.FIREHOSE, autoSubscribe, None, None, "", a.now);
          var upserted := registry.Upsert(labeler, a.dbOk);
          if !upserted {
            return;
          }
          var persisted := persist.PersistIngest(EventOf(op), a.now, a.skip, a.fault);
          if persisted.Err? {
            return;
          }
          pokes := pokes + 1;
      }
    }

    method ProcessOps(ops: seq<ServiceOp>, answers: nat -> Answer)
      requires Valid()
      modifies this`pokes, registry, persist`rows, persist`lastId, persist.broadcaster,
               if persist.broadcaster == null then [] else persist.broadcaster.all
      ensures Valid() && (persist.broadcaster != null ==> persist.broadcaster.all == old(persist.broadcaster.all))
      ensures registry.rows == Registry.Run(old(registry.rows), Statements(ops, answers, autoSubscribe))
      ensures persist.Table() == Stored(persist.codecs, old(persist.Table()), ops, answers)
      ensures pokes == old(pokes) + Pokes(persist.codecs, old(persist.Table()), ops, answers)
    {
      for i := 0 to |ops|
        invariant Valid() && (persist.broadcaster != null ==> persist.broadcaster.all == old(persist.broadcaster.all))
        invariant registry.rows == Registry.Run(old(registry.rows), Statements(ops[..i], answers, autoSubscribe))
        invariant persist.Table() == Stored(persist.codecs, old(persist.Table()), ops[..i], answers)
        invariant pokes == old(pokes) + Pokes(persist.codecs, old(persist.Table()), ops[..i], answers)
      {
        hide Registry.Run, Registry.Apply, RowFor, StatementFor, Store.Insert, Statements;
        OneMoreOp(old(registry.rows), ops, i, answers, autoSubscribe);
        assert ops[..i + 1][..i] == ops[..i];
        ProcessOp(ops[i], answers(i));
      }
      assert ops[..|ops|] == ops;
    }

    /** A commit whose records cannot be extracted is logged and left behind. */
    method HandleCommit(no: int64, extracted: Option<seq<ServiceOp>>, answers: nat -> Answer, flush: Flush)
      requires Valid()
      modifies this`pokes, this`pendingSeq, this`commitCount, this`lastFlushTime, this`firehoseCursor,
               registry, persist`rows, persist`lastId, persist.broadcaster,
               if persist.broadcaster == null then [] else persist.broadcaster.all
      ensures Valid() && (persist.broadcaster != null ==> persist.broadcaster.all == old(persist.broadcaster.all))
      ensures var ops := if extracted.Some? then extracted.value else [];
              && registry.rows == Registry.Run(old(registry.rows), Statements(ops, answers, autoSubscribe))
              && persist.Table() == Stored(persist.codecs, old(persist.Table()), ops, answers)
              && pokes == old(pokes) + Pokes(persist.codecs, old(persist.Table()), ops, answers)
      ensures View() == if extracted.None? then old(View()) else Stage(thresholds, old(View()), no, flush)
    {
      hide Registry.Apply, RowFor, StatementFor, Stage;
      if extracted.None? {
        return;
      }
      ProcessOps(extracted.value, answers);
      MaybeFlushCursor(no, flush);
    }

    method HandleAll(ds: seq<Delivery>)
      requires Valid()
      modifies this, registry, persist`rows, persist`lastId, persist.broadcaster,
               if persist.broadcaster == null then [] else persist.broadcaster.all
      ensures Valid()
      ensures registry.rows == RegistryAfter(old(registry.rows), ds, autoSubscribe)
      ensures persist.Table() == StoreAfter(persist.codecs, old(persist.Table()), ds)
      ensures pokes == old(pokes) + PokesIn(persist.codecs, old(persist.Table()), ds)
      ensures View() == AfterAll(thresholds, old(View()), ds)
    {
      for i := 0 to |ds|
        invariant Valid() && (persist.broadcaster != null ==> persist.broadcaster.all == old(persist.broadcaster.all))
        invariant registry.rows == RegistryAfter(old(registry.rows), ds[..i], autoSubscribe)
        invariant persist.Table() == StoreAfter(persist.codecs, old(persist.Table()), ds[..i])
        invariant pokes == old(pokes) + PokesIn(persist.codecs, old(persist.Table()), ds[..i])
        invariant View() == AfterAll(thresholds, old(View()), ds[..i])
      {
        hide Stage, Statements, Stored, Pokes, Registry.Run, RegistryAfter, StoreAfter, PokesIn, AfterAll, Valid;
        OneMoreDelivery(persist.codecs, old(registry.rows), old(persist.Table()), thresholds, old(View()), ds, i, autoSubscribe);
        HandleCommit(ds[i].no, ds[i].extracted, ds[i].answers, ds[i].flush);
      }
      assert ds[..|ds|] == ds;
    }

    /**
     One connection: reset the batch, ask from the stored cursor, handle what is delivered, and write what is
     still pending on the way out. `getOk` and `connects` say whether reading the cursor and dialling succeed.
     */
    method RunConnection(now: int, getOk: bool, connects: bool, ds: seq<Delivery>, exitOk: bool)
      returns (from: Option<int64>)
      requires Valid()
      modifies this, registry, persist`rows, persist`lastId, persist.broadcaster,
               if persist.broadcaster == null then [] else persist.broadcaster.all
      ensures Valid()
      ensures var handled := if connects then ds else [];
              && registry.rows == RegistryAfter(old(registry.rows), handled, autoSubscribe)
              && persist.Table() == StoreAfter(persist.codecs, old(persist.Table()), handled)
              && pokes == old(pokes) + PokesIn(persist.codecs, old(persist.Table()), handled)
      ensures from == if getOk then old(firehoseCursor) else None
      ensures !connects ==>
                pendingSeq == None && commitCount == 0 && lastFlushTime == now && firehoseCursor == old(firehoseCursor)
      ensures View() == if connects then Deferred(AfterAll(thresholds, Reset(old(View()), now), ds), exitOk)
                        else Reset(old(View()), now)
    {
      pendingSeq, commitCount, lastFlushTime := None, 0, now;
      from := if getOk then firehoseCursor else None;
      if !connects {
        return;
      }
      HandleAll(ds);
      if pendingSeq.Some? && exitOk {
        firehoseCursor := pendingSeq;
      }
    }
  }
}
