/** Registry writers, the capacity-1 poke channel and the reconcile loop, interleaved (slurper.go:202-232). */
module Wakeup {
  import opened Prelude
  import opened RegistrySpec
  import opened SlurperPolicy
  import SlurperSpec

  /** Where the loop is: in its select, in ListEnabled, or holding a listing it has not applied yet. */
  datatype Pc = Waiting | Listing | Applying(listing: seq<Labeler>)

  datatype State = State(
    tables: seq<Table>,      // the registry after each write so far; the last one is current
    poked: set<nat>,         // the versions of the registry whose writer has poked
    token: bool,             // what pokeCh holds
    pc: Pc,
    listed: int,             // the version the latest successful ListEnabled read, -1 before the first
    slurper: SlurperSpec.Slurper)

  datatype Step =
    | Write(op: RegistrySpec.Op)
    | Poke(version: nat)
    | ReceivePoke
    | Tick
    | ListReturns(result: Option<seq<Labeler>>)
    | Reconcile

  ghost predicate Init(s: State) {
    && |s.tables| == 1 && Keyed(s.tables[0]) && s.poked == {} && !s.token && !s.pc.Applying?
    && s.listed == -1 && s.slurper == SlurperSpec.IDLE
  }

  ghost predicate Enabled(s: State, step: Step) {
    match step
    case Write(_) => s.tables != []
    case Poke(version) => version < |s.tables|
    case ReceivePoke => s.pc.Waiting? && s.token
    case Tick => s.pc.Waiting?
    case ListReturns(None) => s.pc.Listing?
    case ListReturns(Some(listing)) => s.pc.Listing? && s.tables != [] && IsListing(Current(s), listing)
    case Reconcile => s.pc.Applying?
  }

  function Current(s: State): Table
    requires s.tables != []
  {
    s.tables[|s.tables| - 1]
  }

  ghost function Apply(s: State, step: Step): State
    requires Enabled(s, step)
  {
    match step
    case Write(op) => s.(tables := s.tables + [RegistrySpec.Apply(Current(s), op)])
    case Poke(version) => s.(poked := s.poked + {version}, token := true)
    case ReceivePoke => s.(token := false, pc := Listing)
    case Tick => s.(pc := Listing)
    case ListReturns(None) => s.(pc := Waiting)
    case ListReturns(Some(listing)) => s.(pc := Applying(listing), listed := |s.tables| - 1)
    case Reconcile => s.(slurper := SlurperSpec.Reconcile(s.slurper, s.pc.listing), pc := Waiting)
  }

  ghost predicate Runnable(s: State, steps: seq<Step>)
    decreases |steps|, 0
  {
    steps != [] ==> Runnable(s, steps[..|steps| - 1]) && Enabled(Run(s, steps[..|steps| - 1]), steps[|steps| - 1])
  }

  ghost function Run(s: State, steps: seq<Step>): State
    requires Runnable(s, steps)
    decreases |steps|, 1
  {
    if steps == [] then s else Apply(Run(s, steps[..|steps| - 1]), steps[|steps| - 1])
  }

  // ----- wakeups

  /** Every poked write has a token pending, a received poke whose list is not yet read, or a list read that saw it. */
  ghost predicate Awake(s: State) {
    s.token || s.pc.Listing? || forall v :: v in s.poked ==> v <= s.listed
  }

  /** ListEnabled fails while no token is pending and a poked write has not been listed. */
  ghost predicate FailsUnheard(s: State, step: Step) {
    step == ListReturns(None) && !s.token && exists v :: v in s.poked && s.listed < v
  }

  /** A failed ListEnabled consumed a poke, and neither a poke nor a tick has come since. */
  ghost predicate Lost(s: State, steps: seq<Step>)
    requires Runnable(s, steps)
    decreases |steps|
  {
    steps != [] &&
    var before, last := Run(s, steps[..|steps| - 1]), steps[|steps| - 1];
    FailsUnheard(before, last) || (Lost(s, steps[..|steps| - 1]) && !last.Poke? && !last.Tick?)
  }

  ghost predicate Sane(s: State) {
    && s.tables != [] && s.listed < |s.tables| && (forall v :: v in s.poked ==> v < |s.tables|)
    && (!Awake(s) ==> s.pc.Waiting?)
  }

  lemma StepWakes(s: State, step: Step)
    requires Sane(s) && Enabled(s, step)
    ensures Sane(Apply(s, step))
    ensures Awake(Apply(s, step)) <==> !FailsUnheard(s, step) && (Awake(s) || step.Poke? || step.Tick?)
  {
  }

  /** A wakeup is lost exactly when ListEnabled failed unheard, and only until the next poke or tick. */
  lemma {:induction false} NoLostWakeup(s: State, steps: seq<Step>)
    requires Init(s) && Runnable(s, steps)
    ensures Sane(Run(s, steps))
    ensures Awake(Run(s, steps)) <==> !Lost(s, steps)
    decreases |steps|
  {
    if steps != [] {
      var n := |steps| - 1;
      NoLostWakeup(s, steps[..n]);
      StepWakes(Run(s, steps[..n]), steps[n]);
    }
  }

  lemma OneMoreStep(s: State, steps: seq<Step>, step: Step)
    requires Runnable(s, steps) && Enabled(Run(s, steps), step)
    ensures Runnable(s, steps + [step]) && Run(s, steps + [step]) == Apply(Run(s, steps), step)
    ensures FailsUnheard(Run(s, steps), step) ==> Lost(s, steps + [step])
  {
    assert (steps + [step])[..|steps|] == steps;
  }

  /** It does happen: a poke received just before the list query fails is gone. */
  lemma FailedListLosesPoke(op: RegistrySpec.Op)
    ensures var s := State([map[]], {}, false, Waiting, -1, SlurperSpec.IDLE);
            var steps := [] + [Write(op)] + [Poke(1)] + [ReceivePoke] + [ListReturns(None)];
            Init(s) && Runnable(s, steps) && Lost(s, steps) && !Awake(Run(s, steps))
  {
    var s := State([map[]], {}, false, Waiting, -1, SlurperSpec.IDLE);
    OneMoreStep(s, [], Write(op));
    OneMoreStep(s, [] + [Write(op)], Poke(1));
    OneMoreStep(s, [] + [Write(op)] + [Poke(1)], ReceivePoke);
    var t := Run(s, [] + [Write(op)] + [Poke(1)] + [ReceivePoke]);
    assert 1 in t.poked;
    OneMoreStep(s, [] + [Write(op)] + [Poke(1)] + [ReceivePoke], ListReturns(None));
  }

  // ----- convergence

  /** The running subscriptions are those the table asks for, each under its row's configuration. */
  ghost predicate InLine(u: SlurperSpec.Slurper, t: Table) {
    && (forall did :: did in u.active ==> u.active[did] < |u.subs|)
    && (forall did :: did in u.active <==> did in t && t[did].enabled)
    && (forall did :: did in u.active ==> !SubscriptionConfigChanged(u.subs[u.active[did]].labeler, t[did]))
  }

  ghost predicate Following(s: State) {
    && s.tables != [] && -1 <= s.listed < |s.tables| && SlurperSpec.Inv(s.slurper)
    && (forall i :: 0 <= i < |s.tables| ==> Keyed(s.tables[i]))
    && (s.pc.Applying? ==> s.listed >= 0 && IsListing(s.tables[s.listed], s.pc.listing))
    && (!s.pc.Applying? && s.listed >= 0 ==> InLine(s.slurper, s.tables[s.listed]))
  }

  lemma ListingMeansTable(u: SlurperSpec.Slurper, listing: seq<Labeler>, t: Table)
    requires Keyed(t) && IsListing(t, listing) && SlurperSpec.Matches(u, listing)
    ensures InLine(u, t)
  {
    forall did | did in t && t[did].enabled ensures did in Dids(listing) {
      assert t[did] in listing;
    }
    assert forall l :: l in listing ==> l.did in Dids(listing);
  }

  lemma StepFollows(s: State, step: Step)
    requires Following(s) && Enabled(s, step)
    ensures Following(Apply(s, step))
  {
    if step.Reconcile? {
      SlurperSpec.ReconcileCorrect(s.slurper, s.pc.listing);
      ListingMeansTable(Apply(s, step).slurper, s.pc.listing, s.tables[s.listed]);
    }
  }

  lemma {:induction false} RunFollows(s: State, steps: seq<Step>)
    requires Init(s) && Runnable(s, steps)
    ensures Following(Run(s, steps))
    decreases |steps|
  {
    if steps != [] {
      RunFollows(s, steps[..|steps| - 1]);
      StepFollows(Run(s, steps[..|steps| - 1]), steps[|steps| - 1]);
    }
  }

  /** The two tables ask for the same subscriptions: the same labelers enabled, under the same configuration. */
  ghost predicate SameDemand(t: Table, u: Table) {
    && (forall did :: (did in t && t[did].enabled) <==> (did in u && u[did].enabled))
    && (forall did :: did in t && t[did].enabled ==> !SubscriptionConfigChanged(t[did], u[did]))
  }

  /** Being in line with one table is being in line with exactly those that ask for the same. */
  lemma InLineWithBoth(u: SlurperSpec.Slurper, t1: Table, t2: Table)
    requires InLine(u, t1)
    ensures InLine(u, t2) <==> SameDemand(t1, t2)
  {
    if InLine(u, t2) {
      forall did | did in t1 && t1[did].enabled
        ensures did in t2 && t2[did].enabled && !SubscriptionConfigChanged(t1[did], t2[did])
      {
        UnchangedMeansSameConfig(u.subs[u.active[did]].labeler, t1[did]);
      }
    }
  }

  /** Bookmarks and recorded errors, and a discovery that finds nothing new, ask for nothing else. */
  lemma RoutineWritesKeepDemand(t: Table, op: RegistrySpec.Op)
    requires Keyed(t) && (op.WriteCursor? || op.RecordError?
                          || (op.Upsert? && op.row.source != MANUAL && op.row.did in t
                              && op.row.endpoint == t[op.row.did].endpoint))
    ensures SameDemand(t, RegistrySpec.Apply(t, op))
  {
  }

  /** Between reconciliations the subscriptions are in line exactly when the registry asks for what was listed last. */
  lemma InLineExactly(s: State, steps: seq<Step>)
    requires Init(s) && Runnable(s, steps)
    requires var t := Run(s, steps); !t.pc.Applying? && 0 <= t.listed < |t.tables|
    ensures var t := Run(s, steps); InLine(t.slurper, Current(t)) <==> SameDemand(t.tables[t.listed], Current(t))
  {
    hide InLine, Run, Runnable, Init, SlurperSpec.Inv, SameDemand;
    RunFollows(s, steps);
    var t := Run(s, steps);
    InLineWithBoth(t.slurper, t.tables[t.listed], Current(t));
  }

  /** The latest version that asks for something new has been poked for: every later one asks for the same. */
  ghost predicate DemandPoked(s: State)
    requires s.tables != []
  {
    exists v :: v in s.poked && v < |s.tables| && forall i :: v <= i < |s.tables| ==> SameDemand(s.tables[i], Current(s))
  }

  /**
   When the latest write that asks for something new has been followed by a poke, none is pending, the loop is
   back in its select and no wakeup was lost, the running subscriptions are exactly what the registry asks for.
   */
  lemma SettledMatchesRegistry(s: State, steps: seq<Step>)
    requires Init(s) && Runnable(s, steps) && !Lost(s, steps)
    requires var t := Run(s, steps); t.pc.Waiting? && !t.token && t.tables != [] && DemandPoked(t)
    ensures InLine(Run(s, steps).slurper, Current(Run(s, steps)))
  {
    hide InLine, Run, Runnable, Init, Lost, SlurperSpec.Inv, SameDemand;
    NoLostWakeup(s, steps);
    RunFollows(s, steps);
    var t := Run(s, steps);
    var v :| v in t.poked && v < |t.tables| && forall i :: v <= i < |t.tables| ==> SameDemand(t.tables[i], Current(t));
    InLineWithBoth(t.slurper, t.tables[t.listed], Current(t));
  }
}
