/** The three decisions of policy.go. */
module SlurperPolicy {
  import opened Prelude
  import opened MapCodec
  import opened RegistrySpec

  function SigRequired(override_: Option<bool>, globalDefault: bool): bool {
    if override_.Some? then override_.value else globalDefault
  }

  predicate KeepLabel(l: Label, sigRequired: bool) {
    if |l.sig| > 0 then true else !sigRequired
  }

  function SubscriptionConfigChanged(snapshot: Labeler, current: Labeler): bool {
    if snapshot.endpoint != current.endpoint then true
    else if snapshot.requireSig.None? != current.requireSig.None? then true
    else snapshot.requireSig.Some? && snapshot.requireSig.value != current.requireSig.value
  }

  /** A running subscription may go on exactly when everything it reads from its row is unchanged. */
  lemma UnchangedMeansSameConfig(snapshot: Labeler, current: Labeler)
    ensures !SubscriptionConfigChanged(snapshot, current)
            <==> snapshot.endpoint == current.endpoint && snapshot.requireSig == current.requireSig
    ensures !SubscriptionConfigChanged(snapshot, current) ==>
              forall globalDefault :: SigRequired(snapshot.requireSig, globalDefault)
                                      == SigRequired(current.requireSig, globalDefault)
  {
  }
}

/** The set of running subscriptions over any sequence of reconciliations (slurper.go). */
module SlurperSpec {
  import opened Prelude
  import opened RegistrySpec
  import opened SlurperPolicy

  /** A subscription ever started: the row it was started from, and how often it was cancelled and closed. */
  datatype Started = Started(labeler: Labeler, cancels: nat, closes: nat) {
    function Stopped(): Started {
      this.(cancels := cancels + 1, closes := closes + 1)
    }
  }

  /** Every subscription ever started, and which are active, by labeler. */
  datatype Slurper = Slurper(subs: seq<Started>, active: map<Text, nat>) {
    predicate Runs(i: nat)
      requires i < |subs|
    {
      var did := subs[i].labeler.did;
      did in active && active[did] == i
    }

    /** `l` has a running subscription, started from another configuration. */
    predicate RunsOtherwise(l: Labeler) {
      && l.did in active && active[l.did] < |subs|
      && SubscriptionConfigChanged(subs[active[l.did]].labeler, l)
    }
  }

  const IDLE := Slurper([], map[])

  /** A running subscription is neither cancelled nor closed; any other was, exactly once each. */
  ghost predicate Inv(s: Slurper) {
    && (forall did :: did in s.active ==> s.active[did] < |s.subs| && s.subs[s.active[did]].labeler.did == did)
    && (forall i :: 0 <= i < |s.subs| ==>
          s.subs[i].cancels == s.subs[i].closes == if s.Runs(i) then 0 else 1)
  }

  /** Cancel the subscriptions of `dids` and close their limiters. */
  function StopAll(s: Slurper, dids: set<Text>): Slurper {
    Slurper(seq(|s.subs|, i requires 0 <= i < |s.subs| =>
                  if s.Runs(i) && s.subs[i].labeler.did in dids then s.subs[i].Stopped() else s.subs[i]),
            s.active - dids)
  }

  function Start(s: Slurper, l: Labeler): Slurper {
    Slurper(s.subs + [Started(l, 0, 0)], s.active[l.did := |s.subs|])
  }

  /** The second loop: start what is listed and not active. */
  function StartMissing(s: Slurper, listing: seq<Labeler>): Slurper {
    if listing == [] then s
    else
      var n := |listing| - 1;
      var t := StartMissing(s, listing[..n]);
      if listing[n].did in t.active then t else Start(t, listing[n])
  }

  /** The listed labelers whose running subscription was started from another configuration. */
  function Stale(s: Slurper, listing: seq<Labeler>): set<Text> {
    set l | l in listing && s.RunsOtherwise(l) :: l.did
  }

  function Reconcile(s: Slurper, listing: seq<Labeler>): Slurper {
    var t := StartMissing(StopAll(s, Stale(s, listing)), listing);
    StopAll(t, t.active.Keys - Dids(listing))
  }

  function Shutdown(s: Slurper): Slurper {
    StopAll(s, s.active.Keys)
  }

  lemma OneStopped(s: Slurper, did: Text, subs: seq<Started>)
    requires Inv(s) && did in s.active && |subs| == |s.subs|
    requires forall i :: 0 <= i < |subs| ==> subs[i] == if i == s.active[did] then s.subs[i].Stopped() else s.subs[i]
    ensures Slurper(subs, s.active - {did}) == StopAll(s, {did})
  {
    assert StopAll(s, {did}).subs == subs;
  }

  lemma EachRunningStopped(s: Slurper, subs: seq<Started>)
    requires Inv(s) && |subs| == |s.subs|
    requires forall i :: 0 <= i < |subs| ==> subs[i] == if s.Runs(i) then s.subs[i].Stopped() else s.subs[i]
    ensures Slurper(subs, map[]) == Shutdown(s)
  {
    assert Shutdown(s).subs == subs;
  }

  // ----- what one reconciliation does

  lemma StopKeepsInv(s: Slurper, dids: set<Text>)
    requires Inv(s)
    ensures Inv(StopAll(s, dids))
  {
  }

  lemma StopMore(s: Slurper, a: set<Text>, did: Text)
    requires Inv(s) && did !in a
    ensures StopAll(StopAll(s, a), {did}) == StopAll(s, a + {did})
  {
    var t, u := StopAll(StopAll(s, a), {did}), StopAll(s, a + {did});
    assert t.active == u.active;
    assert t.subs == u.subs;
  }

  lemma StartKeepsInv(s: Slurper, l: Labeler)
    requires Inv(s) && l.did !in s.active
    ensures Inv(Start(s, l))
  {
    var t := Start(s, l);
    assert forall i :: 0 <= i < |s.subs| ==> t.subs[i] == s.subs[i] && (t.Runs(i) <==> s.Runs(i));
  }

  /** `t` runs what `s` runs, and new subscriptions for the rest of the listing. */
  ghost predicate StartedFor(s: Slurper, t: Slurper, listing: seq<Labeler>) {
    && |s.subs| <= |t.subs| && (forall i :: 0 <= i < |s.subs| ==> t.subs[i] == s.subs[i])
    && t.active.Keys == s.active.Keys + Dids(listing)
    && (forall did :: did in s.active ==> t.active[did] == s.active[did])
    && (forall l :: l in listing && l.did !in s.active ==>
          && |s.subs| <= t.active[l.did] < |t.subs|
          && t.subs[t.active[l.did]].labeler == l)
  }

  lemma DidsOfMore(listing: seq<Labeler>, l: Labeler)
    ensures Dids(listing + [l]) == Dids(listing) + {l.did}
    ensures forall k :: k in listing + [l] <==> k in listing || k == l
  {
  }

  lemma AlreadyRunning(s: Slurper, t: Slurper, listing: seq<Labeler>, l: Labeler)
    requires StartedFor(s, t, listing) && (forall k :: k in listing ==> k.did != l.did) && l.did in t.active
    ensures StartedFor(s, t, listing + [l])
  {
    DidsOfMore(listing, l);
    assert l.did !in Dids(listing);
  }

  lemma NewlyRunning(s: Slurper, t: Slurper, listing: seq<Labeler>, l: Labeler)
    requires StartedFor(s, t, listing) && (forall k :: k in listing ==> k.did != l.did) && l.did !in t.active
    requires forall did :: did in s.active ==> s.active[did] < |s.subs|
    ensures StartedFor(s, Start(t, l), listing + [l])
  {
    DidsOfMore(listing, l);
    assert forall k :: k in listing ==> k.did in Dids(listing) && k.did in t.active;
  }

  lemma OneMoreListed(s: Slurper, t: Slurper, listing: seq<Labeler>, l: Labeler)
    requires StartedFor(s, t, listing) && (forall k :: k in listing ==> k.did != l.did)
    requires forall did :: did in s.active ==> s.active[did] < |s.subs|
    ensures StartedFor(s, if l.did in t.active then t else Start(t, l), listing + [l])
  {
    hide StartedFor, Start;
    if l.did in t.active {
      AlreadyRunning(s, t, listing, l);
    } else {
      NewlyRunning(s, t, listing, l);
    }
  }

  lemma {:induction false} StartMissingMeans(s: Slurper, listing: seq<Labeler>)
    requires Inv(s) && Distinct(listing)
    ensures Inv(StartMissing(s, listing)) && StartedFor(s, StartMissing(s, listing), listing)
  {
    assert forall did :: did in s.active ==> s.active[did] < |s.subs|;
    if listing != [] {
      hide Inv, StartedFor, Start;
      var n := |listing| - 1;
      StartMissingMeans(s, listing[..n]);
      assert listing == listing[..n] + [listing[n]];
      var t := StartMissing(s, listing[..n]);
      OneMoreListed(s, t, listing[..n], listing[n]);
      if listing[n].did !in t.active {
        StartKeepsInv(t, listing[n]);
      }
    }
  }

  /** One turn of the first loop: stop the listed labeler's subscription if its configuration changed. */
  lemma StopStaleTurn(s: Slurper, listing: seq<Labeler>, i: nat)
    requires Inv(s) && Distinct(listing) && i < |listing|
    ensures var t := StopAll(s, Stale(s, listing[..i]));
            StopAll(s, Stale(s, listing[..i + 1]))
            == if t.RunsOtherwise(listing[i]) then StopAll(t, {listing[i].did}) else t
  {
    var l, before := listing[i], Stale(s, listing[..i]);
    var t := StopAll(s, before);
    assert listing[..i + 1] == listing[..i] + [l];
    assert forall k :: k in listing[..i] ==> k.did != l.did;
    assert l.did !in before;
    assert t.RunsOtherwise(l) <==> s.RunsOtherwise(l);
    assert Stale(s, listing[..i + 1]) == before + if s.RunsOtherwise(l) then {l.did} else {};
    StopMore(s, before, l.did);
  }

  /** The active subscriptions are those of the listed labelers, each started from its row's configuration. */
  ghost predicate Matches(s: Slurper, listing: seq<Labeler>) {
    && (forall did :: did in s.active ==> s.active[did] < |s.subs|)
    && s.active.Keys == Dids(listing)
    && forall l :: l in listing ==> !SubscriptionConfigChanged(s.subs[s.active[l.did]].labeler, l)
  }

  /** An unchanged row keeps its very subscription; a new or changed one gets a new one, started from the row. */
  ghost predicate Renewed(s: Slurper, t: Slurper, listing: seq<Labeler>) {
    forall l :: l in listing ==>
      && l.did in t.active && t.active[l.did] < |t.subs|
      && if l.did in s.active && !s.RunsOtherwise(l) then t.active[l.did] == s.active[l.did]
         else |s.subs| <= t.active[l.did] && t.subs[t.active[l.did]].labeler == l
  }

  /** What no longer runs has been stopped once more; nothing else is touched. */
  ghost predicate StoppedExactly(s: Slurper, t: Slurper) {
    && |s.subs| <= |t.subs|
    && forall i :: 0 <= i < |s.subs| ==>
         t.subs[i] == if s.Runs(i) && !t.Runs(i) then s.subs[i].Stopped() else s.subs[i]
  }

  lemma OnlyChangedAreStale(s: Slurper, listing: seq<Labeler>)
    requires Distinct(listing)
    ensures forall l :: l in listing ==> (l.did in Stale(s, listing) <==> s.RunsOtherwise(l))
  {
    forall l, k | l in listing && k in listing && l.did == k.did ensures l == k {
      var i :| 0 <= i < |listing| && listing[i] == l;
      var j :| 0 <= j < |listing| && listing[j] == k;
    }
  }

  lemma RenewsTheListing(s: Slurper, a: Slurper, b: Slurper, listing: seq<Labeler>)
    requires Inv(s) && Distinct(listing)
    requires a == StopAll(s, Stale(s, listing)) && StartedFor(a, b, listing)
    ensures var t := StopAll(b, b.active.Keys - Dids(listing));
            t.active.Keys == Dids(listing) && Renewed(s, t, listing)
  {
    assert forall did :: did in s.active ==> s.active[did] < |s.subs|;
    hide Inv, Slurper.RunsOtherwise, Stale;
    OnlyChangedAreStale(s, listing);
    var t := StopAll(b, b.active.Keys - Dids(listing));
    assert forall l :: l in listing ==> l.did in Dids(listing) && l.did in t.active;
    assert t.active.Keys == Dids(listing);
  }

  lemma RenewedMatches(s: Slurper, t: Slurper, listing: seq<Labeler>)
    requires Inv(s) && Renewed(s, t, listing) && StoppedExactly(s, t) && t.active.Keys == Dids(listing)
    ensures Matches(t, listing)
  {
    forall l | l in listing ensures l.did in t.active && !SubscriptionConfigChanged(t.subs[t.active[l.did]].labeler, l) {
    }
  }

  lemma StopsWhatItShould(s: Slurper, a: Slurper, b: Slurper, listing: seq<Labeler>)
    requires Inv(s) && a == StopAll(s, Stale(s, listing)) && StartedFor(a, b, listing)
    ensures StoppedExactly(s, StopAll(b, b.active.Keys - Dids(listing)))
  {
    var t := StopAll(b, b.active.Keys - Dids(listing));
    forall i | 0 <= i < |s.subs|
      ensures t.subs[i] == if s.Runs(i) && !t.Runs(i) then s.subs[i].Stopped() else s.subs[i]
    {
      assert b.subs[i] == a.subs[i];
    }
  }

  /**
   After a reconciliation the active labelers are exactly the listed ones, each running under its row's
   endpoint and signature policy. A subscription whose row did not change is the same one as before; a
   changed or new row has a new subscription. Any other is stopped, and nothing already stopped is touched.
   */
  lemma ReconcileCorrect(s: Slurper, listing: seq<Labeler>)
    requires Inv(s) && Distinct(listing)
    ensures var t := Reconcile(s, listing);
            Inv(t) && Matches(t, listing) && Renewed(s, t, listing) && StoppedExactly(s, t)
  {
    hide Matches, Renewed, StoppedExactly, StartedFor, StopAll, Stale, StartMissing;
    var a := StopAll(s, Stale(s, listing));
    StopKeepsInv(s, Stale(s, listing));
    StartMissingMeans(a, listing);
    var b := StartMissing(a, listing);
    StopKeepsInv(b, b.active.Keys - Dids(listing));
    RenewsTheListing(s, a, b, listing);
    StopsWhatItShould(s, a, b, listing);
    RenewedMatches(s, Reconcile(s, listing), listing);
  }

  /** Reconciling again with the same registry changes nothing. */
  lemma ReconcileIdempotent(s: Slurper, listing: seq<Labeler>)
    requires Inv(s) && Distinct(listing)
    ensures Inv(Reconcile(s, listing))
    ensures Reconcile(Reconcile(s, listing), listing) == Reconcile(s, listing)
  {
    ReconcileCorrect(s, listing);
    var t := Reconcile(s, listing);
    assert Stale(t, listing) == {};
    NothingToStop(t);
    NothingToStart(t, listing);
  }

  lemma NothingToStop(s: Slurper)
    ensures StopAll(s, {}) == s
  {
    assert StopAll(s, {}).subs == s.subs;
  }

  lemma {:induction false} NothingToStart(s: Slurper, listing: seq<Labeler>)
    requires Dids(listing) <= s.active.Keys
    ensures StartMissing(s, listing) == s
  {
    if listing != [] {
      var n := |listing| - 1;
      assert listing[n] in listing && listing[n].did in Dids(listing);
      assert Dids(listing[..n]) <= Dids(listing);
      NothingToStart(s, listing[..n]);
    }
  }

  // ----- runs

  datatype Op = Reconciled(listing: seq<Labeler>) | ShutDown

  ghost predicate Listings(ops: seq<Op>) {
    forall i :: 0 <= i < |ops| && ops[i].Reconciled? ==> Distinct(ops[i].listing)
  }

  function Step(s: Slurper, op: Op): Slurper {
    match op
    case Reconciled(listing) => Reconcile(s, listing)
    case ShutDown => Shutdown(s)
  }

  function Run(ops: seq<Op>): Slurper {
    if ops == [] then IDLE else Step(Run(ops[..|ops| - 1]), ops[|ops| - 1])
  }

  /** Over any sequence of reconciliations and shutdowns, nothing is cancelled or closed twice, or while it runs. */
  lemma {:induction false} StoppedAtMostOnce(ops: seq<Op>)
    requires Listings(ops)
    ensures Inv(Run(ops))
  {
    if ops != [] {
      var before := Run(ops[..|ops| - 1]);
      StoppedAtMostOnce(ops[..|ops| - 1]);
      match ops[|ops| - 1] {
        case Reconciled(listing) => ReconcileCorrect(before, listing);
        case ShutDown => StopKeepsInv(before, before.active.Keys);
      }
    }
  }

  /** After a final shutdown every subscription ever started has been cancelled, and its limiter closed, exactly once. */
  lemma ShutdownStopsEverything(ops: seq<Op>)
    requires Listings(ops)
    ensures var s := Run(ops + [ShutDown]);
            && s.active == map[] && |s.subs| == |Run(ops).subs|
            && forall i :: 0 <= i < |s.subs| ==> s.subs[i].cancels == 1 && s.subs[i].closes == 1
  {
    StoppedAtMostOnce(ops);
    assert (ops + [ShutDown])[..|ops|] == ops;
  }
}

/** The slurper itself: a map of running subscriptions, changed in place by three loops. */
module SlurperObject {
  import opened Prelude
  import opened RegistrySpec
  import opened RegistryObject
  import opened SlurperPolicy
  import opened SlurperSpec

  /** A subscription goroutine with its cancel function and its rate limiter. */
  class Subscription {
    const labeler: Labeler
    ghost const id: nat
    var cancels: nat
    var closes: nat
    var returned: bool          // its goroutine has

    constructor (labeler: Labeler, ghost id: nat)
      ensures View() == Started(labeler, 0, 0) && this.id == id && !returned
    {
      this.labeler, this.id, cancels, closes, returned := labeler, id, 0, 0, false;
    }

    ghost function View(): Started
      reads this
    {
      Started(labeler, cancels, closes)
    }

    method Cancel()
      modifies this`cancels
      ensures cancels == old(cancels) + 1
    {
      cancels := cancels + 1;
    }

    /** The goroutine returns because its context is cancelled, itself or with its parent. */
    method Return(ghost parentCancelled: bool)
      requires cancels > 0 || parentCancelled
      modifies this`returned
      ensures returned
    {
      returned := true;
    }

    method CloseLimiter()
      modifies this`closes
      ensures closes == old(closes) + 1
    {
      closes := closes + 1;
    }

    method CancelAndClose()
      modifies this`cancels, this`closes
      ensures View() == old(View()).Stopped()
    {
      Cancel();
      CloseLimiter();
    }
  }

  ghost function Views(subs: seq<Subscription>): seq<Started>
    reads subs
  {
    seq(|subs|, i requires 0 <= i < |subs| reads subs => subs[i].View())
  }

  ghost function Ids(active: map<Text, Subscription>): map<Text, nat> {
    map did | did in active :: active[did].id
  }

  lemma ViewsAppend(subs: seq<Subscription>, sub: Subscription)
    ensures Views(subs + [sub]) == Views(subs) + [sub.View()]
  {
  }

  lemma IdsRemove(active: map<Text, Subscription>, did: Text)
    ensures Ids(active - {did}) == Ids(active) - {did}
  {
  }

  lemma IdsUpdate(active: map<Text, Subscription>, did: Text, sub: Subscription)
    ensures Ids(active[did := sub]) == Ids(active)[did := sub.id]
  {
  }

  class LabelSlurper {
    const registry: LabelerRegistry
    var active: map<Text, Subscription>
    var cancelled: bool                 // the context every subscription's context derives from
    var wg: set<Subscription>           // goroutines the wait group still counts
    ghost var all: seq<Subscription>

    ghost predicate Valid()
      reads this, all
    {
      && (forall i :: 0 <= i < |all| ==> all[i].id == i)
      && (forall did :: did in active ==> active[did].id < |all| && all[active[did].id] == active[did])
      && (forall i :: 0 <= i < |all| ==> all[i] in wg || all[i].returned)
      && (forall sub :: sub in wg ==> sub in all)
      && Inv(Abs())
    }

    ghost function Abs(): Slurper
      reads this, all
    {
      Slurper(Views(all), Ids(active))
    }

    constructor (registry: LabelerRegistry)
      ensures Valid() && Abs() == IDLE && all == [] && !cancelled && this.registry == registry
    {
      this.registry, active, all := registry, map[], [];
      cancelled, wg := false, {};
    }

    method Stop(did: Text)
      requires Valid() && did in active
      modifies this`active, active[did]
      ensures Valid() && all == old(all) && active == old(active) - {did}
      ensures Abs() == StopAll(old(Abs()), {did})
    {
      ghost var was := Abs();
      StopKeepsInv(was, {did});
      var sc := active[did];
      IdsRemove(active, did);
      hide Inv, StopAll, Ids;
      sc.CancelAndClose();
      active := active - {did};
      assert forall i :: 0 <= i < |all| && i != sc.id ==> all[i] != sc;
      OneStopped(was, did, Views(all));
    }

    method Register(l: Labeler, sub: Subscription)
      requires Valid() && l.did !in active
      requires sub !in all && sub.id == |all| && sub.View() == Started(l, 0, 0)
      modifies this
      ensures Valid() && all == old(all) + [sub]
      ensures Abs() == Start(old(Abs()), l)
    {
      ghost var was := Abs();
      StartKeepsInv(was, l);
      assert |was.subs| == |all|;
      hide Inv, Slurper.Runs, Views, Ids;
      ViewsAppend(all, sub);
      IdsUpdate(active, l.did, sub);
      active := active[l.did := sub];
      all := all + [sub];
      wg := wg + {sub};
    }

    method StartOne(l: Labeler) returns (sub: Subscription)
      requires Valid() && l.did !in active
      modifies this
      ensures Valid() && all == old(all) + [sub] && fresh(sub)
      ensures Abs() == Start(old(Abs()), l)
    {
      sub := new Subscription(l, |all|);
      Register(l, sub);
    }

    method StopIfStale(l: Labeler)
      requires Valid()
      modifies this`active, all
      ensures Valid() && all == old(all)
      ensures Abs() == if old(Abs()).RunsOtherwise(l) then StopAll(old(Abs()), {l.did}) else old(Abs())
    {
      hide Inv, StopAll, SubscriptionConfigChanged;
      if l.did in active && SubscriptionConfigChanged(active[l.did].labeler, l) {
        Stop(l.did);
      }
    }

    method StopStale(listing: seq<Labeler>)
      requires Valid() && Distinct(listing)
      modifies this`active, all
      ensures Valid() && all == old(all)
      ensures Abs() == StopAll(old(Abs()), Stale(old(Abs()), listing))
    {
      ghost var was := Abs();
      NothingToStop(was);
      assert Stale(was, listing[..0]) == {};
      hide Valid, Abs, Stale, StopAll, Slurper.RunsOtherwise;
      for i := 0 to |listing|
        invariant Valid() && all == old(all)
        invariant Abs() == StopAll(was, Stale(was, listing[..i]))
      {
        StopStaleTurn(was, listing, i);
        StopIfStale(listing[i]);
      }
      assert listing[..|listing|] == listing;
    }

    method StartListed(listing: seq<Labeler>)
      requires Valid()
      modifies this
      ensures Valid() && old(all) <= all && forall sub :: sub in all ==> sub in old(all) || fresh(sub)
      ensures Abs() == StartMissing(old(Abs()), listing)
    {
      ghost var was := Abs();
      for i := 0 to |listing|
        invariant Valid() && old(all) <= all && forall sub :: sub in all ==> sub in old(all) || fresh(sub)
        invariant Abs() == StartMissing(was, listing[..i])
      {
        assert listing[..i + 1][..i] == listing[..i];
        if listing[i].did !in active {
          var sub := StartOne(listing[i]);
        }
      }
      assert listing[..|listing|] == listing;
    }

    method StopUnlisted(enabledSet: set<Text>)
      requires Valid()
      modifies this`active, all
      ensures Valid() && all == old(all)
      ensures Abs() == StopAll(old(Abs()), old(Abs()).active.Keys - enabledSet)
    {
      ghost var was := Abs();
      NothingToStop(was);
      assert Inv(was) && was.active.Keys == active.Keys;
      hide Inv, StopAll, Views, Ids, Slurper.Runs;
      var todo := active.Keys;
      ghost var done: set<Text> := {};
      while todo != {}
        invariant Valid() && all == old(all) && todo <= active.Keys
        invariant forall did :: did in done <==> did in was.active && did !in todo && did !in enabledSet
        invariant Abs() == StopAll(was, done)
      {
        var did :| did in todo;
        if did !in enabledSet {
          StopMore(was, done, did);
          Stop(did);
          done := done + {did};
        }
        todo := todo - {did};
      }
      assert done == was.active.Keys - enabledSet;
    }

    /** Bring the running subscriptions in line with the registry; report how many there are. */
    method Reconcile(listOk: bool) returns (ok: bool, upstreams: nat, ghost listing: seq<Labeler>)
      requires Valid() && registry.Valid()
      modifies this, all
      ensures Valid() && ok == listOk && registry.rows == old(registry.rows)
      ensures old(all) <= all && forall sub :: sub in all ==> sub in old(all) || fresh(sub)
      ensures !ok ==> Abs() == old(Abs())
      ensures ok ==> IsListing(registry.rows, listing) && Abs() == SlurperSpec.Reconcile(old(Abs()), listing)
      ensures ok ==> upstreams == |active|
    {
      hide Inv, StartMissing, StopAll, Stale;
      listing := [];
      var enabled := registry.ListEnabled(listOk);
      if enabled.Err? {
        return false, 0, [];
      }
      listing := enabled.value;
      StopStale(enabled.value);
      StartListed(enabled.value);
      assert forall k :: 0 <= k < |all| ==> all[k] in old(all) || fresh(all[k]);
      StopUnlisted(Dids(enabled.value));
      ok, upstreams := true, |active|;
    }

    ghost function Running(): set<nat>
      reads this, set did | did in active :: active[did]
    {
      set did | did in active :: active[did].id
    }

    lemma FiledUnderItsDid(did: Text)
      requires Valid() && did in active
      ensures active[did].labeler.did == did
    {
      assert Abs().active[did] == active[did].id;
    }

    lemma RunningIsRuns()
      requires Valid()
      ensures forall i :: 0 <= i < |all| ==> (i in Running() <==> Abs().Runs(i))
    {
      forall did | did in active ensures active[did].labeler.did == did {
        FiledUnderItsDid(did);
      }
    }

    method CancelEach()
      requires Valid()
      modifies all
      ensures forall i :: 0 <= i < |all| ==>
                all[i].View() == if i in Running() then old(all[i].View()).Stopped() else old(all[i].View())
      ensures forall i :: 0 <= i < |all| ==> all[i].returned == old(all[i].returned)
    {
      forall did | did in active ensures active[did].labeler.did == did {
        FiledUnderItsDid(did);
      }
      hide Inv, Abs;
      var todo := active.Keys;
      ghost var stopped: set<nat> := {};
      while todo != {}
        invariant todo <= active.Keys
        invariant stopped == set did | did in active && did !in todo :: active[did].id
        invariant forall i :: 0 <= i < |all| ==>
                    all[i].View() == if i in stopped then old(all[i].View()).Stopped() else old(all[i].View())
        invariant forall i :: 0 <= i < |all| ==> all[i].returned == old(all[i].returned)
      {
        var did :| did in todo;
        var sc := active[did];
        assert all[sc.id] == sc && sc.id !in stopped;
        assert forall i :: 0 <= i < |all| && i != sc.id ==> all[i] != sc;
        sc.CancelAndClose();
        todo, stopped := todo - {did}, stopped + {sc.id};
      }
    }

    /** Block until every goroutine has returned, which each does because its context is cancelled. */
    method Wait()
      requires Valid() && cancelled
      modifies this`wg, wg
      ensures Valid() && wg == {} && Abs() == old(Abs())
      ensures forall i :: 0 <= i < |all| ==> all[i].returned
    {
      hide Inv;
      while wg != {}
        invariant wg <= old(wg)
        invariant forall i :: 0 <= i < |all| ==> all[i].View() == old(all[i].View())
        invariant forall i :: 0 <= i < |all| ==> all[i] in wg || all[i].returned
        decreases |wg|
      {
        var sub :| sub in wg;
        sub.Return(cancelled);
        wg := wg - {sub};
      }
      assert Views(all) == old(Views(all));
    }

    /** Cancel and close whatever runs; the map is replaced afterwards. */
    method StopActive()
      requires Valid()
      modifies this`active, all
      ensures Valid() && all == old(all) && Abs() == SlurperSpec.Shutdown(old(Abs()))
    {
      ghost var was := Abs();
      StopKeepsInv(was, was.active.Keys);
      RunningIsRuns();
      hide Inv, StopAll, Slurper.Runs;
      CancelEach();
      active := map[];
      EachRunningStopped(was, Views(all));
    }

    /** Stop everything, cancel the parent context, and wait for the goroutines. */
    method Shutdown()
      requires Valid()
      modifies this`active, this`cancelled, this`wg, all
      ensures Valid() && all == old(all) && cancelled && wg == {}
      ensures forall i :: 0 <= i < |all| ==> all[i].returned
      ensures Abs() == SlurperSpec.Shutdown(old(Abs()))
    {
      hide Inv, StopAll, Slurper.Runs, SlurperSpec.Shutdown, Ids;
      StopActive();
      cancelled := true;
      Wait();
    }
  }
}
