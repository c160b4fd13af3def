/** When a discovered labeler is poked for, and what becomes of one that is not (watcher.go:219-249). */
module Discovery {
  import opened Prelude
  import opened MapCodec
  import opened Structs
  import Frames
  import opened FirehoseObject
  import opened RegistrySpec
  import opened SlurperPolicy
  import Store = StoreSpec
  import Wakeup

  /** What the watcher does for one operation, as the reconcile loop sees it: a write, and a poke if the event commits. */
  function WakeSteps(c: Codecs, db: Store.Db, op: ServiceOp, a: Answer, enabled: bool, version: nat): seq<Wakeup.Step> {
    var statements := StatementFor(op, a, enabled);
    seq(|statements|, i requires 0 <= i < |statements| => Wakeup.Write(statements[i]))
    + if RowFor(c, db, op, a).Some? then [Wakeup.Poke(version)] else []
  }

  /** A #service event commits exactly when the transaction meets no fault, an id is left and the record can be encoded. */
  lemma {:induction false} ServiceEventCommits(c: Codecs, db: Store.Db, op: ServiceOp, a: Answer)
    ensures Store.Minted(c, db, EventOf(op), a.now, a.skip, a.fault).Some?
            <==> && a.fault.NoFault? && db.lastId + 1 + a.skip < TWO_63
                 && |op.did| <= 8192 && |op.action| <= 8192 && (op.record.Some? ==> c.encRecord(op.record.value).Some?)
  {
    hide Store.Minted;
    Store.MintedExactly(c, db, EventOf(op), a.now, a.skip, a.fault);
  }

  /**
   After a labeler has been upserted while the loop sleeps with its subscriptions in line: a poke is pending
   exactly when the #service event commits; and the subscriptions are still in line exactly when the upsert asks
   for nothing new. So the upsert goes unserved until the next tick or poke exactly when it asks for something
   new and the event does not commit.
   */
  lemma {:induction false} PokedForExactly(c: Codecs, db: Store.Db, op: ServiceOp, a: Answer, enabled: bool, s: Wakeup.State)
    requires Upserts(op, a) && s.tables != [] && s.pc.Waiting? && !s.token
    requires Wakeup.InLine(s.slurper, Wakeup.Current(s))
    ensures var steps := WakeSteps(c, db, op, a, enabled, |s.tables|);
            && Wakeup.Runnable(s, steps)
            && var t := Wakeup.Run(s, steps);
               && t.tables == s.tables + [Apply(Wakeup.Current(s), StatementFor(op, a, enabled)[0])]
               && t.pc.Waiting? && t.slurper == s.slurper
               && (t.token <==> Store.Minted(c, db, EventOf(op), a.now, a.skip, a.fault).Some?)
               && t.poked == s.poked + (if t.token then {|s.tables|} else {})
               && (Wakeup.InLine(t.slurper, Wakeup.Current(t)) <==> Wakeup.SameDemand(Wakeup.Current(s), Wakeup.Current(t)))
  {
    hide Store.Minted, Apply, Wakeup.InLine, Wakeup.SameDemand;
    var write, poke := Wakeup.Write(StatementFor(op, a, enabled)[0]), Wakeup.Poke(|s.tables|);
    Wakeup.OneMoreStep(s, [], write);
    Wakeup.OneMoreStep(s, [] + [write], poke);
    var steps := WakeSteps(c, db, op, a, enabled, |s.tables|);
    assert steps == if RowFor(c, db, op, a).Some? then [] + [write] + [poke] else [] + [write];
    Wakeup.InLineWithBoth(s.slurper, Wakeup.Current(s), Wakeup.Current(Wakeup.Run(s, steps)));
  }

  /** It does happen: a labeler seen for the first time, enabled on discovery, whose event fails to commit. */
  lemma {:induction false} FailedEventLeavesLabelerUnserved(c: Codecs, db: Store.Db, op: ServiceOp, a: Answer, s: Wakeup.State)
    requires Upserts(op, a) && a.fault.CommitFails? && s.tables != [] && s.pc.Waiting? && !s.token
    requires Wakeup.InLine(s.slurper, Wakeup.Current(s)) && op.did !in Wakeup.Current(s)
    ensures var steps := WakeSteps(c, db, op, a, true, |s.tables|);
            && Wakeup.Runnable(s, steps)
            && var t := Wakeup.Run(s, steps);
               && op.did in Wakeup.Current(t) && Wakeup.Current(t)[op.did].enabled && op.did !in t.slurper.active
               && !t.token && t.pc.Waiting?
  {
    PokedForExactly(c, db, op, a, true, s);
  }
}
