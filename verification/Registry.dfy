/** The labelers table over whole runs: who may change what (registry.go). */
module RegistrySpec {
  import opened Prelude

  datatype Labeler = Labeler(did: Text, endpoint: Text, source: Text, enabled: bool, requireSig: Option<bool>,
                             lastUpstreamSeq: Option<int64>, lastError: Text, updatedAt: int)

  /** The table, keyed by its primary key. */
  type Table = map<Text, Labeler>

  const MANUAL: Text := "manual"
  const FIREHOSE: Text := "firehose"

  /** The statements that succeed; one that fails leaves the table as it was. */
  datatype Op =
    | Upsert(row: Labeler)
    | SetEnabled(did: Text, enabled: bool)
    | SetRequireSig(did: Text, requireSig: Option<bool>)
    | RecordError(did: Text, message: Text, now: int)
    | WriteCursor(did: Text, lastSeq: int64)

  function Target(op: Op): Text {
    if op.Upsert? then op.row.did else op.did
  }

  /** What a statement makes of the row it finds, if any; None leaves the row absent. */
  function Update(old_: Option<Labeler>, op: Op): Option<Labeler> {
    match (op, old_)
    case (Upsert(row), None) => Some(row)
    case (Upsert(row), Some(r)) =>
      var refreshed := r.(endpoint := row.endpoint, lastError := "", updatedAt := row.updatedAt);
      Some(if row.source == MANUAL then refreshed.(source := row.source, enabled := row.enabled) else refreshed)
    case (RecordError(did, message, now), None) =>
      Some(Labeler(did, "", FIREHOSE, false, None, None, message, now))
    case (RecordError(_, message, now), Some(r)) => Some(r.(lastError := message, updatedAt := now))
    case (SetEnabled(_, enabled), Some(r)) => Some(r.(enabled := enabled))
    case (SetRequireSig(_, requireSig), Some(r)) => Some(r.(requireSig := requireSig))
    case (WriteCursor(_, lastSeq), Some(r)) => Some(r.(lastUpstreamSeq := Some(lastSeq)))
    case (_, None) => None
  }

  function Row(t: Table, did: Text): Option<Labeler> {
    if did in t then Some(t[did]) else None
  }

  function Apply(t: Table, op: Op): Table {
    match Update(Row(t, Target(op)), op)
    case None => t
    case Some(row) => t[Target(op) := row]
  }

  function Run(t: Table, ops: seq<Op>): Table {
    if ops == [] then t else Apply(Run(t, ops[..|ops| - 1]), ops[|ops| - 1])
  }

  /** What the firehose watcher and the subscriptions do on their own account. */
  predicate Automatic(op: Op) {
    (op.Upsert? && op.row.source != MANUAL) || op.RecordError? || op.WriteCursor?
  }

  /** What operators ask for. */
  function OperatorsOnly(ops: seq<Op>): seq<Op> {
    if ops == [] then []
    else
      var op := ops[|ops| - 1];
      OperatorsOnly(ops[..|ops| - 1]) + if Automatic(op) then [] else [op]
  }

  /** What only operators may decide about an existing row. */
  function Policy(row: Labeler): (Text, bool, Option<bool>) {
    (row.source, row.enabled, row.requireSig)
  }

  lemma {:induction false} RowsStay(t: Table, ops: seq<Op>)
    ensures t.Keys <= Run(t, ops).Keys
  {
    if ops != [] {
      RowsStay(t, ops[..|ops| - 1]);
    }
  }

  lemma AutomaticKeepsPolicy(t: Table, op: Op, did: Text)
    requires did in t && Automatic(op)
    ensures did in Apply(t, op) && Policy(Apply(t, op)[did]) == Policy(t[did])
  {
  }

  lemma PolicyFollowsPolicy(t: Table, u: Table, op: Op, did: Text)
    requires did in t && did in u && Policy(t[did]) == Policy(u[did])
    ensures did in Apply(t, op) && did in Apply(u, op) && Policy(Apply(t, op)[did]) == Policy(Apply(u, op)[did])
  {
  }

  /** For a row that exists, any run decides exactly what the operators' part of it alone decides. */
  lemma {:induction false} DiscoveryNeverInterferes(t: Table, ops: seq<Op>, did: Text)
    requires did in t
    ensures did in Run(t, ops) && did in Run(t, OperatorsOnly(ops))
    ensures Policy(Run(t, ops)[did]) == Policy(Run(t, OperatorsOnly(ops))[did])
  {
    if ops != [] {
      hide Apply, Policy, Automatic;
      var n := |ops| - 1;
      DiscoveryNeverInterferes(t, ops[..n], did);
      var before, after := OperatorsOnly(ops[..n]), OperatorsOnly(ops);
      if Automatic(ops[n]) {
        assert after == before;
        AutomaticKeepsPolicy(Run(t, ops[..n]), ops[n], did);
      } else {
        assert after[..|after| - 1] == before;
        PolicyFollowsPolicy(Run(t, ops[..n]), Run(t, before), ops[n], did);
      }
    }
  }

  /** The latest word of an operator on whether a labeler is enabled. */
  function OperatorsWord(ops: seq<Op>, did: Text, otherwise: bool): bool {
    if ops == [] then otherwise
    else
      var op := ops[|ops| - 1];
      if Target(op) == did && op.SetEnabled? then op.enabled
      else if Target(op) == did && op.Upsert? && op.row.source == MANUAL then op.row.enabled
      else OperatorsWord(ops[..|ops| - 1], did, otherwise)
  }

  /** A labeler is enabled as the operators last said; one added by hand stays manual. */
  lemma {:induction false} OperatorsDecide(t: Table, ops: seq<Op>, did: Text)
    requires did in t
    ensures did in Run(t, ops)
    ensures Run(t, ops)[did].enabled == OperatorsWord(ops, did, t[did].enabled)
    ensures t[did].source == MANUAL ==> Run(t, ops)[did].source == MANUAL
  {
    if ops != [] {
      OperatorsDecide(t, ops[..|ops| - 1], did);
    }
  }

  /** A labeler the watcher could not resolve stays off, whatever is discovered later, until an operator acts. */
  lemma {:induction false} UnresolvedStaysOff(t: Table, did: Text, message: Text, now: int, later: seq<Op>)
    requires did !in t && OperatorsOnly(later) == []
    ensures var u := Run(Apply(t, RecordError(did, message, now)), later);
            did in u && !u[did].enabled
  {
    DiscoveryNeverInterferes(Apply(t, RecordError(did, message, now)), later, did);
  }

  /** The rule is about rows that exist: the first sight of a labeler decides, until an operator acts. */
  lemma {:induction false} FirstSightDecides(t: Table, op: Op, later: seq<Op>)
    requires Target(op) !in t && (op.RecordError? || (op.Upsert? && Automatic(op))) && OperatorsOnly(later) == []
    ensures var u := Run(Apply(t, op), later);
            && Target(op) in u && u[Target(op)].enabled == (op.Upsert? && op.row.enabled)
            && u[Target(op)].source == if op.Upsert? then op.row.source else FIREHOSE
  {
    DiscoveryNeverInterferes(Apply(t, op), later, Target(op));
  }

  function Bookmark(t: Table, did: Text): Option<int64>
    requires did in t
  {
    t[did].lastUpstreamSeq
  }

  /** No statement but a labeler's own WriteCursor moves its bookmark, and none clears it. */
  lemma BookmarkMovesOnlyByWrite(t: Table, op: Op, did: Text)
    requires did in t
    ensures did in Apply(t, op)
    ensures Bookmark(Apply(t, op), did) ==
            if op.WriteCursor? && op.did == did then Some(op.lastSeq) else Bookmark(t, did)
  {
  }

  /** A statement touches one row. */
  lemma OthersUntouched(t: Table, op: Op, did: Text)
    requires did != Target(op)
    ensures Row(Apply(t, op), did) == Row(t, did)
  {
  }

  /** An upsert of an unknown labeler stores its row; of a known one, what the stickiness rule lets it change. */
  lemma UpsertMeans(t: Table, row: Labeler)
    ensures var u := Apply(t, Upsert(row));
            if row.did !in t then u == t[row.did := row]
            else
              var before := t[row.did];
              var manual := row.source == "manual";
              u == t[row.did := Labeler(before.did, row.endpoint, if manual then "manual" else before.source,
                                        if manual then row.enabled else before.enabled,
                                        before.requireSig, before.lastUpstreamSeq, "", row.updatedAt)]
  {
  }

  /** The other statements set what they name in a row that exists; only an error is recorded without one. */
  lemma SettersMean(t: Table, did: Text, enabled: bool, requireSig: Option<bool>, lastSeq: int64, message: Text, now: int)
    ensures did in t ==>
              && Apply(t, SetEnabled(did, enabled)) == t[did := t[did].(enabled := enabled)]
              && Apply(t, SetRequireSig(did, requireSig)) == t[did := t[did].(requireSig := requireSig)]
              && Apply(t, WriteCursor(did, lastSeq)) == t[did := t[did].(lastUpstreamSeq := Some(lastSeq))]
              && Apply(t, RecordError(did, message, now)) == t[did := t[did].(lastError := message, updatedAt := now)]
    ensures did !in t ==>
              && Apply(t, SetEnabled(did, enabled)) == t && Apply(t, SetRequireSig(did, requireSig)) == t
              && Apply(t, WriteCursor(did, lastSeq)) == t
              && Apply(t, RecordError(did, message, now))
                 == t[did := Labeler(did, "", "firehose", false, None, None, message, now)]
  {
  }

  // ----- listing

  /** A listing holds every enabled row once. */
  ghost predicate IsListing(t: Table, listing: seq<Labeler>) {
    && Distinct(listing)
    && (forall l :: l in listing ==> l.did in t && t[l.did] == l && l.enabled)
    && (forall did :: did in t && t[did].enabled ==> t[did] in listing)
  }

  ghost predicate Distinct(listing: seq<Labeler>) {
    forall i, j :: 0 <= i < j < |listing| ==> listing[i].did != listing[j].did
  }

  /** Rows in the order of their dids, compared byte by byte. */
  ghost predicate InOrder(listing: seq<Labeler>) {
    forall i, j :: 0 <= i < j < |listing| ==> Before(listing[i].did, listing[j].did)
  }

  predicate Before(a: Text, b: Text) {
    b != "" && (a == "" || a[0] < b[0] || (a[0] == b[0] && Before(a[1..], b[1..])))
  }

  /** At the first place where they differ the smaller byte comes first, and a first part before the whole. */
  lemma {:induction false} BeforeIsByteOrder(a: Text, b: Text)
    ensures Before(a, b) <==>
              exists k :: 0 <= k <= |a| && k < |b| && a[..k] == b[..k] && (k < |a| ==> a[k] < b[k])
  {
    if a == "" || b == "" || a[0] != b[0] {
      assert a[..0] == b[..0];
    } else {
      BeforeIsByteOrder(a[1..], b[1..]);
      forall k: nat | k <= |a[1..]| && k < |b[1..]| && a[1..][..k] == b[1..][..k]
        ensures a[..k + 1] == b[..k + 1]
      {
        assert a[..k + 1] == [a[0]] + a[1..][..k] && b[..k + 1] == [b[0]] + b[1..][..k];
      }
      forall k: nat | 0 < k <= |a| && k < |b| && a[..k] == b[..k]
        ensures a[1..][..k - 1] == b[1..][..k - 1]
      {
        assert a[1..][..k - 1] == a[..k][1..] && b[1..][..k - 1] == b[..k][1..];
      }
    }
  }

  lemma {:induction false} BeforeIsTotal(a: Text, b: Text)
    ensures a == b || Before(a, b) || Before(b, a)
  {
    if a != "" && b != "" && a[0] == b[0] {
      BeforeIsTotal(a[1..], b[1..]);
      assert a == [a[0]] + a[1..] && b == [b[0]] + b[1..];
    }
  }

  lemma {:induction false} BeforeIsTransitive(a: Text, b: Text, c: Text)
    requires Before(a, b) && Before(b, c)
    ensures Before(a, c)
  {
    if a != "" && a[0] == b[0] == c[0] {
      BeforeIsTransitive(a[1..], b[1..], c[1..]);
    }
  }

  ghost predicate IsFirst(dids: set<Text>, first: Text) {
    first in dids && forall did :: did in dids ==> did == first || Before(first, did)
  }

  lemma {:induction false} SomeFirst(dids: set<Text>)
    requires dids != {}
    ensures exists first :: IsFirst(dids, first)
  {
    var did :| did in dids;
    if dids == {did} {
      assert IsFirst(dids, did);
    } else {
      SomeFirst(dids - {did});
      var first :| IsFirst(dids - {did}, first);
      BeforeIsTotal(did, first);
      if Before(did, first) {
        forall other | other in dids && other != did ensures Before(did, other) {
          if other != first {
            BeforeIsTransitive(did, first, other);
          }
        }
        assert IsFirst(dids, did);
      } else {
        assert IsFirst(dids, first);
      }
    }
  }

  function Dids(listing: seq<Labeler>): set<Text> {
    set l | l in listing :: l.did
  }

  /** Every row is filed under its own did. */
  ghost predicate Keyed(t: Table) {
    forall did :: did in t ==> t[did].did == did
  }
}

/** The registry itself: each method is one statement on the table. */
module RegistryObject {
  import opened Prelude
  import opened RegistrySpec

  class LabelerRegistry {
    var rows: Table

    ghost predicate Valid()
      reads this
    {
      Keyed(rows)
    }

    constructor (rows: Table)
      requires Keyed(rows)
      ensures Valid() && this.rows == rows
    {
      this.rows := rows;
    }

    /** `dbOk` says whether the statement succeeds. */
    method Upsert(labeler: Labeler, dbOk: bool) returns (ok: bool)
      requires Valid()
      modifies this
      ensures Valid() && ok == dbOk
      ensures rows == if ok then Apply(old(rows), RegistrySpec.Upsert(labeler)) else old(rows)
    {
      if !dbOk {
        return false;
      }
      if labeler.did !in rows {
        rows := rows[labeler.did := labeler];
      } else {
        var row := rows[labeler.did];
        row := row.(endpoint := labeler.endpoint, lastError := "", updatedAt := labeler.updatedAt);
        if labeler.source == MANUAL {
          row := row.(source := labeler.source, enabled := labeler.enabled);
        }
        rows := rows[labeler.did := row];
      }
      ok := true;
    }

    /** An update that affects no row is an error. */
    method SetEnabled(did: Text, enabled: bool, dbOk: bool) returns (ok: bool)
      requires Valid()
      modifies this
      ensures Valid() && ok == (dbOk && did in old(rows))
      ensures rows == if dbOk then Apply(old(rows), RegistrySpec.SetEnabled(did, enabled)) else old(rows)
    {
      ok := dbOk && did in rows;
      if ok {
        rows := rows[did := rows[did].(enabled := enabled)];
      }
    }

    method SetRequireSig(did: Text, requireSig: Option<bool>, dbOk: bool) returns (ok: bool)
      requires Valid()
      modifies this
      ensures Valid() && ok == (dbOk && did in old(rows))
      ensures rows == if dbOk then Apply(old(rows), RegistrySpec.SetRequireSig(did, requireSig)) else old(rows)
    {
      ok := dbOk && did in rows;
      if ok {
        rows := rows[did := rows[did].(requireSig := requireSig)];
      }
    }

    method RecordError(did: Text, message: Text, now: int, dbOk: bool) returns (ok: bool)
      requires Valid()
      modifies this
      ensures Valid() && ok == dbOk
      ensures rows == if ok then Apply(old(rows), RegistrySpec.RecordError(did, message, now)) else old(rows)
    {
      ok := dbOk;
      if ok {
        var row := if did in rows then rows[did].(lastError := message, updatedAt := now)
                   else Labeler(did, "", FIREHOSE, false, None, None, message, now);
        rows := rows[did := row];
      }
    }

    /** A missing row reads as no cursor. */
    method ReadCursor(did: Text, dbOk: bool) returns (r: Result<Option<int64>>)
      requires Valid()
      ensures r.Ok? == dbOk
      ensures r.Ok? ==> r.value == if did in rows then Bookmark(rows, did) else None
    {
      if !dbOk {
        return Err("failed to read cursor");
      }
      r := Ok(if did in rows then rows[did].lastUpstreamSeq else None);
    }

    method WriteCursor(did: Text, lastSeq: int64, dbOk: bool) returns (ok: bool)
      requires Valid()
      modifies this
      ensures Valid() && ok == (dbOk && did in old(rows))
      ensures rows == if dbOk then Apply(old(rows), RegistrySpec.WriteCursor(did, lastSeq)) else old(rows)
    {
      ok := dbOk && did in rows;
      if ok {
        rows := rows[did := rows[did].(lastUpstreamSeq := Some(lastSeq))];
      }
    }

    method ListEnabled(dbOk: bool) returns (r: Result<seq<Labeler>>)
      requires Valid()
      ensures r.Ok? == dbOk
      ensures r.Ok? ==> IsListing(rows, r.value) && InOrder(r.value)
    {
      if !dbOk {
        return Err("failed to list enabled labelers");
      }
      var todo, listing: seq<Labeler> := rows.Keys, [];
      while todo != {}
        invariant todo <= rows.Keys && Distinct(listing) && InOrder(listing)
        invariant forall l, did :: l in listing && did in todo ==> Before(l.did, did)
        invariant forall l :: l in listing ==> l.did in rows && l.did !in todo && rows[l.did] == l && l.enabled
        invariant forall did :: did in rows && did !in todo && rows[did].enabled ==> rows[did] in listing
      {
        SomeFirst(todo);
        var did :| did in todo && forall other :: other in todo ==> other == did || Before(did, other);
        if rows[did].enabled {
          assert forall i :: 0 <= i < |listing| ==> listing[i] in listing;
          listing := listing + [rows[did]];
        }
        todo := todo - {did};
      }
      r := Ok(listing);
    }
  }
}
