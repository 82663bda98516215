/**
  The outbox of pending Check Run publications: one row per finished scan, claimed under a
  lease and finished by whoever still holds it. Every write below is one database statement.
*/
module Outbox {
  import opened Wrappers
  import opened PublishRetry
  import opened ChecksClient

  datatype Status = Pending | Claimed | Delivered | Dead | Disabled

  datatype Row = Row(
    scanRunId: nat, checkName: string, outcome: Conclusion, summary: string, createdAt: real,
    status: Status, leaseUntil: Option<real>, leasedBy: Option<string>,
    externalId: Option<string>, checkRunId: Option<nat>,
    attemptCount: nat, deadLetterReason: Option<DeadLetterReason>)

  type Table = map<nat, Row>

  function NewRow(scanRunId: nat, checkName: string, outcome: Conclusion, summary: string, createdAt: real): Row {
    Row(scanRunId, checkName, outcome, summary, createdAt, Pending, None, None, None, None, 0, None)
  }

  // ------------------------------------------------------------------ claiming

  /** A lease ending exactly now has not expired yet. */
  predicate Due(row: Row, now: real) {
    || row.status == Pending
    || (row.status == Claimed && row.leaseUntil.Some? && row.leaseUntil.value < now)
  }

  /**
    What `ORDER BY created_at LIMIT n FOR UPDATE SKIP LOCKED` may return: due, unlocked rows,
    oldest first, as many as there are up to the limit, none passed over for a younger one.
  */
  predicate IsClaimSelection(t: Table, now: real, locked: set<nat>, limit: nat, ids: seq<nat>) {
    && (forall i | 0 <= i < |ids| :: ids[i] in t && ids[i] !in locked && Due(t[ids[i]], now))
    && (forall i, j | 0 <= i < j < |ids| :: ids[i] != ids[j] && t[ids[i]].createdAt <= t[ids[j]].createdAt)
    && |ids| <= limit
    && (forall id | id in t && id !in locked && Due(t[id], now) && id !in ids ::
          |ids| == limit && forall i | 0 <= i < |ids| :: t[ids[i]].createdAt <= t[id].createdAt)
  }

  function ClaimedRow(row: Row, owner: string, leaseUntil: real): Row {
    row.(status := Claimed, leasedBy := Some(owner), leaseUntil := Some(leaseUntil))
  }

  function ClaimRows(t: Table, ids: seq<nat>, owner: string, leaseUntil: real): Table {
    map id | id in t :: if id in ids then ClaimedRow(t[id], owner, leaseUntil) else t[id]
  }

  // ------------------------------------------------------------------ finishing

  /** The compare-and-set condition: it looks at the owner only, never at the status. */
  predicate Holds(t: Table, id: nat, owner: string) {
    id in t && t[id].leasedBy == Some(owner)
  }

  function AfterDelivered(t: Table, id: nat, owner: string, externalId: string, checkRunId: nat,
                          attemptCount: nat): Table {
    if !Holds(t, id, owner) then t
    else t[id := t[id].(status := Delivered, leasedBy := None, leaseUntil := None,
                        externalId := Some(externalId), checkRunId := Some(checkRunId), attemptCount := attemptCount)]
  }

  function AfterRelease(t: Table, id: nat, owner: string): Table {
    if !Holds(t, id, owner) then t
    else t[id := t[id].(status := Pending, leasedBy := None, leaseUntil := None)]
  }

  function AfterReschedule(t: Table, id: nat, owner: string, leaseUntil: real, attemptCount: nat): Table {
    if !Holds(t, id, owner) then t
    else t[id := t[id].(status := Claimed, leasedBy := Some(owner), leaseUntil := Some(leaseUntil),
                        attemptCount := attemptCount)]
  }

  function AfterDead(t: Table, id: nat, owner: string, attemptCount: nat, reason: DeadLetterReason): Table {
    if !Holds(t, id, owner) then t
    else t[id := t[id].(status := Dead, leasedBy := None, leaseUntil := None,
                        attemptCount := attemptCount, deadLetterReason := Some(reason))]
  }

  function AfterReplay(t: Table, id: nat): Table {
    if id !in t || t[id].status !in {Disabled, Dead} then t
    else t[id := t[id].(status := Pending, deadLetterReason := None, leasedBy := None, leaseUntil := None)]
  }

  // ------------------------------------------------------------------ what every row keeps

  predicate ValidRow(row: Row) {
    && (row.leasedBy.Some? <==> row.status == Claimed)
    && (row.leaseUntil.Some? <==> row.status == Claimed)
    && (row.checkRunId.Some? <==> row.status == Delivered)
    && (row.externalId.Some? <==> row.status == Delivered)
    && (row.status == Dead ==> row.deadLetterReason.Some?)
    && (row.deadLetterReason.Some? ==> row.status in {Dead, Disabled})
  }

  predicate ValidTable(t: Table) {
    && (forall id | id in t :: ValidRow(t[id]))
    && (forall a, b | a in t && b in t && a != b :: t[a].scanRunId != t[b].scanRunId)
  }

  /** The columns no statement ever rewrites. */
  predicate SameIntent(a: Row, b: Row) {
    && a.scanRunId == b.scanRunId && a.checkName == b.checkName && a.outcome == b.outcome
    && a.summary == b.summary && a.createdAt == b.createdAt
  }

  /** A write keeps all rows, their intent, and every delivered row exactly as it is. */
  predicate KeepsRows(before: Table, after: Table) {
    && before.Keys <= after.Keys
    && forall id | id in before ::
         && SameIntent(before[id], after[id])
         && (before[id].status == Delivered ==> after[id] == before[id])
  }

  /** At most the row `id` was written, and of that row not the intent. */
  predicate OnlyRowWritten(before: Table, after: Table, id: nat) {
    && after.Keys == before.Keys
    && (forall other | other in before && other != id :: after[other] == before[other])
    && (id in before ==> SameIntent(before[id], after[id]))
  }

  /** What `UNIQUE(scan_run_id, check_name)` keeps out of the table. */
  predicate KeysUnique(t: Table) {
    forall a, b | a in t && b in t && a != b :: t[a].scanRunId != t[b].scanRunId || t[a].checkName != t[b].checkName
  }

  /** Whoever asks and whenever: nobody can finish the row, and it is due at any time. */
  ghost predicate FreeForClaim(t: Table, id: nat) {
    id in t && (forall owner: string :: !Holds(t, id, owner)) && forall now: real :: Due(t[id], now)
  }

  /** Nobody can finish the row and no claim will ever select it. */
  ghost predicate Settled(t: Table, id: nat) {
    id in t && (forall owner: string :: !Holds(t, id, owner)) && forall now: real :: !Due(t[id], now)
  }

  lemma RowUpdateKeepsTable(t: Table, id: nat, row: Row)
    requires ValidTable(t) && id in t && t[id].status != Delivered
    requires ValidRow(row) && SameIntent(t[id], row)
    ensures ValidTable(t[id := row]) && KeepsRows(t, t[id := row])
  {
  }

  lemma RowInsertKeepsTable(t: Table, id: nat, row: Row)
    requires ValidTable(t) && id !in t && ValidRow(row)
    requires forall other | other in t :: t[other].scanRunId != row.scanRunId
    ensures ValidTable(t[id := row]) && KeepsRows(t, t[id := row])
  {
  }

  /** Every finishing write keeps the table valid; without the lease it changes nothing. */
  lemma FinishingWritesKeepTable(t: Table, id: nat, owner: string, externalId: string, checkRunId: nat,
                                 leaseUntil: real, attemptCount: nat, reason: DeadLetterReason)
    requires ValidTable(t)
    ensures var d := AfterDelivered(t, id, owner, externalId, checkRunId, attemptCount);
            ValidTable(d) && KeepsRows(t, d) && (d == t <== !Holds(t, id, owner))
    ensures var r := AfterRelease(t, id, owner);
            ValidTable(r) && KeepsRows(t, r) && (r == t <== !Holds(t, id, owner))
    ensures var s := AfterReschedule(t, id, owner, leaseUntil, attemptCount);
            ValidTable(s) && KeepsRows(t, s) && (s == t <== !Holds(t, id, owner))
    ensures var k := AfterDead(t, id, owner, attemptCount, reason);
            ValidTable(k) && KeepsRows(t, k) && (k == t <== !Holds(t, id, owner))
  {
    if Holds(t, id, owner) {
      RowUpdateKeepsTable(t, id, AfterDelivered(t, id, owner, externalId, checkRunId, attemptCount)[id]);
      RowUpdateKeepsTable(t, id, AfterRelease(t, id, owner)[id]);
      RowUpdateKeepsTable(t, id, AfterReschedule(t, id, owner, leaseUntil, attemptCount)[id]);
      RowUpdateKeepsTable(t, id, AfterDead(t, id, owner, attemptCount, reason)[id]);
    }
  }

  /** The owner check alone is enough: only a claimed row can pass it. */
  lemma HoldsImpliesClaimed(t: Table, id: nat, owner: string)
    requires ValidTable(t) && Holds(t, id, owner)
    ensures t[id].status == Claimed && t[id].leaseUntil.Some?
  {
  }

  /**
    Being claimed away stops the former holder's finishing writes exactly when the claimant has
    another name; the status and the lease play no part in the comparison.
  */
  lemma TakenOverIffNamesDiffer(t: Table, id: nat, owner: string, claimant: string, leaseUntil: real,
                                externalId: string, checkRunId: nat, attemptCount: nat, reason: DeadLetterReason)
    requires Holds(t, id, owner)
    ensures var taken := ClaimRows(t, [id], claimant, leaseUntil);
            && (AfterDelivered(taken, id, owner, externalId, checkRunId, attemptCount) == taken <==> claimant != owner)
            && (AfterDead(taken, id, owner, attemptCount, reason) == taken <==> claimant != owner)
            && (AfterRelease(taken, id, owner) == taken <==> claimant != owner)
  {
    var taken := ClaimRows(t, [id], claimant, leaseUntil);
    assert taken[id] == ClaimedRow(t[id], claimant, leaseUntil);
    if claimant == owner {
      assert AfterDelivered(taken, id, owner, externalId, checkRunId, attemptCount)[id].status == Delivered;
      assert AfterDead(taken, id, owner, attemptCount, reason)[id].status == Dead;
      assert AfterRelease(taken, id, owner)[id].status == Pending;
    }
  }

  lemma ClaimKeepsTable(t: Table, now: real, locked: set<nat>, limit: nat, ids: seq<nat>, owner: string,
                        leaseUntil: real)
    requires ValidTable(t) && IsClaimSelection(t, now, locked, limit, ids)
    ensures ValidTable(ClaimRows(t, ids, owner, leaseUntil))
    ensures KeepsRows(t, ClaimRows(t, ids, owner, leaseUntil))
    ensures forall id | id in t && id !in ids :: ClaimRows(t, ids, owner, leaseUntil)[id] == t[id]
  {
    forall id | id in t && id in ids ensures t[id].status in {Pending, Claimed} {
      var i :| 0 <= i < |ids| && ids[i] == id;
    }
  }

  lemma ReplayKeepsTable(t: Table, id: nat)
    requires ValidTable(t)
    ensures ValidTable(AfterReplay(t, id)) && KeepsRows(t, AfterReplay(t, id))
    ensures AfterReplay(t, id) != t <==> id in t && t[id].status in {Disabled, Dead}
    ensures id in t ==> AfterReplay(t, id)[id].attemptCount == t[id].attemptCount
  {
    if id in t && t[id].status in {Disabled, Dead} {
      assert AfterReplay(t, id)[id].status == Pending;
    }
  }

  // ------------------------------------------------------------------ the table itself

  /** The oldest of a non-empty set of rows. */
  method Oldest(t: Table, candidates: set<nat>) returns (oldest: nat)
    requires candidates != {} && forall id | id in candidates :: id in t
    ensures oldest in candidates
    ensures forall id | id in candidates :: t[oldest].createdAt <= t[id].createdAt
  {
    var todo := candidates;
    oldest :| oldest in candidates;
    while todo != {}
      invariant todo <= candidates && oldest in candidates
      invariant forall id | id in candidates - todo :: t[oldest].createdAt <= t[id].createdAt
      decreases todo
    {
      var id :| id in todo;
      if t[id].createdAt < t[oldest].createdAt { oldest := id; }
      todo := todo - {id};
    }
    assert candidates - todo == candidates;
  }

  class PublicationTable {
    var rows: Table

    constructor ()
      ensures rows == map[]
    {
      rows := map[];
    }

    /** `UNIQUE(scan_run_id, check_name)` refuses a second row for one scan. */
    method Create(id: nat, row: Row) returns (created: bool)
      requires id !in rows
      modifies this
      ensures created <==> !exists other ::
                other in old(rows) && old(rows)[other].scanRunId == row.scanRunId
                && old(rows)[other].checkName == row.checkName
      ensures old(KeysUnique(rows)) ==> KeysUnique(rows) && (created <==> KeysUnique(old(rows)[id := row]))
      ensures exists any :: any in rows && rows[any].scanRunId == row.scanRunId && rows[any].checkName == row.checkName
      ensures rows == if created then old(rows)[id := row] else old(rows)
    {
      created := forall other | other in rows ::
        rows[other].scanRunId != row.scanRunId || rows[other].checkName != row.checkName;
      ghost var accepted := rows[id := row];
      if created {
        rows := rows[id := row];
        assert id in rows;
      } else {
        ghost var other :|
          other in rows && rows[other].scanRunId == row.scanRunId && rows[other].checkName == row.checkName;
        assert other in accepted && id in accepted && accepted[other] == rows[other] && accepted[id] == row;
      }
    }

    method ClaimDue(limit: nat, owner: string, leaseUntil: real, now: real, locked: set<nat>) returns (ids: seq<nat>)
      modifies this
      ensures IsClaimSelection(old(rows), now, locked, limit, ids)
      ensures rows == ClaimRows(old(rows), ids, owner, leaseUntil)
    {
      ids := SelectDue(rows, now, locked, limit);
      ghost var before := rows;
      for i := 0 to |ids|
        invariant rows.Keys == before.Keys
        invariant forall id | id in before ::
            rows[id] == if id in ids[..i] then ClaimedRow(before[id], owner, leaseUntil) else before[id]
      {
        rows := rows[ids[i] := rows[ids[i]].(status := Claimed, leasedBy := Some(owner),
                                             leaseUntil := Some(leaseUntil))];
        assert ids[..i + 1] == ids[..i] + [ids[i]];
      }
      assert ids[..|ids|] == ids;
    }

    method MarkDelivered(id: nat, owner: string, externalId: string, checkRunId: nat, attemptCount: nat)
      returns (ok: bool)
      modifies this
      ensures rows == AfterDelivered(old(rows), id, owner, externalId, checkRunId, attemptCount)
      ensures ok == Holds(old(rows), id, owner)
      ensures OnlyRowWritten(old(rows), rows, id) && (!ok ==> rows == old(rows))
      ensures ok ==> && rows[id].status == Delivered && rows[id].attemptCount == attemptCount
                     && rows[id].externalId == Some(externalId) && rows[id].checkRunId == Some(checkRunId)
                     && Settled(rows, id)
    {
      ok := id in rows && rows[id].leasedBy == Some(owner);
      if ok {
        var row := rows[id].(status := Delivered, leasedBy := None, leaseUntil := None);
        row := row.(attemptCount := attemptCount, externalId := Some(externalId), checkRunId := Some(checkRunId));
        rows := rows[id := row];
      }
    }

    method Release(id: nat, owner: string) returns (ok: bool)
      modifies this
      ensures rows == AfterRelease(old(rows), id, owner)
      ensures ok == Holds(old(rows), id, owner)
      ensures OnlyRowWritten(old(rows), rows, id) && (!ok ==> rows == old(rows))
      ensures ok ==> FreeForClaim(rows, id) && rows[id].attemptCount == old(rows)[id].attemptCount
    {
      ok := id in rows && rows[id].leasedBy == Some(owner);
      if ok { rows := rows[id := rows[id].(status := Pending, leasedBy := None, leaseUntil := None)]; }
    }

    method Reschedule(id: nat, owner: string, leaseUntil: real, attemptCount: nat) returns (ok: bool)
      modifies this
      ensures rows == AfterReschedule(old(rows), id, owner, leaseUntil, attemptCount)
      ensures ok == Holds(old(rows), id, owner)
      ensures OnlyRowWritten(old(rows), rows, id) && (!ok ==> rows == old(rows))
      ensures ok ==> && Holds(rows, id, owner) && rows[id].attemptCount == attemptCount
                     && forall now: real :: Due(rows[id], now) <==> leaseUntil < now
    {
      ok := id in rows && rows[id].leasedBy == Some(owner);
      if ok {
        var row := rows[id].(status := Claimed, leasedBy := Some(owner), leaseUntil := Some(leaseUntil));
        rows := rows[id := row.(attemptCount := attemptCount)];
      }
    }

    method MarkDead(id: nat, owner: string, attemptCount: nat, reason: DeadLetterReason) returns (ok: bool)
      modifies this
      ensures rows == AfterDead(old(rows), id, owner, attemptCount, reason)
      ensures ok == Holds(old(rows), id, owner)
      ensures OnlyRowWritten(old(rows), rows, id) && (!ok ==> rows == old(rows))
      ensures ok ==> && rows[id].status == Dead && rows[id].attemptCount == attemptCount
                     && rows[id].deadLetterReason == Some(reason) && Settled(rows, id)
    {
      ok := id in rows && rows[id].leasedBy == Some(owner);
      if ok {
        var row := rows[id].(status := Dead, leasedBy := None, leaseUntil := None);
        rows := rows[id := row.(attemptCount := attemptCount, deadLetterReason := Some(reason))];
      }
    }

    method Replay(id: nat) returns (ok: bool)
      modifies this
      ensures rows == AfterReplay(old(rows), id)
      ensures ok <==> id in old(rows) && old(rows)[id].status in {Disabled, Dead}
      ensures OnlyRowWritten(old(rows), rows, id) && (!ok ==> rows == old(rows))
      ensures ok ==> && FreeForClaim(rows, id) && rows[id].deadLetterReason.None?
                     && rows[id].attemptCount == old(rows)[id].attemptCount
      ensures old(ValidTable(rows)) && id in old(rows) ==>
                (ok <==> old(Settled(rows, id)) && old(rows)[id].status != Delivered)
    {
      ok := id in rows && rows[id].status in {Disabled, Dead};
      if id in rows && rows[id].status == Claimed && rows[id].leasedBy.Some? {
        assert Holds(rows, id, rows[id].leasedBy.value);
      } else if id in rows && rows[id].status == Pending {
        assert Due(rows[id], 0.0);
      }
      if ok {
        rows := rows[id := rows[id].(status := Pending, deadLetterReason := None, leasedBy := None,
                                     leaseUntil := None)];
      }
    }
  }

  /** The SELECT of a claim: repeatedly take the oldest remaining due row. */
  method SelectDue(t: Table, now: real, locked: set<nat>, limit: nat) returns (ids: seq<nat>)
    ensures IsClaimSelection(t, now, locked, limit, ids)
  {
    var due := set id | id in t && id !in locked && Due(t[id], now);
    var rest := due;
    ids := [];
    while |ids| < limit && rest != {}
      invariant rest <= due && |ids| <= limit
      invariant forall id :: id in due <==> id in rest || id in ids
      invariant forall i | 0 <= i < |ids| :: ids[i] in due - rest
      invariant forall i, j | 0 <= i < j < |ids| :: ids[i] != ids[j] && t[ids[i]].createdAt <= t[ids[j]].createdAt
      invariant forall i, id | 0 <= i < |ids| && id in rest :: t[ids[i]].createdAt <= t[id].createdAt
    {
      var next := Oldest(t, rest);
      ids := ids + [next];
      rest := rest - {next};
    }
  }
}
