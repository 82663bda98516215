/**
  The lifecycle and the sweeps share the outbox. Each was verified against an assumption about
  the other; here each is shown to meet what the other assumes, so that both invariants hold of
  the whole system. What they imply for its runs is the subject of SystemConvergence.
*/
module ScanPublication {
  import opened Wrappers
  import opened CheckIdentity
  import opened FindingIndex
  import opened ScanTables
  import ScanLifecycle
  import ScanSafety
  import SweepProtocol
  import Outbox

  /** What the delivery step would load for a run. */
  function ScanRecordOf(repos: map<nat, Repo>, run: Run): SweepProtocol.ScanRecord {
    SweepProtocol.ScanRecord(
      if run.subject.Repository? && run.subject.id in repos
      then Some(repos[run.subject.id].owner + "/" + repos[run.subject.id].name) else None,
      run.commitSha)
  }

  function ScanRecords(repos: map<nat, Repo>, runs: map<nat, Run>): map<nat, SweepProtocol.ScanRecord> {
    map runId | runId in runs :: ScanRecordOf(repos, runs[runId])
  }

  /** Both machines look at the same outbox, and the sweeps read the lifecycle's runs. */
  predicate Shared(s: ScanLifecycle.State, u: SweepProtocol.State) {
    u.table == s.db.outbox && u.scans == ScanRecords(s.db.repos, s.db.runs)
  }

  // ------------------------------------------------------------------ the lifecycle serves the sweeps

  predicate KeepsNames(before: map<nat, Repo>, after: map<nat, Repo>) {
    forall id | id in before :: id in after && after[id].owner == before[id].owner && after[id].name == before[id].name
  }

  lemma StepKeepsNames(s: ScanLifecycle.State, e: ScanLifecycle.Event)
    requires ScanLifecycle.Enabled(s, e)
    ensures KeepsNames(s.db.repos, ScanLifecycle.Step(s, e).db.repos)
  {
    hide CompleteOutcome, FailOutcome, LoadError, Triggers;
  }

  /** A published run is finished, and a finished run's record never changes. */
  lemma PublishedRecordKept(s: ScanLifecycle.State, e: ScanLifecycle.Event, id: nat)
    requires ScanLifecycle.Inv(s) && ScanLifecycle.Enabled(s, e) && id in s.db.outbox
    ensures var t, runId := ScanLifecycle.Step(s, e), s.db.outbox[id].scanRunId;
            && runId in s.db.runs && runId in t.db.runs
            && ScanRecordOf(t.db.repos, t.db.runs[runId]) == ScanRecordOf(s.db.repos, s.db.runs[runId])
  {
    assert ScanLifecycle.IntentOk(s.db.repos, s.db.runs, s.db.outbox[id]);
    ScanSafety.StepKeepsFinished(s, e, s.db.outbox[id].scanRunId);
    StepKeepsNames(s, e);
    hide ScanLifecycle.Inv, ScanLifecycle.Step, ScanLifecycle.Enabled;
  }

  /** Either the outbox stays as it is or one intent is added, under an unused identifier. */
  predicate AddsAtMostOneIntent(before: Outbox.Table, after: Outbox.Table, id: nat) {
    || after == before
    || (&& id !in before && id in after && after == before[id := after[id]]
        && after[id] == Outbox.NewRow(after[id].scanRunId, after[id].checkName, after[id].outcome, after[id].summary,
                                      after[id].createdAt))
  }

  lemma CompleteAddsAtMostOneIntent(db: Db, attempt: Loaded, headSha: Option<string>, batch: seq<Finding>,
                                    summary: string)
    requires db.nextId !in db.outbox
    ensures AddsAtMostOneIntent(db.outbox, AfterComplete(db, attempt, headSha, batch, summary).outbox, db.nextId)
  {
    hide CompleteOutcome, Eligible, UpsertAll;
  }

  lemma FailAddsAtMostOneIntent(db: Db, taskId: nat, message: string, summary: string)
    requires db.nextId !in db.outbox
    ensures AddsAtMostOneIntent(db.outbox, AfterFail(db, taskId, message, summary).outbox, db.nextId)
  {
    hide FailOutcome, Eligible;
  }

  lemma NextIdFree(s: ScanLifecycle.State)
    requires ScanLifecycle.Inv(s)
    ensures s.db.nextId !in s.db.outbox
  {
  }

  lemma TriggerAndLoadKeepOutbox(db: Db, e: ScanLifecycle.Event)
    ensures e.Trigger? ==> AfterTrigger(db, e.request).outbox == db.outbox
    ensures e.Load? ==> AfterLoad(db, e.taskId, e.unsealable, e.dastEnabled).outbox == db.outbox
  {
    hide LoadError, Triggers;
  }

  lemma StepAddsAtMostOneIntent(s: ScanLifecycle.State, e: ScanLifecycle.Event) returns (id: nat)
    requires ScanLifecycle.Inv(s) && ScanLifecycle.Enabled(s, e) && !e.OutboxMoves?
    ensures AddsAtMostOneIntent(s.db.outbox, ScanLifecycle.Step(s, e).db.outbox, id)
  {
    hide ScanLifecycle.Inv, AfterComplete, AfterFail, AfterTrigger, AfterLoad, AddsAtMostOneIntent, Triaged,
         ScanLifecycle.LoadedAfter, ScanLifecycle.HistoryAfter;
    id := s.db.nextId;
    NextIdFree(s);
    TriggerAndLoadKeepOutbox(s.db, e);
    match e {
      case Complete(attempt, headSha, batch, summary) => CompleteAddsAtMostOneIntent(s.db, attempt, headSha, batch,
                                                                                     summary);
      case Fail(taskId, message, summary) => FailAddsAtMostOneIntent(s.db, taskId, message, summary);
      case OutboxMoves(_) =>
      case _ =>
        assert ScanLifecycle.Step(s, e).db.outbox == s.db.outbox;
        SameTable(s.db.outbox, id);
    }
  }

  lemma SameTable(table: Outbox.Table, id: nat)
    ensures AddsAtMostOneIntent(table, table, id)
  {
  }

  /**
    Every committed lifecycle step is, to the sweeps, a harmless change of the runs followed by
    at most one new row whose run and repository they will be able to load.
  */
  lemma LifecycleServesSweeps(s: ScanLifecycle.State, e: ScanLifecycle.Event, u: SweepProtocol.State) returns (id: nat)
    requires ScanLifecycle.Inv(s) && ScanLifecycle.Enabled(s, e) && !e.OutboxMoves?
    requires SweepProtocol.Inv(u) && Shared(s, u)
    ensures var t := ScanLifecycle.Step(s, e);
            var renew := SweepProtocol.UpdateScans(ScanRecords(t.db.repos, t.db.runs));
            && SweepProtocol.Enabled(u, renew)
            && var v := SweepProtocol.Step(u, renew);
               && SweepProtocol.Inv(v)
               && (t.db.outbox != s.db.outbox ==>
                     && id in t.db.outbox
                     && var create := SweepProtocol.Create(id, t.db.outbox[id]);
                        && SweepProtocol.Enabled(v, create)
                        && SweepProtocol.Inv(SweepProtocol.Step(v, create)) && Shared(t, SweepProtocol.Step(v, create)))
               && (t.db.outbox == s.db.outbox ==> Shared(t, v))
  {
    hide ScanLifecycle.Inv, ScanLifecycle.Step, ScanLifecycle.Enabled, SweepProtocol.Inv, ScanRecords,
         SweepProtocol.Deliverable, SweepProtocol.Step, SweepProtocol.Enabled;
    var t := ScanLifecycle.Step(s, e);
    var renew := SweepProtocol.UpdateScans(ScanRecords(t.db.repos, t.db.runs));
    RenewalEnabled(s, e, u);
    SweepProtocol.StepKeepsInv(u, renew);
    RenewedState(u, renew);
    id := StepAddsAtMostOneIntent(s, e);
    if t.db.outbox != s.db.outbox {
      NewIntentDeliverable(s, e, id);
      var v := SweepProtocol.Step(u, renew);
      var create := SweepProtocol.Create(id, t.db.outbox[id]);
      CreateEnabled(v, id, t.db.outbox[id]);
      SweepProtocol.StepKeepsInv(v, create);
      SweepProtocol.CreateStep(v, create);
    }
  }

  lemma CreateEnabled(v: SweepProtocol.State, id: nat, row: Outbox.Row)
    requires id !in v.table && SweepProtocol.Deliverable(v.scans, row) && row.checkName == GITHUB_CHECK_NAME
    requires row == Outbox.NewRow(row.scanRunId, row.checkName, row.outcome, row.summary, row.createdAt)
    requires forall other | other in v.table :: v.table[other].scanRunId != row.scanRunId
    ensures SweepProtocol.Enabled(v, SweepProtocol.Create(id, row))
  {
  }

  lemma RenewedState(u: SweepProtocol.State, e: SweepProtocol.Event)
    requires SweepProtocol.Enabled(u, e) && e.UpdateScans?
    ensures SweepProtocol.Step(u, e) == u.(scans := e.scans, steps := u.steps + 1)
  {
  }

  lemma RenewalEnabled(s: ScanLifecycle.State, e: ScanLifecycle.Event, u: SweepProtocol.State)
    requires ScanLifecycle.Inv(s) && ScanLifecycle.Enabled(s, e) && Shared(s, u)
    ensures var t := ScanLifecycle.Step(s, e);
            SweepProtocol.Enabled(u, SweepProtocol.UpdateScans(ScanRecords(t.db.repos, t.db.runs)))
  {
    hide ScanLifecycle.Inv, ScanLifecycle.Step, ScanLifecycle.Enabled, ScanRecordOf;
    forall id | id in u.table
      ensures var t, runId := ScanLifecycle.Step(s, e), u.table[id].scanRunId;
              && runId in u.scans && runId in ScanRecords(t.db.repos, t.db.runs)
              && ScanRecords(t.db.repos, t.db.runs)[runId] == u.scans[runId]
    {
      PublishedRecordKept(s, e, id);
    }
  }

  lemma IntentDeliverable(repos: map<nat, Repo>, runs: map<nat, Run>, outbox: Outbox.Table, id: nat)
    requires ScanLifecycle.OutboxInv(repos, runs, outbox) && id in outbox
    ensures SweepProtocol.Deliverable(ScanRecords(repos, runs), outbox[id]) && outbox[id].checkName == GITHUB_CHECK_NAME
    ensures forall other | other in outbox && other != id :: outbox[other].scanRunId != outbox[id].scanRunId
  {
    hide Outbox.ValidRow;
    assert ScanLifecycle.IntentOk(repos, runs, outbox[id]);
  }

  lemma NewIntentDeliverable(s: ScanLifecycle.State, e: ScanLifecycle.Event, id: nat)
    requires ScanLifecycle.Inv(s) && ScanLifecycle.Enabled(s, e)
    requires id !in s.db.outbox && id in ScanLifecycle.Step(s, e).db.outbox
    requires ScanLifecycle.Step(s, e).db.outbox == s.db.outbox[id := ScanLifecycle.Step(s, e).db.outbox[id]]
    ensures var t := ScanLifecycle.Step(s, e);
            && SweepProtocol.Deliverable(ScanRecords(t.db.repos, t.db.runs), t.db.outbox[id])
            && t.db.outbox[id].checkName == GITHUB_CHECK_NAME
            && forall other | other in s.db.outbox :: s.db.outbox[other].scanRunId != t.db.outbox[id].scanRunId
  {
    hide ScanLifecycle.LinkInv, ScanLifecycle.WorkUnique, ScanLifecycle.HistoryInv, ScanLifecycle.LoadedInv,
         ScanRecords, ScanLifecycle.FreshInv, ScanLifecycle.OutboxInv, ScanLifecycle.Step, ScanLifecycle.Enabled,
         SweepProtocol.Deliverable;
    ScanLifecycle.StepKeepsInv(s, e);
    var t := ScanLifecycle.Step(s, e);
    IntentDeliverable(t.db.repos, t.db.runs, t.db.outbox, id);
    forall other | other in s.db.outbox ensures s.db.outbox[other].scanRunId != t.db.outbox[id].scanRunId {
      assert t.db.outbox[other] == s.db.outbox[other];
    }
  }

  // ------------------------------------------------------------------ the sweeps leave the lifecycle alone

  lemma FinishedKeys(u: SweepProtocol.State, owner: string, draw: real)
    requires SweepProtocol.InPhase(u, owner)
    ensures SweepProtocol.FinishedTable(u, owner, draw).Keys == u.table.Keys
  {
  }

  lemma SweepStepKeepsKeys(u: SweepProtocol.State, e: SweepProtocol.Event)
    requires SweepProtocol.Inv(u) && SweepProtocol.Enabled(u, e) && !e.Create?
    ensures SweepProtocol.Step(u, e).table.Keys == u.table.Keys
  {
    if SweepProtocol.LeavesRows(e) {
      SweepProtocol.QuietStep(u, e);
    } else if e.Begin? {
      SweepProtocol.BeginStep(u, e);
    } else if e.Finish? {
      FinishedKeys(u, e.owner, e.draw);
      SweepProtocol.FinishStep(u, e);
    } else if e.Claim? {
      SweepProtocol.ClaimStep(u, e);
    }
  }

  /**
    Whatever a sweep, a crash or an operator does to the outbox, the lifecycle sees the same
    intents for the same runs, and keeps its own invariant.
  */
  lemma SweepsKeepLifecycle(s: ScanLifecycle.State, u: SweepProtocol.State, e: SweepProtocol.Event)
    requires ScanLifecycle.Inv(s) && SweepProtocol.Inv(u) && Shared(s, u)
    requires SweepProtocol.Enabled(u, e) && !e.Create? && !e.UpdateScans?
    ensures var v := SweepProtocol.Step(u, e);
            var move := ScanLifecycle.OutboxMoves(v.table);
            && ScanLifecycle.Enabled(s, move)
            && ScanLifecycle.Inv(ScanLifecycle.Step(s, move))
            && SweepProtocol.Inv(v) && Shared(ScanLifecycle.Step(s, move), v)
  {
    hide SweepProtocol.Enabled, SweepProtocol.Step, SweepProtocol.RowsInv, SweepProtocol.SweepsInv,
         SweepProtocol.ServerInv, Outbox.ValidTable, Outbox.KeepsRows, ScanLifecycle.Inv, ScanRecords;
    SweepStepKeepsKeys(u, e);
    SweepProtocol.StepKeepsRows(u, e);
    SweepProtocol.StepKeepsInv(u, e);
    SweepStepKeepsScans(u, e);
    var v := SweepProtocol.Step(u, e);
    RowsAreValid(v);
    assert ScanLifecycle.Enabled(s, ScanLifecycle.OutboxMoves(v.table));
    ScanLifecycle.StepKeepsInv(s, ScanLifecycle.OutboxMoves(v.table));
  }

  lemma RowsAreValid(u: SweepProtocol.State)
    requires SweepProtocol.RowsInv(u)
    ensures Outbox.ValidTable(u.table)
  {
  }

  lemma SweepStepKeepsScans(u: SweepProtocol.State, e: SweepProtocol.Event)
    requires SweepProtocol.Enabled(u, e) && !e.UpdateScans?
    ensures SweepProtocol.Step(u, e).scans == u.scans
  {
    hide SweepProtocol.FinishedTable;
  }

  // ------------------------------------------------------------------ the whole system

  datatype System = System(life: ScanLifecycle.State, sweeps: SweepProtocol.State)

  datatype Action =
    | LifecycleStep(lifecycleEvent: ScanLifecycle.Event)
    | SweepStep(sweepEvent: SweepProtocol.Event)

  /** What the sweeps see of one lifecycle transaction. */
  ghost predicate SeenBySweeps(u: SweepProtocol.State, t: ScanLifecycle.State, v: SweepProtocol.State) {
    var renew := SweepProtocol.UpdateScans(ScanRecords(t.db.repos, t.db.runs));
    && SweepProtocol.Enabled(u, renew)
    && var w := SweepProtocol.Step(u, renew);
       if t.db.outbox == u.table then v == w
       else exists id ::
              && id in t.db.outbox && t.db.outbox == u.table[id := t.db.outbox[id]]
              && SweepProtocol.Enabled(w, SweepProtocol.Create(id, t.db.outbox[id]))
              && v == SweepProtocol.Step(w, SweepProtocol.Create(id, t.db.outbox[id]))
  }

  ghost predicate Next(a: System, action: Action, b: System) {
    match action
    case LifecycleStep(event) =>
      && !event.OutboxMoves? && ScanLifecycle.Enabled(a.life, event)
      && b.life == ScanLifecycle.Step(a.life, event) && SeenBySweeps(a.sweeps, b.life, b.sweeps)
    case SweepStep(event) =>
      && !event.Create? && !event.UpdateScans? && SweepProtocol.Enabled(a.sweeps, event)
      && b.sweeps == SweepProtocol.Step(a.sweeps, event)
      && b.life == a.life.(db := a.life.db.(outbox := b.sweeps.table))
  }

  ghost predicate IsRun(run: seq<System>, actions: seq<Action>) {
    && |run| == |actions| + 1
    && ScanLifecycle.Initial(run[0].life) && SweepProtocol.Initial(run[0].sweeps) && run[0].sweeps.scans == map[]
    && forall i | 0 <= i < |actions| :: Next(run[i], actions[i], run[i + 1])
  }

  ghost predicate SystemInv(a: System) {
    ScanLifecycle.Inv(a.life) && SweepProtocol.Inv(a.sweeps) && Shared(a.life, a.sweeps)
  }

  lemma InitialSystem(a: System)
    requires ScanLifecycle.Initial(a.life) && SweepProtocol.Initial(a.sweeps) && a.sweeps.scans == map[]
    ensures SystemInv(a)
  {
    ScanLifecycle.TraceKeepsInv([a.life], [], 0);
    SweepProtocol.TraceKeepsInv([a.sweeps], [], 0);
  }

  lemma SweepActionKeepsSystem(a: System, event: SweepProtocol.Event, b: System)
    requires SystemInv(a) && Next(a, SweepStep(event), b)
    ensures SystemInv(b)
  {
    SweepsKeepLifecycle(a.life, a.sweeps, event);
    OutboxMoved(a.life, b.sweeps.table);
    hide ScanLifecycle.Inv, SweepProtocol.Inv, SweepProtocol.Step, SweepProtocol.Enabled, ScanRecords,
         ScanLifecycle.Step, ScanLifecycle.Enabled;
  }

  lemma OutboxMoved(s: ScanLifecycle.State, table: Outbox.Table)
    requires ScanLifecycle.Enabled(s, ScanLifecycle.OutboxMoves(table))
    ensures ScanLifecycle.Step(s, ScanLifecycle.OutboxMoves(table)) == s.(db := s.db.(outbox := table))
  {
  }

  lemma LifecycleActionKeepsSystem(a: System, event: ScanLifecycle.Event, b: System)
    requires SystemInv(a) && Next(a, LifecycleStep(event), b)
    ensures SystemInv(b)
  {
    var renew := SweepProtocol.UpdateScans(ScanRecords(b.life.db.repos, b.life.db.runs));
    ScanLifecycle.StepKeepsInv(a.life, event);
    SweepProtocol.StepKeepsInv(a.sweeps, renew);
    RenewedState(a.sweeps, renew);
    var w := SweepProtocol.Step(a.sweeps, renew);
    hide ScanLifecycle.Inv, SweepProtocol.Inv, SweepProtocol.Step, SweepProtocol.Enabled, ScanRecords,
         ScanLifecycle.Step, ScanLifecycle.Enabled;
    if b.life.db.outbox != a.sweeps.table {
      var id :|
        && id in b.life.db.outbox && b.life.db.outbox == a.sweeps.table[id := b.life.db.outbox[id]]
        && SweepProtocol.Enabled(w, SweepProtocol.Create(id, b.life.db.outbox[id]))
        && b.sweeps == SweepProtocol.Step(w, SweepProtocol.Create(id, b.life.db.outbox[id]));
      SweepProtocol.StepKeepsInv(w, SweepProtocol.Create(id, b.life.db.outbox[id]));
      SweepProtocol.CreateStep(w, SweepProtocol.Create(id, b.life.db.outbox[id]));
    }
  }

  /** Neither machine ever blocks the other: what one commits the other can always follow. */
  lemma LifecycleNeverBlocked(a: System, event: ScanLifecycle.Event) returns (b: System)
    requires SystemInv(a) && ScanLifecycle.Enabled(a.life, event) && !event.OutboxMoves?
    ensures Next(a, LifecycleStep(event), b)
  {
    hide ScanLifecycle.Inv, SweepProtocol.Inv, SweepProtocol.Step, SweepProtocol.Enabled, ScanRecords,
         ScanLifecycle.Step, ScanLifecycle.Enabled;
    var t := ScanLifecycle.Step(a.life, event);
    var id := LifecycleServesSweeps(a.life, event, a.sweeps);
    var renew := SweepProtocol.UpdateScans(ScanRecords(t.db.repos, t.db.runs));
    var w := SweepProtocol.Step(a.sweeps, renew);
    RenewedState(a.sweeps, renew);
    if t.db.outbox == a.life.db.outbox {
      b := System(t, w);
    } else {
      b := System(t, SweepProtocol.Step(w, SweepProtocol.Create(id, t.db.outbox[id])));
      SweepProtocol.CreateStep(w, SweepProtocol.Create(id, t.db.outbox[id]));
    }
  }

  lemma {:induction false} RunKeepsSystem(run: seq<System>, actions: seq<Action>, n: nat)
    requires IsRun(run, actions) && n < |run|
    ensures SystemInv(run[n])
  {
    hide SystemInv, Next;
    if n == 0 {
      InitialSystem(run[0]);
    } else {
      RunKeepsSystem(run, actions, n - 1);
      match actions[n - 1] {
        case LifecycleStep(event) => LifecycleActionKeepsSystem(run[n - 1], event, run[n]);
        case SweepStep(event) => SweepActionKeepsSystem(run[n - 1], event, run[n]);
      }
    }
  }

  /**
    End to end: a delivered publication belongs to a finished run of a GitHub repository, and
    the server holds a Check Run with that run's external id, on that repository and commit.
  */
  lemma DeliveredPublicationIsOnGitHub(run: seq<System>, actions: seq<Action>, n: nat, id: nat)
    requires IsRun(run, actions) && n < |run|
    requires id in run[n].life.db.outbox && run[n].life.db.outbox[id].status == Outbox.Delivered
    ensures var db, server, row := run[n].life.db, run[n].sweeps.server, run[n].life.db.outbox[id];
            && row.scanRunId in db.runs && row.checkRunId.Some? && row.checkRunId.value in server.runs
            && var scan, check := db.runs[row.scanRunId], server.runs[row.checkRunId.value];
               && scan.status in {RunCompleted, RunFailed}
               && scan.subject.Repository? && scan.subject.id in db.repos
               && db.repos[scan.subject.id].provider == GitHub
               && check.repo == db.repos[scan.subject.id].owner + "/" + db.repos[scan.subject.id].name
               && Some(check.headSha) == scan.commitSha
               && check.externalId == Some(ExternalId(row.scanRunId))
  {
    RunKeepsSystem(run, actions, n);
    DeliveredIsOnGitHub(run[n], id);
  }

  lemma DeliveredIsOnGitHub(a: System, id: nat)
    requires SystemInv(a) && id in a.life.db.outbox && a.life.db.outbox[id].status == Outbox.Delivered
    ensures var db, server, row := a.life.db, a.sweeps.server, a.life.db.outbox[id];
            && row.scanRunId in db.runs && row.checkRunId.Some? && row.checkRunId.value in server.runs
            && var scan, check := db.runs[row.scanRunId], server.runs[row.checkRunId.value];
               && scan.status in {RunCompleted, RunFailed}
               && scan.subject.Repository? && scan.subject.id in db.repos
               && db.repos[scan.subject.id].provider == GitHub
               && check.repo == db.repos[scan.subject.id].owner + "/" + db.repos[scan.subject.id].name
               && Some(check.headSha) == scan.commitSha
               && check.externalId == Some(ExternalId(row.scanRunId))
  {
    hide ScanLifecycle.LinkInv, ScanLifecycle.WorkUnique, ScanLifecycle.SubjectsOk, ScanLifecycle.HistoryInv,
         ScanLifecycle.LoadedInv, ScanLifecycle.FreshInv, SweepProtocol.SweepsInv, SweepProtocol.TableInv;
    assert ScanLifecycle.IntentOk(a.life.db.repos, a.life.db.runs, a.life.db.outbox[id]);
    assert SweepProtocol.DeliveryRecorded(a.sweeps.scans, a.sweeps.server, a.sweeps.table[id]);
  }
}
