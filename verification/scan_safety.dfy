/** What holds in every reachable state of the scan lifecycle, and across any two of them. */
module ScanSafety {
  import opened Wrappers
  import opened CheckIdentity
  import opened FindingIndex
  import opened ScanTables
  import opened ScanLifecycle
  import RepositoryDiff

  // ------------------------------------------------------------------ runs and tasks

  /** Every run has exactly one task, always in the same status and with the same times as the run. */
  lemma RunsAndTasksAgree(states: seq<State>, events: seq<Event>, n: nat, runId: nat) returns (taskId: nat)
    requires IsTrace(states, events) && n < |states| && runId in states[n].db.runs
    ensures var db := states[n].db;
            && taskId in db.tasks && db.tasks[taskId].runId == runId
            && (forall other | other in db.tasks && db.tasks[other].runId == runId :: other == taskId)
            && var run, task := db.runs[runId], db.tasks[taskId];
               && (run.status == RunPending <==> task.status == TaskPending)
               && (run.status == RunRunning <==> task.status == TaskRunning)
               && (run.status == RunCompleted <==> task.status == TaskCompleted)
               && (run.status == RunFailed <==> task.status == TaskFailed)
               && run.status != RunCancelled && task.status != TaskSkipped
               && run.startedAt == task.startedAt && run.completedAt == task.completedAt
               && (run.completedAt.Some? <==> Terminal(run.status))
               && (task.errorMessage.Some? <==> task.status == TaskFailed)
  {
    TraceKeepsInv(states, events, n);
    hide WorkUnique, SubjectsOk, OutboxInv, HistoryInv, LoadedInv, FreshInv;
    var db := states[n].db;
    taskId :| taskId in db.tasks && db.tasks[taskId].runId == runId;
    assert InStep(db.runs[runId], db.tasks[taskId]);
  }

  predicate KeepsFinished(before: map<nat, Run>, after: map<nat, Run>, runId: nat)
    requires runId in before
  {
    && runId in after && after[runId].subject == before[runId].subject
    && (Terminal(before[runId].status) ==> after[runId] == before[runId])
  }

  lemma TriggerKeepsFinished(s: State, request: TriggerRequest, runId: nat)
    requires FreshInv(s.db) && runId in s.db.runs
    ensures KeepsFinished(s.db.runs, AfterTrigger(s.db, request).runs, runId)
  {
    if Triggers(s.db, request) { TriggeredRun(s.db, request); }
  }

  lemma LoadKeepsFinished(s: State, e: Event, runId: nat)
    requires LinkInv(s.db.runs, s.db.tasks) && e.Load? && runId in s.db.runs
    ensures KeepsFinished(s.db.runs, EffectOn(s, e).runs, runId)
  {
    LoadedRun(s.db, e.taskId, e.unsealable, e.dastEnabled);
    hide LinkInv, AfterLoad, LoadError, InStep;
  }

  lemma CompleteKeepsFinished(s: State, e: Event, runId: nat)
    requires Inv(s) && e.Complete? && Enabled(s, e) && runId in s.db.runs
    ensures KeepsFinished(s.db.runs, EffectOn(s, e).runs, runId)
  {
    CompleteOutcomeExact(s, e.attempt, e.headSha, e.batch);
    AttemptInStep(s, e.attempt);
    hide Inv, DistinctFingerprints, Eligible, CompleteOutcome, InStep, SubjectOk;
    if CompleteOutcome(s.db, e.attempt, e.headSha, e.batch) == Transitioned {
      var run := CompletedRun(s.db, e.attempt, e.headSha);
      assert EffectOn(s, e).runs == s.db.runs[e.attempt.runId := run];
    }
  }

  lemma FailKeepsFinished(s: State, e: Event, runId: nat)
    requires Inv(s) && e.Fail? && runId in s.db.runs
    ensures KeepsFinished(s.db.runs, EffectOn(s, e).runs, runId)
  {
    FailOutcomeExact(s, e.taskId);
    if e.taskId in s.db.tasks { TaskInStep(s.db, e.taskId); }
    hide Inv, Eligible, FailOutcome, InStep;
  }

  lemma SameRunsKeepFinished(runs: map<nat, Run>, runId: nat)
    requires runId in runs
    ensures KeepsFinished(runs, runs, runId)
  {
  }

  /** One step never removes a run and never touches a finished one. */
  lemma StepKeepsFinished(s: State, e: Event, runId: nat)
    requires Inv(s) && Enabled(s, e) && runId in s.db.runs
    ensures KeepsFinished(s.db.runs, Step(s, e).db.runs, runId)
  {
    hide LinkInv, WorkUnique, SubjectsOk, OutboxInv, HistoryInv, LoadedInv, FreshInv, AfterTrigger, AfterLoad,
         AfterComplete, AfterFail, KeepsFinished, LoadedAfter, HistoryAfter;
    match e {
      case Trigger(request) => TriggerKeepsFinished(s, request, runId);
      case Load(_, _, _) => LoadKeepsFinished(s, e, runId);
      case Complete(_, _, _, _) => CompleteKeepsFinished(s, e, runId);
      case Fail(_, _, _) => FailKeepsFinished(s, e, runId);
      case _ => SameRunsKeepFinished(s.db.runs, runId);
    }
  }

  /**
    Terminal is final: from the moment a run has finished, its status, commit, times and subject
    are the same in every later state.
  */
  lemma {:induction false} FinishedRunsFrozen(states: seq<State>, events: seq<Event>, m: nat, n: nat, runId: nat)
    requires IsTrace(states, events) && m <= n < |states|
    requires runId in states[m].db.runs && Terminal(states[m].db.runs[runId].status)
    ensures runId in states[n].db.runs && states[n].db.runs[runId] == states[m].db.runs[runId]
    decreases n
  {
    hide Inv, Step, Enabled;
    if m < n {
      FinishedRunsFrozen(states, events, m, n - 1, runId);
      TraceKeepsInv(states, events, n - 1);
      StepKeepsFinished(states[n - 1], events[n - 1], runId);
    }
  }

  predicate FinishesAt(states: seq<State>, k: nat, runId: nat)
    requires k + 1 < |states|
  {
    && runId in states[k + 1].db.runs && Terminal(states[k + 1].db.runs[runId].status)
    && (runId in states[k].db.runs ==> !Terminal(states[k].db.runs[runId].status))
  }

  lemma {:induction false} FinishedAtSomeStep(states: seq<State>, events: seq<Event>, n: nat, runId: nat)
    returns (k: nat)
    requires IsTrace(states, events) && n < |states|
    requires runId in states[n].db.runs && Terminal(states[n].db.runs[runId].status)
    ensures k < n && FinishesAt(states, k, runId)
  {
    hide Enabled, Step;
    if runId in states[n - 1].db.runs && Terminal(states[n - 1].db.runs[runId].status) {
      k := FinishedAtSomeStep(states, events, n - 1, runId);
    } else {
      k := n - 1;
    }
  }

  /** Redeliveries and retries notwithstanding, a finished run finished in exactly one step. */
  lemma FinishesExactlyOnce(states: seq<State>, events: seq<Event>, n: nat, runId: nat) returns (k: nat)
    requires IsTrace(states, events) && n < |states|
    requires runId in states[n].db.runs && Terminal(states[n].db.runs[runId].status)
    ensures k < n && FinishesAt(states, k, runId)
    ensures forall j: nat | j + 1 < |states| && FinishesAt(states, j, runId) :: j == k
  {
    k := FinishedAtSomeStep(states, events, n, runId);
    forall j: nat | j + 1 < |states| && FinishesAt(states, j, runId) ensures j == k {
      var first, second := if j < k then j else k, if j < k then k else j;
      if first < second { FinishedRunsFrozen(states, events, first + 1, second, runId); }
    }
  }

  /** At most one pending or running task per repository, commit and scanner, or target and scanner. */
  lemma InFlightWorkUnique(states: seq<State>, events: seq<Event>, n: nat, a: nat, b: nat)
    requires IsTrace(states, events) && n < |states|
    requires var db := states[n].db;
             InFlight(db.runs, db.tasks, a) && InFlight(db.runs, db.tasks, b)
             && db.runs[db.tasks[a].runId].subject == db.runs[db.tasks[b].runId].subject
             && db.tasks[a].scanner == db.tasks[b].scanner
             && (db.runs[db.tasks[a].runId].subject.Repository? ==>
                   db.runs[db.tasks[a].runId].commitSha == db.runs[db.tasks[b].runId].commitSha)
    ensures a == b
  {
    TraceKeepsInv(states, events, n);
    hide LinkInv, OutboxInv, HistoryInv, LoadedInv, FreshInv;
    var db := states[n].db;
    assert SubjectOk(db.repos, db.targets, db.runs[db.tasks[a].runId]);
    assert SubjectOk(db.repos, db.targets, db.runs[db.tasks[b].runId]);
  }

  // ------------------------------------------------------------------ publications

  predicate PublishesRun(db: Db, id: nat, runId: nat) { id in db.outbox && db.outbox[id].scanRunId == runId }

  /**
    A publication exists for a run exactly when the run is finished, belongs to a GitHub
    repository and has a commit; it is then the only one, and says success iff completed.
  */
  lemma PublicationIffFinishedOnGitHub(states: seq<State>, events: seq<Event>, n: nat, runId: nat)
    requires IsTrace(states, events) && n < |states| && runId in states[n].db.runs
    ensures var db := states[n].db;
            var run := db.runs[runId];
            && ((exists id: nat :: PublishesRun(db, id, runId)) <==>
                 && run.status in {RunCompleted, RunFailed}
                 && run.subject.Repository? && run.subject.id in db.repos && db.repos[run.subject.id].provider == GitHub
                 && run.commitSha.Some? && run.commitSha.value != "")
            && (forall a: nat, b: nat | PublishesRun(db, a, runId) && PublishesRun(db, b, runId) :: a == b)
            && (forall id: nat | PublishesRun(db, id, runId) ::
                  db.outbox[id].outcome
                  == if run.status == RunCompleted then ChecksClient.Success else ChecksClient.Failure)
  {
    TraceKeepsInv(states, events, n);
    hide LinkInv, WorkUnique, HistoryInv, LoadedInv, FreshInv;
    var db := states[n].db;
    forall id: nat | PublishesRun(db, id, runId) ensures IntentOk(db.repos, db.runs, db.outbox[id]) { }
    if PublicationDue(db.repos, db.runs[runId]) {
      var id :| id in db.outbox && db.outbox[id].scanRunId == runId && db.outbox[id].checkName == GITHUB_CHECK_NAME;
      assert PublishesRun(db, id, runId);
    }
  }

  /**
    No write-back is ever refused by a key of the tables, save for a batch that repeats a
    fingerprint; a failure is recorded exactly when the scan was still in flight.
  */
  lemma WriteBacksNeverCollide(states: seq<State>, events: seq<Event>, n: nat, attempt: Loaded, headSha: Option<string>,
                               batch: seq<Finding>, taskId: nat)
    requires IsTrace(states, events) && n < |states| && attempt in states[n].loaded && taskId in states[n].db.tasks
    ensures var db := states[n].db;
            && attempt.taskId in db.tasks
            && (CompleteOutcome(db, attempt, headSha, batch) == Transitioned
                <==> db.tasks[attempt.taskId].status == TaskRunning && DistinctFingerprints(batch))
            && (CompleteOutcome(db, attempt, headSha, batch).Raised?
                <==> db.tasks[attempt.taskId].status == TaskRunning && !DistinctFingerprints(batch))
            && (FailOutcome(db, taskId) == Transitioned <==> db.tasks[taskId].status in {TaskPending, TaskRunning})
            && !FailOutcome(db, taskId).Raised?
  {
    TraceKeepsInv(states, events, n);
    AttemptInStep(states[n], attempt);
    TaskInStep(states[n].db, taskId);
    CompleteOutcomeExact(states[n], attempt, headSha, batch);
    FailOutcomeExact(states[n], taskId);
    hide Inv, CompleteOutcome, FailOutcome, DistinctFingerprints;
  }

  /** Loading a known task never finds its run, repository or target missing. */
  lemma LoadFindsItsRows(states: seq<State>, events: seq<Event>, n: nat, taskId: nat, unsealable: bool,
                         dastEnabled: bool)
    requires IsTrace(states, events) && n < |states| && taskId in states[n].db.tasks
    ensures LoadError(states[n].db, taskId, unsealable, dastEnabled) in {None, Some(DastDisabled),
                                                                         Some(CredentialUnavailable)}
    ensures LoadError(states[n].db, taskId, true, true) == None
  {
    TraceKeepsInv(states, events, n);
    hide LinkInv, WorkUnique, OutboxInv, HistoryInv, LoadedInv, FreshInv;
    var db := states[n].db;
    TaskInStep(db, taskId);
    assert SubjectOk(db.repos, db.targets, db.runs[db.tasks[taskId].runId]);
  }

  // ------------------------------------------------------------------ findings

  predicate ReportedBy(history: seq<Change>, k: int, key: Key) {
    && 0 <= k < |history| && history[k].Completed? && history[k].scan.subject == key.subject
    && Reports(history[k].scan.batch, key.fingerprint)
  }

  lemma {:induction false} ScanIsListed(history: seq<Change>, k: nat) returns (i: nat)
    requires k < |history| && history[k].Completed?
    ensures var scans := ScansOf(history, history[k].scan.subject); i < |scans| && scans[i] == history[k].scan
  {
    var n := |history| - 1;
    if k == n {
      i := |ScansOf(history[..n], history[k].scan.subject)|;
    } else {
      i := ScanIsListed(history[..n], k);
    }
  }

  /** Scans of one subject are listed in the order they completed. */
  lemma {:induction false} ScansListedInOrder(runs: map<nat, Run>, history: seq<Change>, now: real, subject: Subject)
    requires forall i | 0 <= i < |history| && history[i].Completed? :: ScanOk(runs, history[i].scan, now)
    requires forall i, j | 0 <= i < j < |history| && history[i].Completed? && history[j].Completed? ::
               CompletionTime(runs, history[i].scan.runId) <= CompletionTime(runs, history[j].scan.runId)
    requires ValidHistory(history)
    ensures forall i | 0 <= i < |ScansOf(history, subject)| :: ScanOk(runs, ScansOf(history, subject)[i], now)
    ensures forall i, j | 0 <= i < j < |ScansOf(history, subject)| ::
              CompletionTime(runs, ScansOf(history, subject)[i].runId)
              <= CompletionTime(runs, ScansOf(history, subject)[j].runId)
  {
    if history != [] {
      var n := |history| - 1;
      ScansListedInOrder(runs, history[..n], now, subject);
      ScansOfDistinct(history[..n], subject);
      var earlier, all := ScansOf(history[..n], subject), ScansOf(history, subject);
      forall i, j | 0 <= i < j < |all|
        ensures CompletionTime(runs, all[i].runId) <= CompletionTime(runs, all[j].runId)
      {
        assert all[i] == earlier[i];
        if j < |earlier| {
          assert all[j] == earlier[j];
          assert CompletionTime(runs, earlier[i].runId) <= CompletionTime(runs, earlier[j].runId);
        } else {
          var k :| 0 <= k < n && history[..n][k] == Completed(earlier[i]);
          assert history[k] == Completed(earlier[i]);
          assert all[j] == history[n].scan;
          assert CompletionTime(runs, history[k].scan.runId) <= CompletionTime(runs, history[n].scan.runId);
        }
      }
    }
  }

  /**
    Every row of the findings table names two completed runs of its own subject, and they are
    the earliest and the latest to complete of all the scans that reported the finding.
  */
  lemma FindingsNameCompletedRuns(states: seq<State>, events: seq<Event>, n: nat, key: Key)
    requires IsTrace(states, events) && n < |states|
    ensures var s := states[n];
            && (key in s.db.findings <==> exists k :: ReportedBy(s.history, k, key))
            && (key in s.db.findings ==>
                  var row := s.db.findings[key];
                  && ScanOk(s.db.runs, Scan(key.subject, row.firstSeen, []), s.db.now)
                  && ScanOk(s.db.runs, Scan(key.subject, row.lastSeen, []), s.db.now)
                  && forall k | ReportedBy(s.history, k, key) ::
                       CompletionTime(s.db.runs, row.firstSeen)
                       <= CompletionTime(s.db.runs, s.history[k].scan.runId)
                       <= CompletionTime(s.db.runs, row.lastSeen))
  {
    TraceKeepsInv(states, events, n);
    hide LinkInv, WorkUnique, OutboxInv, SubjectsOk, LoadedInv, FreshInv, CompletionTime, IsTrace, HistoryInv,
         ReportedBy, ScanOk;
    HistoryNamesCompletedRuns(states[n].db.runs, states[n].history, states[n].db.findings, states[n].db.now, key);
  }

  lemma HistoryNamesCompletedRuns(runs: map<nat, Run>, history: seq<Change>, findings: Index, now: real, key: Key)
    requires HistoryInv(runs, history, findings, now)
    ensures key in findings <==> exists k :: ReportedBy(history, k, key)
    ensures key in findings ==>
              var row := findings[key];
              && ScanOk(runs, Scan(key.subject, row.firstSeen, []), now)
              && ScanOk(runs, Scan(key.subject, row.lastSeen, []), now)
              && forall k | ReportedBy(history, k, key) ::
                   CompletionTime(runs, row.firstSeen) <= CompletionTime(runs, history[k].scan.runId)
                   <= CompletionTime(runs, row.lastSeen)
  {
    hide CompletionTime, IndexOf, ValidHistory, Reports, RowTellsHistory;
    RowRefinesHistory(history, key);
    ScansListedInOrder(runs, history, now, key.subject);
    ScansOfDistinct(history, key.subject);
    RowNamesExtremes(runs, history, findings, key);
    hide HistoryInv, ReportedBy;
    if key in findings {
      var scans := ScansOf(history, key.subject);
      var i :| 0 <= i < |scans| && scans[i].runId == findings[key].firstSeen;
      var j :| 0 <= j < |scans| && scans[j].runId == findings[key].lastSeen;
      assert ScanOk(runs, scans[i], now) && scans[i].subject == key.subject;
      assert ScanOk(runs, scans[j], now) && scans[j].subject == key.subject;
    }
  }

  lemma RowNamesExtremes(runs: map<nat, Run>, history: seq<Change>, findings: Index, key: Key)
    requires ValidHistory(history) && RowTellsHistory(findings, ScansOf(history, key.subject), key)
    requires var scans := ScansOf(history, key.subject);
             forall i, j | 0 <= i < j < |scans| ::
               CompletionTime(runs, scans[i].runId) <= CompletionTime(runs, scans[j].runId)
    ensures key in findings <==> exists k :: ReportedBy(history, k, key)
    ensures key in findings ==>
              var row, scans := findings[key], ScansOf(history, key.subject);
              && (exists i :: 0 <= i < |scans| && scans[i].runId == row.firstSeen)
              && (exists i :: 0 <= i < |scans| && scans[i].runId == row.lastSeen)
              && forall k | ReportedBy(history, k, key) ::
                   CompletionTime(runs, row.firstSeen)
                   <= CompletionTime(runs, history[k].scan.runId) <= CompletionTime(runs, row.lastSeen)
  {
    hide CompletionTime, ValidHistory, Reports;
    var scans, f := ScansOf(history, key.subject), key.fingerprint;
    forall k | ReportedBy(history, k, key)
      ensures key in findings && CompletionTime(runs, findings[key].firstSeen)
              <= CompletionTime(runs, history[k].scan.runId) <= CompletionTime(runs, findings[key].lastSeen)
    {
      var i := ScanIsListed(history, k);
      assert Occurs(scans, i, f);
      var first :| FirstOccurs(scans, first, f) && findings[key].firstSeen == scans[first].runId;
      var last :| LastOccurs(scans, last, f) && findings[key].lastSeen == scans[last].runId;
      assert first <= i <= last;
    }
    if key in findings {
      var first :| FirstOccurs(scans, first, f) && findings[key].firstSeen == scans[first].runId;
      var last :| LastOccurs(scans, last, f) && findings[key].lastSeen == scans[last].runId;
      ScansOfDistinct(history, key.subject);
      var k :| 0 <= k < |history| && history[k] == Completed(scans[first]);
      assert ReportedBy(history, k, key);
    }
  }

  // ------------------------------------------------------------------ the diff in a reachable state

  predicate CompletedFor(db: Db, repositoryId: nat, runId: nat) {
    runId in db.runs && db.runs[runId].subject == Repository(repositoryId) && db.runs[runId].status == RunCompleted
  }

  /** `list_recent_completed` on the table: the newest completed runs by creation, newest first. */
  ghost predicate IsRecentQuery(db: Db, repositoryId: nat, limit: nat, recent: seq<RepositoryDiff.CompletedRun>) {
    && |recent| <= limit
    && (forall i | 0 <= i < |recent| ::
          CompletedFor(db, repositoryId, recent[i].id) && recent[i].createdAt == db.runs[recent[i].id].createdAt)
    && (forall i, j | 0 <= i < j < |recent| :: RepositoryDiff.Newer(recent[i], recent[j]))
    && (forall runId | CompletedFor(db, repositoryId, runId) && forall i | 0 <= i < |recent| :: recent[i].id != runId ::
          && |recent| == limit
          && forall i | 0 <= i < |recent| ::
               RepositoryDiff.Newer(recent[i], RepositoryDiff.CompletedRun(runId, db.runs[runId].createdAt)))
  }

  /** What the use case answers in this state. */
  function AnswerIn(db: Db, repositoryId: nat, recent: seq<RepositoryDiff.CompletedRun>, freshId: nat)
    : Result<RepositoryDiff.RepositoryDiffRead, RepositoryDiff.DiffError>
  {
    RepositoryDiff.GetRepositoryDiff(repositoryId in db.repos && db.repos[repositoryId].isActive, db.findings,
                                     repositoryId, recent, freshId)
  }

  /**
    In every reachable state the answer for the two newest runs by `created_at` is disjoint when
    the newer of them completed later, and exact when by `completed_at`, too, they are the last
    two: both conditions compare stored columns.
  */
  lemma ReachableDiffExact(states: seq<State>, events: seq<Event>, n: nat, repositoryId: nat,
                           recent: seq<RepositoryDiff.CompletedRun>, freshId: nat)
    requires IsTrace(states, events) && n < |states|
    requires IsRecentQuery(states[n].db, repositoryId, 2, recent) && |recent| == 2
    requires repositoryId in states[n].db.repos && states[n].db.repos[repositoryId].isActive
    requires CompletionTime(states[n].db.runs, recent[1].id) < CompletionTime(states[n].db.runs, recent[0].id)
    ensures var db, scans := states[n].db, ScansOf(states[n].history, Repository(repositoryId));
            var answer := AnswerIn(db, repositoryId, recent, freshId);
            && answer.Ok? && RepositoryDiff.Disjoint(answer.value.sets)
            && (LastTwoByCompletion(db, repositoryId, recent[0].id, recent[1].id) ==>
                  && |scans| >= 2
                  && scans[|scans| - 1].runId == recent[0].id && scans[|scans| - 2].runId == recent[1].id
                  && RepositoryDiff.DiffExact(answer.value.sets, scans, repositoryId, |scans| - 1, |scans| - 2))
  {
    TraceKeepsInv(states, events, n);
    hide *;
    HistoryDiffExact(states[n], repositoryId, recent, freshId);
  }

  ghost predicate LastTwoByCompletion(db: Db, repositoryId: nat, latest: nat, baseline: nat) {
    forall other | CompletedFor(db, repositoryId, other) && other != latest && other != baseline ::
      CompletionTime(db.runs, other) < CompletionTime(db.runs, baseline)
  }

  lemma InvHasHistory(s: State)
    requires Inv(s)
    ensures HistoryInv(s.db.runs, s.history, s.db.findings, s.db.now)
  {
  }

  lemma HistoryDiffExact(s: State, repositoryId: nat, recent: seq<RepositoryDiff.CompletedRun>, freshId: nat)
    requires Inv(s) && IsRecentQuery(s.db, repositoryId, 2, recent) && |recent| == 2
    requires repositoryId in s.db.repos && s.db.repos[repositoryId].isActive
    requires CompletionTime(s.db.runs, recent[1].id) < CompletionTime(s.db.runs, recent[0].id)
    ensures var db, scans := s.db, ScansOf(s.history, Repository(repositoryId));
            var answer := AnswerIn(db, repositoryId, recent, freshId);
            && answer.Ok? && RepositoryDiff.Disjoint(answer.value.sets)
            && (LastTwoByCompletion(db, repositoryId, recent[0].id, recent[1].id) ==>
                  && |scans| >= 2
                  && scans[|scans| - 1].runId == recent[0].id && scans[|scans| - 2].runId == recent[1].id
                  && RepositoryDiff.DiffExact(answer.value.sets, scans, repositoryId, |scans| - 1, |scans| - 2))
  {
    hide Inv, IndexOf, ValidHistory, RepositoryDiff.DiffExact, RepositoryDiff.Disjoint, RepositoryDiff.DiffBetweenRuns,
         CompletionTime, ScanOk, InHistory;
    InvHasHistory(s);
    ListedDisjoint(s, repositoryId, recent[0].id, recent[1].id);
    if LastTwoByCompletion(s.db, repositoryId, recent[0].id, recent[1].id) {
      LastTwoListed(s, repositoryId, recent[0].id, recent[1].id);
      ListedDiffExact(s.history, repositoryId);
    }
  }

  lemma ListedDisjoint(s: State, repositoryId: nat, latest: nat, baseline: nat)
    requires HistoryInv(s.db.runs, s.history, s.db.findings, s.db.now)
    requires CompletedFor(s.db, repositoryId, latest) && CompletedFor(s.db, repositoryId, baseline)
    requires CompletionTime(s.db.runs, baseline) < CompletionTime(s.db.runs, latest)
    ensures RepositoryDiff.Disjoint(RepositoryDiff.DiffBetweenRuns(s.db.findings, repositoryId, latest, baseline))
  {
    hide IndexOf, ValidHistory, CompletionTime, RowTellsHistory, RepositoryDiff.Disjoint,
         RepositoryDiff.DiffBetweenRuns;
    var scans := ScansOf(s.history, Repository(repositoryId));
    ScansListedInOrder(s.db.runs, s.history, s.db.now, Repository(repositoryId));
    RepositoryDiff.RowsTellHistory(s.history, Repository(repositoryId));
    var l := RunIsListed(s, repositoryId, latest);
    var b := RunIsListed(s, repositoryId, baseline);
    hide HistoryInv, CompletedFor;
    assert b < l;
    RepositoryDiff.DisjointWhenLatestLater(s.db.findings, scans, repositoryId, l, b);
  }

  lemma ListedDiffExact(history: seq<Change>, repositoryId: nat)
    requires ValidHistory(history) && |ScansOf(history, Repository(repositoryId))| >= 2
    ensures var scans := ScansOf(history, Repository(repositoryId));
            RepositoryDiff.DiffExact(
              RepositoryDiff.DiffBetweenRuns(IndexOf(history), repositoryId, scans[|scans| - 1].runId,
                                             scans[|scans| - 2].runId),
              scans, repositoryId, |scans| - 1, |scans| - 2)
  {
    RepositoryDiff.RowsTellHistory(history, Repository(repositoryId));
    hide ValidHistory, IndexOf, RowTellsHistory, RepositoryDiff.DiffExact, RepositoryDiff.DiffBetweenRuns;
    RepositoryDiff.DiffExactWhenLastTwo(IndexOf(history), ScansOf(history, Repository(repositoryId)), repositoryId);
  }

  lemma LastTwoListed(s: State, repositoryId: nat, latest: nat, baseline: nat)
    requires HistoryInv(s.db.runs, s.history, s.db.findings, s.db.now)
    requires CompletedFor(s.db, repositoryId, latest) && CompletedFor(s.db, repositoryId, baseline)
    requires CompletionTime(s.db.runs, baseline) < CompletionTime(s.db.runs, latest)
    requires LastTwoByCompletion(s.db, repositoryId, latest, baseline)
    ensures var scans := ScansOf(s.history, Repository(repositoryId));
            |scans| >= 2 && scans[|scans| - 1].runId == latest && scans[|scans| - 2].runId == baseline
  {
    hide ValidHistory, IndexOf, CompletionTime;
    var scans := ScansOf(s.history, Repository(repositoryId));
    ScansListedInOrder(s.db.runs, s.history, s.db.now, Repository(repositoryId));
    ScansOfDistinct(s.history, Repository(repositoryId));
    var l := RunIsListed(s, repositoryId, latest);
    var b := RunIsListed(s, repositoryId, baseline);
    hide HistoryInv;
    forall i | 0 <= i < |scans| ensures CompletedFor(s.db, repositoryId, scans[i].runId) { }
    hide CompletedFor;
    var n := |scans|;
    forall i | 0 <= i < n - 1
      ensures CompletionTime(s.db.runs, scans[i].runId) <= CompletionTime(s.db.runs, scans[n - 1].runId)
      ensures scans[i].runId != scans[n - 1].runId
    {
    }
    assert l == n - 1;
    forall i | 0 <= i < n - 2
      ensures CompletionTime(s.db.runs, scans[i].runId) <= CompletionTime(s.db.runs, scans[n - 2].runId)
      ensures scans[i].runId != scans[n - 2].runId
    {
    }
    assert b == n - 2;
  }

  lemma RunIsListed(s: State, repositoryId: nat, runId: nat) returns (i: nat)
    requires HistoryInv(s.db.runs, s.history, s.db.findings, s.db.now) && CompletedFor(s.db, repositoryId, runId)
    ensures var scans := ScansOf(s.history, Repository(repositoryId)); i < |scans| && scans[i].runId == runId
  {
    assert InHistory(s.history, runId);
    var k :| 0 <= k < |s.history| && s.history[k].Completed? && s.history[k].scan.runId == runId;
    assert ScanOk(s.db.runs, s.history[k].scan, s.db.now);
    i := ScanIsListed(s.history, k);
  }
}
