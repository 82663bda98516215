/**
  The session code of the five lifecycle transactions: table by table, in the order the use
  cases and the worker write them. Whatever raises leaves the committed tables alone.
*/
module ScanSession {
  import opened Wrappers
  import opened FindingIndex
  import opened ScanTables
  import ChecksClient
  import Outbox

  /** One unit of work: `db` is what it has written so far, `committed` what everybody else sees. */
  class Session {
    var db: Db
    var committed: Db

    constructor (tables: Db)
      ensures db == tables && committed == tables
    {
      db := tables;
      committed := tables;
    }

    method Commit()
      modifies this`committed
      ensures committed == db
    {
      committed := db;
    }

    method UpdateTask(taskId: nat, status: TaskStatus, startedAt: Option<real>, completedAt: Option<real>,
                      errorMessage: Option<string>)
      returns (raised: Option<LifecycleError>)
      modifies this`db
      ensures raised == if taskId in old(db).tasks then None else Some(ScanTaskNotFound)
      ensures db == if raised.Some? then old(db) else
                old(db).(tasks := old(db).tasks[taskId := UpdatedTask(old(db).tasks[taskId], status, startedAt,
                                                                      completedAt, errorMessage)])
    {
      if taskId !in db.tasks { return Some(ScanTaskNotFound); }
      var task := db.tasks[taskId].(status := status);
      if startedAt.Some? { task := task.(startedAt := startedAt); }
      if completedAt.Some? { task := task.(completedAt := completedAt); }
      if errorMessage.Some? { task := task.(errorMessage := errorMessage); }
      db := db.(tasks := db.tasks[taskId := task]);
      return None;
    }

    method UpdateRun(runId: nat, status: RunStatus, startedAt: Option<real>, completedAt: Option<real>)
      returns (raised: Option<LifecycleError>)
      modifies this`db
      ensures raised == if runId in old(db).runs then None else Some(ScanRunNotFound)
      ensures db == if raised.Some? then old(db) else
                old(db).(runs := old(db).runs[runId := UpdatedRun(old(db).runs[runId], status, startedAt, completedAt)])
    {
      if runId !in db.runs { return Some(ScanRunNotFound); }
      var run := db.runs[runId].(status := status);
      if startedAt.Some? { run := run.(startedAt := startedAt); }
      if completedAt.Some? { run := run.(completedAt := completedAt); }
      db := db.(runs := db.runs[runId := run]);
      return None;
    }

    method UpdateCommitSha(runId: nat, commitSha: string) returns (raised: Option<LifecycleError>)
      modifies this`db
      ensures raised == if runId in old(db).runs then None else Some(ScanRunNotFound)
      ensures db == if raised.Some? then old(db) else
                old(db).(runs := old(db).runs[runId := old(db).runs[runId].(commitSha := Some(commitSha))])
    {
      if runId !in db.runs { return Some(ScanRunNotFound); }
      db := db.(runs := db.runs[runId := db.runs[runId].(commitSha := Some(commitSha))]);
      return None;
    }

    method BulkUpsert(subject: Subject, runId: nat, batch: seq<Finding>) returns (raised: Option<LifecycleError>)
      modifies this`db
      ensures raised == if DistinctFingerprints(batch) then None else Some(DuplicateFingerprints)
      ensures db
           == if raised.Some? then old(db) else old(db).(findings := UpsertAll(old(db).findings, subject, runId, batch))
    {
      var table := new FindingTable();
      table.rows := db.findings;
      var ok := table.BulkUpsertFindings(subject, runId, batch);
      if !ok { return Some(DuplicateFingerprints); }
      db := db.(findings := table.rows);
      return None;
    }

    /** Insert the intent of a finished scan when it is eligible. */
    method CreatePublicationIfEligible(subject: Subject, runId: nat, status: RunStatus, commitSha: Option<string>,
                                       summary: string)
      returns (raised: Option<LifecycleError>)
      requires forall id | id in db.outbox :: id < db.nextId
      modifies this`db
      ensures raised == if Eligible(old(db).repos, subject, commitSha) && PublicationExists(old(db).outbox, runId)
                        then Some(DuplicatePublication) else None
      ensures db == if raised.Some? || !Eligible(old(db).repos, subject, commitSha) then old(db) else
                old(db).(outbox := old(db).outbox[old(db).nextId := IntentFor(runId, status, summary, old(db).now)],
                         nextId := old(db).nextId + 1)
    {
      if !Eligible(db.repos, subject, commitSha) { return None; }
      var table := new Outbox.PublicationTable();
      table.rows := db.outbox;
      var created := table.Create(db.nextId, IntentFor(runId, status, summary, db.now));
      if !created {
        assert PublicationExists(db.outbox, runId);
        return Some(DuplicatePublication);
      }
      db := db.(outbox := table.rows, nextId := db.nextId + 1);
      return None;
    }
  }

  function UpdatedTask(task: Task, status: TaskStatus, startedAt: Option<real>, completedAt: Option<real>,
                       errorMessage: Option<string>): Task {
    task.(status := status,
          startedAt := if startedAt.Some? then startedAt else task.startedAt,
          completedAt := if completedAt.Some? then completedAt else task.completedAt,
          errorMessage := if errorMessage.Some? then errorMessage else task.errorMessage)
  }

  function UpdatedRun(run: Run, status: RunStatus, startedAt: Option<real>, completedAt: Option<real>): Run {
    run.(status := status,
         startedAt := if startedAt.Some? then startedAt else run.startedAt,
         completedAt := if completedAt.Some? then completedAt else run.completedAt)
  }

  // ------------------------------------------------------------------ what a trigger means

  /** Why a trigger is refused: not one subject, or a subject that is missing or not active. */
  predicate Refused(db: Db, request: TriggerRequest, error: LifecycleError) {
    match error
    case InvalidScanSubject =>
      || (request.repositoryId.None? && request.scanTargetId.None?)
      || (request.repositoryId.Some? && request.scanTargetId.Some?)
    case ScanTargetNotFound =>
      && request.scanTargetId.Some? && request.repositoryId.None?
      && (request.scanTargetId.value in db.targets ==> !db.targets[request.scanTargetId.value].isActive)
    case RepositoryNotFound =>
      && request.repositoryId.Some? && request.scanTargetId.None?
      && (request.repositoryId.value in db.repos ==> !db.repos[request.repositoryId.value].isActive)
    case _ => false
  }

  /** The run is of the requested subject and commit; a missing or empty commit means the default branch. */
  predicate AskedFor(db: Db, request: TriggerRequest, run: Run) {
    match run.subject
    case ScanTarget(id) => request.scanTargetId == Some(id) && request.repositoryId.None?
    case Repository(id) =>
      && request.repositoryId == Some(id) && request.scanTargetId.None? && id in db.repos
      && run.commitSha == if request.commitSha in {None, Some("")} then Some(db.repos[id].defaultBranch)
                          else request.commitSha
  }

  /** A pending or running task already does what is asked for. */
  predicate DoesAlready(db: Db, request: TriggerRequest, id: nat, runId: nat) {
    && id in db.tasks && db.tasks[id].runId == runId && runId in db.runs
    && db.tasks[id].status in {TaskPending, TaskRunning} && db.tasks[id].scanner == request.scanner
    && AskedFor(db, request, db.runs[runId])
  }

  /** A pending run of what is asked for and its one pending task, and nothing else. */
  predicate Added(before: Db, after: Db, request: TriggerRequest, runId: nat) {
    && runId == before.nextId && runId in after.runs
    && after.runs == before.runs[runId := after.runs[runId]]
    && after == before.(runs := after.runs, nextId := runId + 2,
                        tasks := before.tasks[runId + 1 := Task(runId, request.scanner, TaskPending, None, None, None)])
    && var run := after.runs[runId];
       && AskedFor(before, request, run)
       && (run.subject.ScanTarget? ==> run.commitSha.None?) && run.ref == run.commitSha
       && run.status == RunPending && run.trigger == request.trigger && run.createdAt == before.now
       && run.startedAt.None? && run.completedAt.None?
  }

  /** Refused iff there is a reason; else the run in flight that does it, or, iff there is none, a new one. */
  ghost predicate TriggerAnswers(before: Db, after: Db, request: TriggerRequest,
                                 r: Result<(nat, bool), LifecycleError>) {
    match r
    case Err(error) => Refused(before, request, error) && after == before
    case Ok((runId, created)) =>
      && (forall error :: !Refused(before, request, error))
      && (created <==> forall id: nat, other: nat :: !DoesAlready(before, request, id, other))
      && if created then Added(before, after, request, runId)
         else after == before && exists id :: DoesAlready(before, request, id, runId)
  }

  lemma TriggerMeans(db: Db, request: TriggerRequest)
    ensures forall error :: Refused(db, request, error) <==> TriggerError(db, request) == Some(error)
    ensures TriggerError(db, request).None? ==>
              forall id: nat, runId: nat :: DoesAlready(db, request, id, runId)
                <==> id in ActiveTasks(db.runs, db.tasks, RequestedWork(db, request)) && db.tasks[id].runId == runId
    ensures Triggers(db, request) ==> Added(db, AfterTrigger(db, request), request, db.nextId)
  {
  }

  // ------------------------------------------------------------------ what a load means

  predicate Unfinished(task: Task) { task.status in {TaskPending, TaskRunning} }

  /** Why a load raises. */
  predicate LoadRefused(db: Db, taskId: nat, unsealable: bool, dastEnabled: bool, error: LifecycleError) {
    if taskId !in db.tasks then error == ScanTaskNotFound
    else if db.tasks[taskId].runId !in db.runs then error == ScanRunNotFound
    else
      var unfinished := Unfinished(db.tasks[taskId]);
      match db.runs[db.tasks[taskId].runId].subject
      case ScanTarget(id) =>
        || (error == DastDisabled && unfinished && !dastEnabled)
        || (error == ScanTargetNotFound && id !in db.targets && !(unfinished && !dastEnabled))
      case Repository(id) =>
        || (error == RepositoryNotFound && id !in db.repos)
        || (error == CredentialUnavailable && id in db.repos && db.repos[id].hasCredential && unfinished && !unsealable)
  }

  /** A pending task and its run are running from now on; nothing else is written. */
  predicate Started(before: Db, after: Db, taskId: nat) {
    && taskId in before.tasks && taskId in after.tasks
    && var task, run := after.tasks[taskId], before.tasks[taskId].runId;
       && run in before.runs && run in after.runs
       && task.status == TaskRunning && task.startedAt == Some(before.now)
       && task == before.tasks[taskId].(status := task.status, startedAt := task.startedAt)
       && after.runs[run].status == RunRunning && after.runs[run].startedAt == Some(before.now)
       && after.runs[run] == before.runs[run].(status := RunRunning, startedAt := after.runs[run].startedAt)
       && after == before.(tasks := before.tasks[taskId := task], runs := before.runs[run := after.runs[run]])
  }

  /**
    A load answers the attempt, or the one reason to raise. It starts a pending task unless it
    raises; only a credential that cannot be unsealed starts it all the same.
  */
  ghost predicate LoadAnswered(before: Db, after: Db, taskId: nat, unsealable: bool, dastEnabled: bool,
                               r: Result<Loaded, LifecycleError>) {
    && (if r.Err? then LoadRefused(before, taskId, unsealable, dastEnabled, r.error)
        else
          && (forall error :: !LoadRefused(before, taskId, unsealable, dastEnabled, error))
          && taskId in before.tasks && before.tasks[taskId].runId in before.runs
          && r.value.taskId == taskId && r.value.runId == before.tasks[taskId].runId
          && r.value.subject == before.runs[r.value.runId].subject
          && (r.value.transitioned <==> before.tasks[taskId].status == TaskPending)
          && (r.value.terminal <==> !Unfinished(before.tasks[taskId])))
    && if taskId in before.tasks && before.tasks[taskId].status == TaskPending
          && (r.Ok? || r.error == CredentialUnavailable)
       then Started(before, after, taskId) else after == before
  }

  lemma LoadMeans(db: Db, taskId: nat, unsealable: bool, dastEnabled: bool)
    ensures var error := LoadError(db, taskId, unsealable, dastEnabled);
            LoadAnswered(db, AfterLoad(db, taskId, unsealable, dastEnabled), taskId, unsealable, dastEnabled,
                         if error.Some? then Err(error.value) else Ok(LoadResult(db, taskId)))
  {
    assert forall error :: LoadRefused(db, taskId, unsealable, dastEnabled, error)
                           <==> LoadError(db, taskId, unsealable, dastEnabled) == Some(error);
  }

  // ------------------------------------------------------------------ what a write-back means

  predicate RepeatsNoFingerprint(batch: seq<Finding>) {
    forall i, j | 0 <= i < |batch| && 0 <= j < |batch| && batch[i].fingerprint == batch[j].fingerprint :: i == j
  }

  /** A GitHub repository whose commit is known. */
  predicate GetsCheck(repos: map<nat, Repo>, subject: Subject, commitSha: Option<string>) {
    && subject.Repository? && subject.id in repos && repos[subject.id].provider == GitHub
    && commitSha.Some? && commitSha.value != ""
  }

  /** Task and run end now with these statuses; the rest of their columns but the commit stays. */
  predicate Ends(before: Db, after: Db, taskId: nat, taskStatus: TaskStatus, runStatus: RunStatus,
                 commitSha: Option<string>, errorMessage: Option<string>) {
    && taskId in before.tasks && taskId in after.tasks
    && var task, run := after.tasks[taskId], before.tasks[taskId].runId;
       && run in before.runs && run in after.runs
       && task.status == taskStatus && task.completedAt == Some(before.now) && task.errorMessage == errorMessage
       && task.runId == run && task.scanner == before.tasks[taskId].scanner
       && task.startedAt == before.tasks[taskId].startedAt
       && after.runs[run].status == runStatus && after.runs[run].completedAt == Some(before.now)
       && after.runs[run].commitSha == commitSha
       && after.runs[run] == before.runs[run].(status := runStatus, completedAt := Some(before.now),
                                               commitSha := commitSha)
       && after.tasks == before.tasks[taskId := task] && after.runs == before.runs[run := after.runs[run]]
       && after.repos == before.repos && after.targets == before.targets && after.now == before.now
  }

  /** A pending Check Run of this outcome is left exactly for a GitHub repository whose commit is known. */
  predicate LeavesCheck(before: Db, after: Db, subject: Subject, runId: nat, commitSha: Option<string>,
                        outcome: ChecksClient.Conclusion, summary: string) {
    if GetsCheck(before.repos, subject, commitSha) then
      && after.nextId == before.nextId + 1
      && after.outbox == before.outbox[before.nextId :=
           Outbox.NewRow(runId, "security/orchestrator", outcome, summary, before.now)]
    else after.outbox == before.outbox && after.nextId == before.nextId
  }

  /** The scan completed now: its commit, its findings and its Check Run, all at once. */
  predicate Completes(before: Db, after: Db, loaded: Loaded, headSha: Option<string>, batch: seq<Finding>,
                      summary: string) {
    && loaded.taskId in before.tasks && loaded.runId == before.tasks[loaded.taskId].runId && loaded.runId in before.runs
    && var commitSha := if headSha.Some? then headSha else before.runs[loaded.runId].commitSha;
       && Ends(before, after, loaded.taskId, TaskCompleted, RunCompleted, commitSha,
               before.tasks[loaded.taskId].errorMessage)
       && LeavesCheck(before, after, loaded.subject, loaded.runId, headSha, ChecksClient.Success, summary)
       && after.findings == UpsertAll(before.findings, loaded.subject, loaded.runId, batch)
  }

  /** The scan failed now, with this message; its findings stay. */
  predicate Fails(before: Db, after: Db, taskId: nat, message: string, summary: string) {
    && taskId in before.tasks && before.tasks[taskId].runId in before.runs
    && var run := before.runs[before.tasks[taskId].runId];
       && Ends(before, after, taskId, TaskFailed, RunFailed, run.commitSha, Some(message))
       && LeavesCheck(before, after, run.subject, before.tasks[taskId].runId, run.commitSha, ChecksClient.Failure,
                      summary)
       && after.findings == before.findings
  }

  /** Only a running scan with a batch that repeats no fingerprint is completed; anything else writes nothing. */
  ghost predicate CompletedAs(before: Db, after: Db, loaded: Loaded, headSha: Option<string>, batch: seq<Finding>,
                              summary: string, outcome: WriteBack) {
    && (outcome != Transitioned ==> after == before)
    && (outcome == AlreadyTerminal
        <==> loaded.taskId in before.tasks && before.tasks[loaded.taskId].status != TaskRunning)
    && (outcome == Transitioned ==>
          && loaded.taskId in before.tasks && before.tasks[loaded.taskId].status == TaskRunning
          && RepeatsNoFingerprint(batch)
          && (loaded.runId == before.tasks[loaded.taskId].runId ==>
                Completes(before, after, loaded, headSha, batch, summary)))
  }

  lemma CompleteMeans(db: Db, loaded: Loaded, headSha: Option<string>, batch: seq<Finding>, summary: string)
    ensures var outcome := CompleteOutcome(db, loaded, headSha, batch);
            CompletedAs(db, AfterComplete(db, loaded, headSha, batch, summary), loaded, headSha, batch, summary,
                        outcome)
    ensures RepeatsNoFingerprint(batch) <==> DistinctFingerprints(batch)
  {
    hide UpsertAll;
  }

  lemma FailMeans(db: Db, taskId: nat, message: string, summary: string)
    ensures if FailOutcome(db, taskId) == Transitioned
            then Fails(db, AfterFail(db, taskId, message, summary), taskId, message, summary)
                 && Unfinished(db.tasks[taskId])
            else AfterFail(db, taskId, message, summary) == db
    ensures FailOutcome(db, taskId) == AlreadyTerminal <==> taskId in db.tasks && !Unfinished(db.tasks[taskId])
  {
  }

  // ------------------------------------------------------------------ the transactions

  /** Answers the run doing the requested work and whether it is new; its caller commits. */
  method TriggerScan(session: Session, request: TriggerRequest) returns (result: Result<(nat, bool), LifecycleError>)
    modifies session`db
    ensures TriggerAnswers(old(session.db), session.db, request, result)
    ensures session.db == AfterTrigger(old(session.db), request)
    ensures result.Err? <==> TriggerError(old(session.db), request).Some?
    ensures result.Err? ==> result.error == TriggerError(old(session.db), request).value
    ensures result.Ok? ==> (result.value.1 <==> Triggers(old(session.db), request))
    ensures result.Ok? && result.value.1 ==> result.value.0 == old(session.db).nextId
    ensures result.Ok? && !result.value.1 ==>
              exists id ::
                id in ActiveTasks(old(session.db).runs, old(session.db).tasks, RequestedWork(old(session.db), request))
                           && old(session.db).tasks[id].runId == result.value.0
  {
    TriggerMeans(session.db, request);
    hide Refused, DoesAlready, Added;
    var db := session.db;
    if request.repositoryId.Some? == request.scanTargetId.Some? { return Err(InvalidScanSubject); }
    var subject: Subject;
    var commitSha: Option<string> := None;
    if request.scanTargetId.Some? {
      var id := request.scanTargetId.value;
      if id !in db.targets || !db.targets[id].isActive { return Err(ScanTargetNotFound); }
      subject := ScanTarget(id);
    } else {
      var id := request.repositoryId.value;
      if id !in db.repos || !db.repos[id].isActive { return Err(RepositoryNotFound); }
      subject := Repository(id);
      commitSha := request.commitSha;
      if commitSha.None? || commitSha.value == "" { commitSha := Some(db.repos[id].defaultBranch); }
    }
    var existing := ActiveTasks(db.runs, db.tasks, Work(subject, commitSha, request.scanner));
    if existing != {} {
      var id :| id in existing;
      assert DoesAlready(db, request, id, db.tasks[id].runId);
      return Ok((db.tasks[id].runId, false));
    }
    var runId := db.nextId;
    var run := Run(subject, RunPending, request.trigger, commitSha, commitSha, db.now, None, None);
    session.db := session.db.(runs := session.db.runs[runId := run], nextId := runId + 1);
    var task := Task(runId, request.scanner, TaskPending, None, None, None);
    session.db := session.db.(tasks := session.db.tasks[runId + 1 := task], nextId := runId + 2);
    return Ok((runId, true));
  }

  method StartBoth(session: Session, taskId: nat, runId: nat)
    requires taskId in session.db.tasks && runId in session.db.runs
    modifies session
    ensures session.db == old(session.db).(
              tasks := old(session.db).tasks[taskId := StartedTask(old(session.db).tasks[taskId], old(session.db).now)],
              runs := old(session.db).runs[runId := StartedRun(old(session.db).runs[runId], old(session.db).now)])
    ensures session.committed == session.db
  {
    var now := session.db.now;
    var _ := session.UpdateTask(taskId, TaskRunning, Some(now), None, None);
    var _ := session.UpdateRun(runId, RunRunning, Some(now), None);
    session.Commit();
  }

  /** `unsealable` and `dastEnabled` are what this attempt's settings and key make of the checks. */
  method LoadAndStart(session: Session, taskId: nat, unsealable: bool, dastEnabled: bool)
    returns (result: Result<Loaded, LifecycleError>)
    requires session.db == session.committed
    modifies session
    ensures LoadAnswered(old(session.db), session.committed, taskId, unsealable, dastEnabled, result)
    ensures session.committed == AfterLoad(old(session.db), taskId, unsealable, dastEnabled)
    ensures result.Err? <==> LoadError(old(session.db), taskId, unsealable, dastEnabled).Some?
    ensures result.Err? ==> result.error == LoadError(old(session.db), taskId, unsealable, dastEnabled).value
    ensures result.Ok? ==> result.value == LoadResult(old(session.db), taskId)
  {
    LoadMeans(session.db, taskId, unsealable, dastEnabled);
    hide LoadAnswered;
    var db := session.db;
    if taskId !in db.tasks { return Err(ScanTaskNotFound); }
    var task := db.tasks[taskId];
    if task.runId !in db.runs { return Err(ScanRunNotFound); }
    var run := db.runs[task.runId];
    var transitioned := task.status == TaskPending;
    var terminal := task.status in {TaskCompleted, TaskFailed, TaskSkipped};
    var loaded := Loaded(taskId, task.runId, run.subject, transitioned, terminal);
    match run.subject {
      case ScanTarget(id) =>
        if !terminal && !dastEnabled { return Err(DastDisabled); }
        if id !in db.targets { return Err(ScanTargetNotFound); }
        if !terminal && transitioned { StartBoth(session, taskId, task.runId); }
        return Ok(loaded);
      case Repository(id) =>
        if id !in db.repos { return Err(RepositoryNotFound); }
        if !terminal && db.repos[id].hasCredential {
          if transitioned { StartBoth(session, taskId, task.runId); }
          session.Commit();
          if !unsealable { return Err(CredentialUnavailable); }
        } else if !terminal && transitioned {
          StartBoth(session, taskId, task.runId);
        }
        return Ok(loaded);
    }
  }

  method CompleteScan(session: Session, loaded: Loaded, headSha: string, batch: seq<Finding>, summary: string)
    returns (outcome: WriteBack)
    requires session.db == session.committed && loaded.subject.Repository?
    requires forall id | id in session.db.outbox :: id < session.db.nextId
    modifies session
    ensures CompletedAs(old(session.db), session.committed, loaded, Some(headSha), batch, summary, outcome)
    ensures outcome.Raised? <==> CompleteOutcome(old(session.db), loaded, Some(headSha), batch).Raised?
    ensures !outcome.Raised? ==> outcome == CompleteOutcome(old(session.db), loaded, Some(headSha), batch)
    ensures session.committed == AfterComplete(old(session.db), loaded, Some(headSha), batch, summary)
  {
    CompleteMeans(session.db, loaded, Some(headSha), batch, summary);
    hide Completes, RepeatsNoFingerprint;
    if loaded.taskId !in session.db.tasks { return Raised(ScanTaskNotFound); }
    if session.db.tasks[loaded.taskId].status != TaskRunning { return AlreadyTerminal; }
    var raised := session.UpdateCommitSha(loaded.runId, headSha);
    if raised.Some? { return Raised(raised.value); }
    raised := session.BulkUpsert(loaded.subject, loaded.runId, batch);
    if raised.Some? { return Raised(raised.value); }
    var completedAt := session.db.now;
    raised := session.UpdateTask(loaded.taskId, TaskCompleted, None, Some(completedAt), None);
    raised := session.UpdateRun(loaded.runId, RunCompleted, None, Some(completedAt));
    raised := session.CreatePublicationIfEligible(loaded.subject, loaded.runId, RunCompleted, Some(headSha), summary);
    if raised.Some? { return Raised(raised.value); }
    session.Commit();
    return Transitioned;
  }

  /** Neither a commit nor an intent: a target has no git identity. */
  method CompleteTargetScan(session: Session, loaded: Loaded, batch: seq<Finding>) returns (outcome: WriteBack)
    requires session.db == session.committed && loaded.subject.ScanTarget?
    modifies session
    ensures CompletedAs(old(session.db), session.committed, loaded, None, batch, "", outcome)
    ensures outcome.Raised? <==> CompleteOutcome(old(session.db), loaded, None, batch).Raised?
    ensures !outcome.Raised? ==> outcome == CompleteOutcome(old(session.db), loaded, None, batch)
    ensures session.committed == AfterComplete(old(session.db), loaded, None, batch, "")
  {
    CompleteMeans(session.db, loaded, None, batch, "");
    hide Completes, RepeatsNoFingerprint;
    if loaded.taskId !in session.db.tasks { return Raised(ScanTaskNotFound); }
    if session.db.tasks[loaded.taskId].status != TaskRunning { return AlreadyTerminal; }
    var raised := session.BulkUpsert(loaded.subject, loaded.runId, batch);
    if raised.Some? { return Raised(raised.value); }
    var completedAt := session.db.now;
    raised := session.UpdateTask(loaded.taskId, TaskCompleted, None, Some(completedAt), None);
    raised := session.UpdateRun(loaded.runId, RunCompleted, None, Some(completedAt));
    if raised.Some? { return Raised(raised.value); }
    session.Commit();
    return Transitioned;
  }

  method MarkFailed(session: Session, taskId: nat, message: string, summary: string) returns (outcome: WriteBack)
    requires session.db == session.committed
    requires forall id | id in session.db.outbox :: id < session.db.nextId
    modifies session
    ensures if outcome == Transitioned
            then Fails(old(session.db), session.committed, taskId, message, summary)
                 && Unfinished(old(session.db).tasks[taskId])
            else session.committed == old(session.db)
    ensures outcome == AlreadyTerminal
       <==> taskId in old(session.db).tasks && !Unfinished(old(session.db).tasks[taskId])
    ensures outcome == FailOutcome(old(session.db), taskId)
    ensures session.committed == AfterFail(old(session.db), taskId, message, summary)
  {
    FailMeans(session.db, taskId, message, summary);
    hide Fails;
    if taskId !in session.db.tasks { return Raised(ScanTaskNotFound); }
    var task := session.db.tasks[taskId];
    if task.status !in {TaskPending, TaskRunning} { return AlreadyTerminal; }
    var now := session.db.now;
    var raised := session.UpdateTask(taskId, TaskFailed, None, Some(now), Some(message));
    raised := session.UpdateRun(task.runId, RunFailed, None, Some(now));
    if raised.Some? { return Raised(raised.value); }
    var run := session.db.runs[task.runId];
    raised := session.CreatePublicationIfEligible(run.subject, task.runId, RunFailed, run.commitSha, summary);
    if raised.Some? { return Raised(raised.value); }
    session.Commit();
    return Transitioned;
  }
}
