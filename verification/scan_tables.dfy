/**
  The tables of the scan lifecycle and the five transactions that write them. Each transaction
  is given twice: as a function from the tables before to the tables after, and as the session
  code that updates one table after another and commits, or raises and commits nothing.
*/
module ScanTables {
  import opened Wrappers
  import opened ChecksClient
  import opened CheckIdentity
  import opened FindingIndex
  import Outbox

  datatype Provider = GitHub | GitLab | Bitbucket
  datatype ScannerType = Sast | Dast | Sca | Secrets | Iac | Semgrep

  datatype Repo = Repo(provider: Provider, owner: string, name: string, defaultBranch: string,
                       isActive: bool, hasCredential: bool)
  datatype Target = Target(isActive: bool)

  datatype RunStatus = RunPending | RunRunning | RunCompleted | RunFailed | RunCancelled
  datatype TaskStatus = TaskPending | TaskRunning | TaskCompleted | TaskFailed | TaskSkipped

  datatype Run = Run(subject: Subject, status: RunStatus, trigger: string, commitSha: Option<string>,
                     ref: Option<string>,
                     createdAt: real, startedAt: Option<real>, completedAt: Option<real>)
  datatype Task = Task(runId: nat, scanner: ScannerType, status: TaskStatus,
                       startedAt: Option<real>, completedAt: Option<real>, errorMessage: Option<string>)

  /** Identifiers of runs, tasks and publications come from one counter, so they are never reused. */
  datatype Db = Db(repos: map<nat, Repo>, targets: map<nat, Target>, runs: map<nat, Run>, tasks: map<nat, Task>,
                   findings: Index, outbox: Outbox.Table, nextId: nat, now: real)

  datatype LifecycleError =
    | InvalidScanSubject | RepositoryNotFound | ScanTargetNotFound
    | ScanTaskNotFound | ScanRunNotFound
    | CredentialUnavailable | DastDisabled
    | DuplicateFingerprints | DuplicatePublication

  predicate Active(status: TaskStatus) { status == TaskPending || status == TaskRunning }

  // ------------------------------------------------------------------ triggering

  datatype TriggerRequest = TriggerRequest(repositoryId: Option<nat>, scanTargetId: Option<nat>,
                                           commitSha: Option<string>, scanner: ScannerType, trigger: string)

  /** The work a trigger asks for; two in-flight tasks for the same work would be one too many. */
  datatype Work = Work(subject: Subject, commitSha: Option<string>, scanner: ScannerType)

  function TriggerError(db: Db, request: TriggerRequest): Option<LifecycleError> {
    if request.repositoryId.Some? == request.scanTargetId.Some? then Some(InvalidScanSubject)
    else if request.scanTargetId.Some? then
      var id := request.scanTargetId.value;
      if id in db.targets && db.targets[id].isActive then None else Some(ScanTargetNotFound)
    else
      var id := request.repositoryId.value;
      if id in db.repos && db.repos[id].isActive then None else Some(RepositoryNotFound)
  }

  /** An absent or empty commit falls back to the default branch; a target has no commit. */
  function RequestedWork(db: Db, request: TriggerRequest): Work
    requires TriggerError(db, request).None?
  {
    if request.scanTargetId.Some? then Work(ScanTarget(request.scanTargetId.value), None, request.scanner)
    else
      var id := request.repositoryId.value;
      var commit := if request.commitSha.Some? && request.commitSha.value != "" then request.commitSha.value
                    else db.repos[id].defaultBranch;
      Work(Repository(id), Some(commit), request.scanner)
  }

  /** The join of the two lookups: a repository task must match the commit, a target task need not. */
  predicate DoesWork(run: Run, task: Task, work: Work) {
    && run.subject == work.subject && task.scanner == work.scanner
    && (work.subject.Repository? ==> run.commitSha == work.commitSha)
  }

  function ActiveTasks(runs: map<nat, Run>, tasks: map<nat, Task>, work: Work): set<nat> {
    set id | && id in tasks && tasks[id].runId in runs && Active(tasks[id].status)
             && DoesWork(runs[tasks[id].runId], tasks[id], work)
  }

  function NewRun(work: Work, trigger: string, now: real): Run {
    Run(work.subject, RunPending, trigger, work.commitSha, work.commitSha, now, None, None)
  }

  function NewTask(runId: nat, scanner: ScannerType): Task {
    Task(runId, scanner, TaskPending, None, None, None)
  }

  predicate Triggers(db: Db, request: TriggerRequest) {
    TriggerError(db, request).None? && ActiveTasks(db.runs, db.tasks, RequestedWork(db, request)) == {}
  }

  function AfterTrigger(db: Db, request: TriggerRequest): Db {
    if !Triggers(db, request) then db
    else
      var work := RequestedWork(db, request);
      db.(runs := db.runs[db.nextId := NewRun(work, request.trigger, db.now)],
          tasks := db.tasks[db.nextId + 1 := NewTask(db.nextId, work.scanner)],
          nextId := db.nextId + 2)
  }

  // ------------------------------------------------------------------ loading

  /** What one worker attempt knows after loading. */
  datatype Loaded = Loaded(taskId: nat, runId: nat, subject: Subject, transitioned: bool, terminal: bool)

  function LoadError(db: Db, taskId: nat, unsealable: bool, dastEnabled: bool): Option<LifecycleError> {
    if taskId !in db.tasks then Some(ScanTaskNotFound)
    else if db.tasks[taskId].runId !in db.runs then Some(ScanRunNotFound)
    else
      var active := Active(db.tasks[taskId].status);
      match db.runs[db.tasks[taskId].runId].subject
      case ScanTarget(id) =>
        if active && !dastEnabled then Some(DastDisabled)
        else if id !in db.targets then Some(ScanTargetNotFound) else None
      case Repository(id) =>
        if id !in db.repos then Some(RepositoryNotFound)
        else if active && db.repos[id].hasCredential && !unsealable then Some(CredentialUnavailable) else None
  }

  function LoadResult(db: Db, taskId: nat): Loaded
    requires taskId in db.tasks && db.tasks[taskId].runId in db.runs
  {
    var task := db.tasks[taskId];
    Loaded(taskId, task.runId, db.runs[task.runId].subject, task.status == TaskPending, !Active(task.status))
  }

  function StartedTask(task: Task, now: real): Task { task.(status := TaskRunning, startedAt := Some(now)) }

  function StartedRun(run: Run, now: real): Run { run.(status := RunRunning, startedAt := Some(now)) }

  /** Starting a pending task; a credential that cannot be unsealed still starts it. */
  function AfterLoad(db: Db, taskId: nat, unsealable: bool, dastEnabled: bool): Db {
    var error := LoadError(db, taskId, unsealable, dastEnabled);
    if error.Some? && error.value != CredentialUnavailable then db
    else
      var task := db.tasks[taskId];
      if task.status != TaskPending then db
      else db.(tasks := db.tasks[taskId := StartedTask(task, db.now)],
               runs := db.runs[task.runId := StartedRun(db.runs[task.runId], db.now)])
  }

  // ------------------------------------------------------------------ publication intents

  /** A GitHub repository and a known commit; a scan target has neither. */
  predicate Eligible(repos: map<nat, Repo>, subject: Subject, commitSha: Option<string>) {
    && subject.Repository? && subject.id in repos && repos[subject.id].provider == GitHub
    && commitSha.Some? && commitSha.value != ""
  }

  function OutcomeOf(status: RunStatus): Conclusion {
    if status == RunCompleted then Success else Failure
  }

  /** `UNIQUE(scan_run_id, check_name)` would refuse this intent. */
  predicate PublicationExists(outbox: Outbox.Table, runId: nat) {
    exists id :: id in outbox && outbox[id].scanRunId == runId && outbox[id].checkName == GITHUB_CHECK_NAME
  }

  function IntentFor(runId: nat, status: RunStatus, summary: string, now: real): Outbox.Row {
    Outbox.NewRow(runId, GITHUB_CHECK_NAME, OutcomeOf(status), summary, now)
  }

  // ------------------------------------------------------------------ finishing

  function FinishedTask(task: Task, status: TaskStatus, now: real, errorMessage: Option<string>): Task {
    task.(status := status, completedAt := Some(now),
          errorMessage := if errorMessage.Some? then errorMessage else task.errorMessage)
  }

  function FinishedRun(run: Run, status: RunStatus, now: real, commitSha: Option<string>): Run {
    run.(status := status, completedAt := Some(now), commitSha := commitSha)
  }

  datatype WriteBack = Transitioned | AlreadyTerminal | Raised(error: LifecycleError)

  function CompleteOutcome(db: Db, loaded: Loaded, headSha: Option<string>, batch: seq<Finding>): WriteBack {
    if loaded.taskId !in db.tasks then Raised(ScanTaskNotFound)
    else if db.tasks[loaded.taskId].status != TaskRunning then AlreadyTerminal
    else if !DistinctFingerprints(batch) then Raised(DuplicateFingerprints)
    else if loaded.runId !in db.runs then Raised(ScanRunNotFound)
    else if Eligible(db.repos, loaded.subject, headSha) && PublicationExists(db.outbox, loaded.runId) then
      Raised(DuplicatePublication)
    else Transitioned
  }

  /**
    The write-back of a finished scan. A repository scan stores the resolved commit and leaves
    an intent when eligible; a target scan (`headSha == None`) has no commit and never does.
  */
  function AfterComplete(db: Db, loaded: Loaded, headSha: Option<string>, batch: seq<Finding>, summary: string): Db {
    if CompleteOutcome(db, loaded, headSha, batch) != Transitioned then db
    else
      var task, run := db.tasks[loaded.taskId], db.runs[loaded.runId];
      var commitSha := if headSha.Some? then headSha else run.commitSha;
      db.(tasks := db.tasks[loaded.taskId := FinishedTask(task, TaskCompleted, db.now, None)],
          runs := db.runs[loaded.runId := FinishedRun(run, RunCompleted, db.now, commitSha)],
          findings := UpsertAll(db.findings, loaded.subject, loaded.runId, batch),
          outbox := if Eligible(db.repos, loaded.subject, headSha)
                    then db.outbox[db.nextId := IntentFor(loaded.runId, RunCompleted, summary, db.now)] else db.outbox,
          nextId := if Eligible(db.repos, loaded.subject, headSha) then db.nextId + 1 else db.nextId)
  }

  function FailOutcome(db: Db, taskId: nat): WriteBack {
    if taskId !in db.tasks then Raised(ScanTaskNotFound)
    else if !Active(db.tasks[taskId].status) then AlreadyTerminal
    else
      var runId := db.tasks[taskId].runId;
      if runId !in db.runs then Raised(ScanRunNotFound)
      else if Eligible(db.repos, db.runs[runId].subject, db.runs[runId].commitSha)
              && PublicationExists(db.outbox, runId) then
        Raised(DuplicatePublication)
      else Transitioned
  }

  function AfterFail(db: Db, taskId: nat, message: string, summary: string): Db {
    if FailOutcome(db, taskId) != Transitioned then db
    else
      var task := db.tasks[taskId];
      var run := db.runs[task.runId];
      var eligible := Eligible(db.repos, run.subject, run.commitSha);
      db.(tasks := db.tasks[taskId := FinishedTask(task, TaskFailed, db.now, Some(message))],
          runs := db.runs[task.runId := FinishedRun(run, RunFailed, db.now, run.commitSha)],
          outbox := if eligible then db.outbox[db.nextId := IntentFor(task.runId, RunFailed, summary, db.now)]
                    else db.outbox,
          nextId := if eligible then db.nextId + 1 else db.nextId)
  }
}
