/**
  Triggers, worker attempts, redeliveries and failures interleaved over the lifecycle tables.
  Each event is one committed transaction. Messages may be delivered any number of times, so an
  attempt that once loaded a scan may write back at any later moment, and any attempt may fail.
  `history` records what ever changed the findings; `loaded` what attempts hold in memory.
*/
module ScanLifecycle {
  import opened Wrappers
  import opened CheckIdentity
  import opened FindingIndex
  import opened ScanTables
  import Outbox

  datatype State = State(db: Db, loaded: set<Loaded>, history: seq<Change>)

  datatype Event =
    | AddRepository(id: nat, repo: Repo)
    | AddTarget(id: nat, target: Target)
    | EditRepository(id: nat, defaultBranch: string, isActive: bool, hasCredential: bool)
    | EditTarget(id: nat, isActive: bool)
    | Tick(elapsed: real)
    | Trigger(request: TriggerRequest)
    | Load(taskId: nat, unsealable: bool, dastEnabled: bool)
    | Complete(attempt: Loaded, headSha: Option<string>, batch: seq<Finding>, summary: string)
    | Fail(taskId: nat, message: string, summary: string)
    | TriageFinding(key: Key, triage: Triage)
    | OutboxMoves(outbox: Outbox.Table)

  predicate Enabled(s: State, e: Event) {
    match e
    case AddRepository(id, repo) =>
      id !in s.db.repos && forall other | other in s.db.repos :: !SameIdentity(s.db.repos[other], repo)
    case AddTarget(id, target) => id !in s.db.targets
    case EditRepository(id, _, _, _) => id in s.db.repos
    case EditTarget(id, _) => id in s.db.targets
    case Tick(elapsed) => elapsed >= 0.0
    case Complete(attempt, headSha, _, _) => attempt in s.loaded && (headSha.Some? <==> attempt.subject.Repository?)
    case OutboxMoves(outbox) =>
      outbox.Keys == s.db.outbox.Keys && Outbox.ValidTable(outbox) && Outbox.KeepsRows(s.db.outbox, outbox)
    case _ => true
  }

  /** `UNIQUE(provider, owner, name)`. */
  predicate SameIdentity(a: Repo, b: Repo) {
    a.provider == b.provider && a.owner == b.owner && a.name == b.name
  }

  function EffectOn(s: State, e: Event): Db
    requires Enabled(s, e)
  {
    match e
    case AddRepository(id, repo) => s.db.(repos := s.db.repos[id := repo])
    case AddTarget(id, target) => s.db.(targets := s.db.targets[id := target])
    case EditRepository(id, defaultBranch, isActive, hasCredential) =>
      s.db.(repos := s.db.repos[id := s.db.repos[id].(defaultBranch := defaultBranch, isActive := isActive,
                                                      hasCredential := hasCredential)])
    case EditTarget(id, isActive) => s.db.(targets := s.db.targets[id := Target(isActive)])
    case Tick(elapsed) => s.db.(now := s.db.now + elapsed)
    case Trigger(request) => AfterTrigger(s.db, request)
    case Load(taskId, unsealable, dastEnabled) => AfterLoad(s.db, taskId, unsealable, dastEnabled)
    case Complete(attempt, headSha, batch, summary) => AfterComplete(s.db, attempt, headSha, batch, summary)
    case Fail(taskId, message, summary) => AfterFail(s.db, taskId, message, summary)
    case TriageFinding(key, triage) => s.db.(findings := Triaged(s.db.findings, key, triage))
    case OutboxMoves(outbox) => s.db.(outbox := outbox)
  }

  /** A terminal scan is not worked on; a load that raises leaves nothing to write back. */
  function LoadedAfter(s: State, e: Event): set<Loaded> {
    if e.Load? && LoadError(s.db, e.taskId, e.unsealable, e.dastEnabled).None? && !LoadResult(s.db, e.taskId).terminal
    then s.loaded + {LoadResult(s.db, e.taskId)}
    else s.loaded
  }

  function HistoryAfter(s: State, e: Event): seq<Change> {
    if e.TriageFinding? then s.history + [TriagedBy(e.key, e.triage)]
    else if e.Complete? && CompleteOutcome(s.db, e.attempt, e.headSha, e.batch) == Transitioned
    then s.history + [Completed(Scan(e.attempt.subject, e.attempt.runId, e.batch))]
    else s.history
  }

  function Step(s: State, e: Event): State
    requires Enabled(s, e)
  {
    State(EffectOn(s, e), LoadedAfter(s, e), HistoryAfter(s, e))
  }

  predicate Initial(s: State) {
    && s.db.repos == map[] && s.db.targets == map[] && s.db.runs == map[] && s.db.tasks == map[]
    && s.db.findings == map[] && s.db.outbox == map[] && s.loaded == {} && s.history == []
  }

  predicate IsTrace(states: seq<State>, events: seq<Event>) {
    && |states| == |events| + 1
    && Initial(states[0])
    && forall i | 0 <= i < |events| :: Enabled(states[i], events[i]) && states[i + 1] == Step(states[i], events[i])
  }

  // ------------------------------------------------------------------ the invariant

  predicate Terminal(status: RunStatus) { status == RunCompleted || status == RunFailed }

  /** Run and task move together: same status, same times, and an error message iff failed. */
  predicate InStep(run: Run, task: Task) {
    && (match task.status
        case TaskPending => run.status == RunPending
        case TaskRunning => run.status == RunRunning
        case TaskCompleted => run.status == RunCompleted
        case TaskFailed => run.status == RunFailed
        case TaskSkipped => false)
    && run.startedAt == task.startedAt && run.completedAt == task.completedAt
    && (run.completedAt.Some? <==> Terminal(run.status))
    && (run.status == RunPending ==> run.startedAt.None?)
    && (run.status in {RunRunning, RunCompleted} ==> run.startedAt.Some?)
    && (task.errorMessage.Some? <==> task.status == TaskFailed)
    && (run.status != RunCompleted ==> run.commitSha == run.ref)
  }

  /** Every task has its run and every run exactly one task. */
  ghost predicate LinkInv(runs: map<nat, Run>, tasks: map<nat, Task>) {
    && (forall id | id in tasks :: tasks[id].runId in runs && InStep(runs[tasks[id].runId], tasks[id]))
    && (forall a, b | a in tasks && b in tasks && a != b :: tasks[a].runId != tasks[b].runId)
    && (forall runId | runId in runs :: exists id :: id in tasks && tasks[id].runId == runId)
  }

  function WorkOf(run: Run, task: Task): Work { Work(run.subject, run.commitSha, task.scanner) }

  predicate InFlight(runs: map<nat, Run>, tasks: map<nat, Task>, id: nat) {
    id in tasks && tasks[id].runId in runs && Active(tasks[id].status)
  }

  ghost predicate WorkUnique(runs: map<nat, Run>, tasks: map<nat, Task>) {
    forall a, b | InFlight(runs, tasks, a) && InFlight(runs, tasks, b) && a != b ::
      WorkOf(runs[tasks[a].runId], tasks[a]) != WorkOf(runs[tasks[b].runId], tasks[b])
  }

  predicate SubjectOk(repos: map<nat, Repo>, targets: map<nat, Target>, run: Run) {
    match run.subject
    case Repository(id) => id in repos && run.commitSha.Some? && run.ref.Some?
    case ScanTarget(id) => id in targets && run.commitSha.None? && run.ref.None?
  }

  predicate SubjectsOk(repos: map<nat, Repo>, targets: map<nat, Target>, runs: map<nat, Run>) {
    forall runId | runId in runs :: SubjectOk(repos, targets, runs[runId])
  }

  predicate PublicationDue(repos: map<nat, Repo>, run: Run) {
    Terminal(run.status) && Eligible(repos, run.subject, run.commitSha)
  }

  predicate IntentOk(repos: map<nat, Repo>, runs: map<nat, Run>, row: Outbox.Row) {
    && row.scanRunId in runs && PublicationDue(repos, runs[row.scanRunId])
    && row.checkName == GITHUB_CHECK_NAME && row.outcome == OutcomeOf(runs[row.scanRunId].status)
  }

  predicate OutboxInv(repos: map<nat, Repo>, runs: map<nat, Run>, outbox: Outbox.Table) {
    && Outbox.ValidTable(outbox)
    && (forall id | id in outbox :: IntentOk(repos, runs, outbox[id]))
    && (forall runId | runId in runs && PublicationDue(repos, runs[runId]) :: PublicationExists(outbox, runId))
  }

  predicate ScanOk(runs: map<nat, Run>, scan: Scan, now: real) {
    && scan.runId in runs && runs[scan.runId].status == RunCompleted && runs[scan.runId].subject == scan.subject
    && runs[scan.runId].completedAt.Some? && runs[scan.runId].completedAt.value <= now
  }

  function CompletionTime(runs: map<nat, Run>, runId: nat): real {
    if runId in runs && runs[runId].completedAt.Some? then runs[runId].completedAt.value else 0.0
  }

  predicate InHistory(history: seq<Change>, runId: nat) {
    exists i :: 0 <= i < |history| && history[i].Completed? && history[i].scan.runId == runId
  }

  /** The findings table is the index of the completed runs, taken in the order they completed. */
  predicate HistoryInv(runs: map<nat, Run>, history: seq<Change>, findings: Index, now: real) {
    && findings == IndexOf(history) && ValidHistory(history)
    && (forall i | 0 <= i < |history| && history[i].Completed? :: ScanOk(runs, history[i].scan, now))
    && (forall i, j | 0 <= i < j < |history| && history[i].Completed? && history[j].Completed? ::
          CompletionTime(runs, history[i].scan.runId) <= CompletionTime(runs, history[j].scan.runId))
    && (forall runId | runId in runs && runs[runId].status == RunCompleted :: InHistory(history, runId))
  }

  predicate LoadedOk(runs: map<nat, Run>, tasks: map<nat, Task>, attempt: Loaded) {
    && attempt.taskId in tasks && tasks[attempt.taskId].runId == attempt.runId
    && attempt.runId in runs && runs[attempt.runId].subject == attempt.subject
    && tasks[attempt.taskId].status != TaskPending
  }

  predicate LoadedInv(runs: map<nat, Run>, tasks: map<nat, Task>, loaded: set<Loaded>) {
    forall attempt | attempt in loaded :: LoadedOk(runs, tasks, attempt)
  }

  predicate FreshInv(db: Db) {
    && (forall id | id in db.runs :: id < db.nextId)
    && (forall id | id in db.tasks :: id < db.nextId)
    && (forall id | id in db.outbox :: id < db.nextId)
  }

  ghost predicate Inv(s: State) {
    && LinkInv(s.db.runs, s.db.tasks)
    && WorkUnique(s.db.runs, s.db.tasks)
    && SubjectsOk(s.db.repos, s.db.targets, s.db.runs)
    && OutboxInv(s.db.repos, s.db.runs, s.db.outbox)
    && HistoryInv(s.db.runs, s.history, s.db.findings, s.db.now)
    && LoadedInv(s.db.runs, s.db.tasks, s.loaded)
    && FreshInv(s.db)
  }

  // ------------------------------------------------------------------ a new run and its task

  lemma InsertKeepsLink(runs: map<nat, Run>, tasks: map<nat, Task>, runId: nat, run: Run, taskId: nat, task: Task)
    requires LinkInv(runs, tasks) && runId !in runs && taskId !in tasks
    requires task.runId == runId && InStep(run, task)
    ensures LinkInv(runs[runId := run], tasks[taskId := task])
  {
    var more := tasks[taskId := task];
    forall other | other in runs ensures exists id :: id in more && more[id].runId == other {
      var id :| id in tasks && tasks[id].runId == other;
      assert more[id].runId == other;
    }
    assert more[taskId].runId == runId;
  }

  /** Nobody is doing the new work, and in-flight work never changes, so it stays unique. */
  lemma InsertKeepsWorkUnique(runs: map<nat, Run>, tasks: map<nat, Task>, runId: nat, run: Run, taskId: nat, task: Task)
    requires LinkInv(runs, tasks) && WorkUnique(runs, tasks) && runId !in runs && taskId !in tasks
    requires task.runId == runId
    requires ActiveTasks(runs, tasks, WorkOf(run, task)) == {}
    ensures WorkUnique(runs[runId := run], tasks[taskId := task])
  {
    var work := WorkOf(run, task);
    forall a | InFlight(runs, tasks, a) ensures WorkOf(runs[tasks[a].runId], tasks[a]) != work {
      assert a !in ActiveTasks(runs, tasks, work);
    }
    forall a | a in tasks ensures tasks[a].runId in runs { }
  }

  lemma InsertKeepsOutbox(repos: map<nat, Repo>, runs: map<nat, Run>, outbox: Outbox.Table, runId: nat, run: Run)
    requires OutboxInv(repos, runs, outbox) && runId !in runs && !Terminal(run.status)
    ensures OutboxInv(repos, runs[runId := run], outbox)
  {
  }

  lemma InsertKeepsHistory(runs: map<nat, Run>, history: seq<Change>, findings: Index, now: real, runId: nat, run: Run)
    requires HistoryInv(runs, history, findings, now) && runId !in runs && run.status != RunCompleted
    ensures HistoryInv(runs[runId := run], history, findings, now)
  {
    hide IndexOf, ValidHistory;
  }

  lemma InsertKeepsLoaded(runs: map<nat, Run>, tasks: map<nat, Task>, loaded: set<Loaded>, runId: nat, run: Run,
                          taskId: nat, task: Task)
    requires LoadedInv(runs, tasks, loaded) && runId !in runs && taskId !in tasks
    ensures LoadedInv(runs[runId := run], tasks[taskId := task], loaded)
  {
  }

  lemma RunWriteKeepsSubjects(repos: map<nat, Repo>, targets: map<nat, Target>, runs: map<nat, Run>, runId: nat,
                              run: Run)
    requires SubjectsOk(repos, targets, runs) && SubjectOk(repos, targets, run)
    ensures SubjectsOk(repos, targets, runs[runId := run])
  {
  }

  /** The new run starts in step with its task, and its identifiers are new. */
  lemma TriggeredRun(db: Db, request: TriggerRequest)
    requires FreshInv(db) && Triggers(db, request)
    ensures var work, after := RequestedWork(db, request), AfterTrigger(db, request);
            var run, task := NewRun(work, request.trigger, db.now), NewTask(db.nextId, work.scanner);
            && after == db.(runs := db.runs[db.nextId := run], tasks := db.tasks[db.nextId + 1 := task],
                            nextId := db.nextId + 2)
            && db.nextId !in db.runs && db.nextId + 1 !in db.tasks && FreshInv(after)
            && InStep(run, task) && SubjectOk(db.repos, db.targets, run) && run.status == RunPending
            && WorkOf(run, task) == work && ActiveTasks(db.runs, db.tasks, work) == {}
  {
  }

  lemma TriggerKeepsInv(s: State, request: TriggerRequest)
    requires Inv(s)
    ensures Inv(Step(s, Trigger(request)))
  {
    hide LinkInv, WorkUnique, SubjectsOk, SubjectOk, OutboxInv, HistoryInv, LoadedInv, FreshInv, InStep, ActiveTasks;
    var db := s.db;
    if Triggers(db, request) {
      TriggeredRun(db, request);
      hide RequestedWork, Triggers, AfterTrigger, NewRun, NewTask;
      var work := RequestedWork(db, request);
      var run, task := NewRun(work, request.trigger, db.now), NewTask(db.nextId, work.scanner);
      InsertKeepsLink(db.runs, db.tasks, db.nextId, run, db.nextId + 1, task);
      InsertKeepsWorkUnique(db.runs, db.tasks, db.nextId, run, db.nextId + 1, task);
      InsertKeepsLoaded(db.runs, db.tasks, s.loaded, db.nextId, run, db.nextId + 1, task);
      InsertKeepsOutbox(db.repos, db.runs, db.outbox, db.nextId, run);
      InsertKeepsHistory(db.runs, s.history, db.findings, db.now, db.nextId, run);
      RunWriteKeepsSubjects(db.repos, db.targets, db.runs, db.nextId, run);
    }
  }

  // ------------------------------------------------------------------ a run and its task moving together

  lemma MoveKeepsLink(runs: map<nat, Run>, tasks: map<nat, Task>, taskId: nat, run: Run, task: Task)
    requires LinkInv(runs, tasks) && taskId in tasks && task.runId == tasks[taskId].runId && InStep(run, task)
    ensures LinkInv(runs[task.runId := run], tasks[taskId := task])
  {
    hide InStep;
    var moved := tasks[taskId := task];
    forall runId | runId in runs ensures exists id :: id in moved && moved[id].runId == runId {
      var id :| id in tasks && tasks[id].runId == runId;
      assert moved[id].runId == runId;
    }
  }

  lemma MoveKeepsWorkUnique(runs: map<nat, Run>, tasks: map<nat, Task>, taskId: nat, run: Run, task: Task)
    requires LinkInv(runs, tasks) && WorkUnique(runs, tasks) && taskId in tasks && task.runId == tasks[taskId].runId
    requires Active(task.status) ==>
               Active(tasks[taskId].status) && WorkOf(run, task) == WorkOf(runs[task.runId], tasks[taskId])
    ensures WorkUnique(runs[task.runId := run], tasks[taskId := task])
  {
    hide InStep;
    var newRuns, moved := runs[task.runId := run], tasks[taskId := task];
    forall id | InFlight(newRuns, moved, id)
      ensures InFlight(runs, tasks, id)
      ensures WorkOf(newRuns[moved[id].runId], moved[id]) == WorkOf(runs[tasks[id].runId], tasks[id])
    {
    }
  }

  lemma MoveKeepsLoaded(runs: map<nat, Run>, tasks: map<nat, Task>, loaded: set<Loaded>, taskId: nat, run: Run,
                        task: Task)
    requires LinkInv(runs, tasks) && LoadedInv(runs, tasks, loaded)
    requires taskId in tasks && task.runId == tasks[taskId].runId
    requires run.subject == runs[task.runId].subject && task.status != TaskPending
    ensures LoadedInv(runs[task.runId := run], tasks[taskId := task], loaded)
  {
  }

  lemma StartKeepsOutbox(repos: map<nat, Repo>, runs: map<nat, Run>, outbox: Outbox.Table, runId: nat, run: Run)
    requires OutboxInv(repos, runs, outbox) && runId in runs && !Terminal(runs[runId].status) && !Terminal(run.status)
    ensures OutboxInv(repos, runs[runId := run], outbox)
  {
  }

  lemma OtherRunKeepsHistory(runs: map<nat, Run>, history: seq<Change>, findings: Index, now: real, runId: nat,
                             run: Run)
    requires HistoryInv(runs, history, findings, now) && runId in runs
    requires runs[runId].status != RunCompleted && run.status != RunCompleted
    ensures HistoryInv(runs[runId := run], history, findings, now)
  {
    hide IndexOf, ValidHistory;
  }

  lemma TaskInStep(db: Db, taskId: nat)
    requires LinkInv(db.runs, db.tasks) && taskId in db.tasks
    ensures db.tasks[taskId].runId in db.runs && InStep(db.runs[db.tasks[taskId].runId], db.tasks[taskId])
  {
  }

  /** A load either changes nothing or starts a pending run together with its task. */
  lemma LoadedRun(db: Db, taskId: nat, unsealable: bool, dastEnabled: bool)
    requires LinkInv(db.runs, db.tasks)
    ensures var after := AfterLoad(db, taskId, unsealable, dastEnabled);
            (after == db
             || (&& taskId in db.tasks && db.tasks[taskId].status == TaskPending && db.tasks[taskId].runId in db.runs
                 && var task := db.tasks[taskId];
                    var run := db.runs[task.runId];
                    && run.status == RunPending && InStep(StartedRun(run, db.now), StartedTask(task, db.now))
                    && after == db.(tasks := db.tasks[taskId := StartedTask(task, db.now)],
                                    runs := db.runs[task.runId := StartedRun(run, db.now)])))
  {
    if taskId in db.tasks { TaskInStep(db, taskId); }
  }

  lemma StartKeepsSubject(repos: map<nat, Repo>, targets: map<nat, Target>, run: Run, now: real)
    requires SubjectOk(repos, targets, run)
    ensures SubjectOk(repos, targets, StartedRun(run, now))
  {
  }

  lemma RunSubjectOk(repos: map<nat, Repo>, targets: map<nat, Target>, runs: map<nat, Run>, runId: nat)
    requires SubjectsOk(repos, targets, runs) && runId in runs
    ensures SubjectOk(repos, targets, runs[runId])
  {
  }

  lemma WriteKeepsFresh(db: Db, taskId: nat, task: Task, runId: nat, run: Run)
    requires FreshInv(db) && taskId in db.tasks && runId in db.runs
    ensures FreshInv(db.(tasks := db.tasks[taskId := task], runs := db.runs[runId := run]))
  {
  }

  lemma StartKeepsTables(s: State, taskId: nat)
    requires Inv(s) && taskId in s.db.tasks && s.db.tasks[taskId].status == TaskPending
    requires var task := s.db.tasks[taskId];
             task.runId in s.db.runs && s.db.runs[task.runId].status == RunPending
             && InStep(StartedRun(s.db.runs[task.runId], s.db.now), StartedTask(task, s.db.now))
    ensures var task := s.db.tasks[taskId];
            var db := s.db.(tasks := s.db.tasks[taskId := StartedTask(task, s.db.now)],
                            runs := s.db.runs[task.runId := StartedRun(s.db.runs[task.runId], s.db.now)]);
            Inv(State(db, s.loaded, s.history))
  {
    var db, task := s.db, s.db.tasks[taskId];
    var run := db.runs[task.runId];
    var newRun, newTask := StartedRun(run, db.now), StartedTask(task, db.now);
    hide LinkInv, WorkUnique, SubjectsOk, SubjectOk, OutboxInv, HistoryInv, LoadedInv, FreshInv, InStep;
    RunSubjectOk(db.repos, db.targets, db.runs, task.runId);
    WriteKeepsFresh(db, taskId, newTask, task.runId, newRun);
    MoveKeepsLink(db.runs, db.tasks, taskId, newRun, newTask);
    MoveKeepsWorkUnique(db.runs, db.tasks, taskId, newRun, newTask);
    MoveKeepsLoaded(db.runs, db.tasks, s.loaded, taskId, newRun, newTask);
    StartKeepsOutbox(db.repos, db.runs, db.outbox, task.runId, newRun);
    OtherRunKeepsHistory(db.runs, s.history, db.findings, db.now, task.runId, newRun);
    StartKeepsSubject(db.repos, db.targets, run, db.now);
    RunWriteKeepsSubjects(db.repos, db.targets, db.runs, task.runId, newRun);
  }

  lemma LoadedAfterOk(s: State, e: Event)
    requires e.Load? && LinkInv(s.db.runs, s.db.tasks) && LoadedInv(EffectOn(s, e).runs, EffectOn(s, e).tasks, s.loaded)
    ensures LoadedInv(EffectOn(s, e).runs, EffectOn(s, e).tasks, LoadedAfter(s, e))
  {
    if LoadError(s.db, e.taskId, e.unsealable, e.dastEnabled).None? && !LoadResult(s.db, e.taskId).terminal {
      TaskInStep(s.db, e.taskId);
      assert LoadedOk(EffectOn(s, e).runs, EffectOn(s, e).tasks, LoadResult(s.db, e.taskId));
    }
  }

  lemma LoadKeepsInv(s: State, e: Event)
    requires Inv(s) && e.Load?
    ensures Inv(Step(s, e))
  {
    hide LinkInv, WorkUnique, SubjectsOk, OutboxInv, HistoryInv, LoadedInv, FreshInv, InStep, AfterLoad, LoadedAfter;
    LoadedRun(s.db, e.taskId, e.unsealable, e.dastEnabled);
    if AfterLoad(s.db, e.taskId, e.unsealable, e.dastEnabled) != s.db {
      StartKeepsTables(s, e.taskId);
    }
    LoadedAfterOk(s, e);
  }

  // ------------------------------------------------------------------ finishing

  /** What the write-back of an attempt can come to: the only way to raise is a repeated fingerprint. */
  lemma CompleteOutcomeExact(s: State, attempt: Loaded, headSha: Option<string>, batch: seq<Finding>)
    requires Inv(s) && attempt in s.loaded
    ensures CompleteOutcome(s.db, attempt, headSha, batch)
         == if s.db.runs[attempt.runId].status != RunRunning then AlreadyTerminal
            else if DistinctFingerprints(batch) then Transitioned
            else Raised(DuplicateFingerprints)
  {
    hide DistinctFingerprints, HistoryInv, WorkUnique, FreshInv, SubjectsOk;
    assert LoadedOk(s.db.runs, s.db.tasks, attempt);
    assert InStep(s.db.runs[attempt.runId], s.db.tasks[attempt.taskId]);
    if PublicationExists(s.db.outbox, attempt.runId) {
      var id :| id in s.db.outbox && s.db.outbox[id].scanRunId == attempt.runId;
      assert IntentOk(s.db.repos, s.db.runs, s.db.outbox[id]);
    }
  }

  lemma FailOutcomeExact(s: State, taskId: nat)
    requires Inv(s)
    ensures FailOutcome(s.db, taskId)
         == if taskId !in s.db.tasks then Raised(ScanTaskNotFound)
            else if Terminal(s.db.runs[s.db.tasks[taskId].runId].status) then AlreadyTerminal
            else Transitioned
  {
    hide HistoryInv, WorkUnique, FreshInv, SubjectsOk, LoadedInv;
    if taskId in s.db.tasks {
      var runId := s.db.tasks[taskId].runId;
      assert InStep(s.db.runs[runId], s.db.tasks[taskId]);
      if PublicationExists(s.db.outbox, runId) {
        var id :| id in s.db.outbox && s.db.outbox[id].scanRunId == runId;
        assert IntentOk(s.db.repos, s.db.runs, s.db.outbox[id]);
      }
    }
  }

  /** An intent is written exactly when one became due. */
  lemma FinishKeepsOutbox(repos: map<nat, Repo>, runs: map<nat, Run>, outbox: Outbox.Table, runId: nat, run: Run,
                          id: nat, summary: string, now: real)
    requires OutboxInv(repos, runs, outbox) && runId in runs && !Terminal(runs[runId].status) && Terminal(run.status)
    requires id !in outbox && run.subject == runs[runId].subject
    ensures var intent := IntentFor(runId, run.status, summary, now);
            OutboxInv(repos, runs[runId := run],
                      if Eligible(repos, run.subject, run.commitSha) then outbox[id := intent] else outbox)
  {
    hide Eligible, Outbox.ValidTable, Outbox.KeepsRows;
    var intent := IntentFor(runId, run.status, summary, now);
    forall other | other in outbox ensures outbox[other].scanRunId != runId {
      assert IntentOk(repos, runs, outbox[other]);
    }
    if Eligible(repos, run.subject, run.commitSha) {
      Outbox.RowInsertKeepsTable(outbox, id, intent);
      assert outbox[id := intent][id] == intent;
      forall other | other in runs && PublicationExists(outbox, other)
        ensures PublicationExists(outbox[id := intent], other)
      {
        var row :| row in outbox && outbox[row].scanRunId == other && outbox[row].checkName == GITHUB_CHECK_NAME;
        assert outbox[id := intent][row] == outbox[row];
      }
    }
  }

  lemma ExtendedValidHistory(history: seq<Change>, scan: Scan)
    requires ValidHistory(history) && DistinctFingerprints(scan.batch) && !InHistory(history, scan.runId)
    ensures ValidHistory(history + [Completed(scan)])
    ensures IndexOf(history + [Completed(scan)]) == UpsertAll(IndexOf(history), scan.subject, scan.runId, scan.batch)
  {
    hide DistinctFingerprints;
    assert (history + [Completed(scan)])[..|history|] == history;
  }

  lemma CompleteKeepsHistory(runs: map<nat, Run>, history: seq<Change>, findings: Index, now: real, scan: Scan,
                             run: Run)
    requires HistoryInv(runs, history, findings, now) && scan.runId in runs && runs[scan.runId].status != RunCompleted
    requires run.status == RunCompleted && run.subject == scan.subject && run.completedAt == Some(now)
    requires DistinctFingerprints(scan.batch)
    ensures HistoryInv(runs[scan.runId := run], history + [Completed(scan)],
                       UpsertAll(findings, scan.subject, scan.runId, scan.batch), now)
  {
    forall i | 0 <= i < |history| && history[i].Completed? ensures history[i].scan.runId != scan.runId {
      assert ScanOk(runs, history[i].scan, now);
    }
    ExtendedValidHistory(history, scan);
    hide IndexOf, ValidHistory, UpsertAll, DistinctFingerprints;
    var more := history + [Completed(scan)];
    forall runId | InHistory(history, runId) ensures InHistory(more, runId) {
      var i :| 0 <= i < |history| && history[i].Completed? && history[i].scan.runId == runId;
      assert more[i] == history[i];
    }
    assert more[|history|].scan.runId == scan.runId;
    forall i | 0 <= i < |more| && more[i].Completed? ensures ScanOk(runs[scan.runId := run], more[i].scan, now) {
      if i < |history| { assert ScanOk(runs, history[i].scan, now); }
    }
  }

  /** The tables after finishing one run, whichever way it ended. */
  function FinishedDb(db: Db, taskId: nat, run: Run, task: Task, findings: Index, summary: string): Db {
    var eligible := Eligible(db.repos, run.subject, run.commitSha);
    db.(tasks := db.tasks[taskId := task], runs := db.runs[task.runId := run], findings := findings,
        outbox := if eligible then db.outbox[db.nextId := IntentFor(task.runId, run.status, summary, db.now)]
                  else db.outbox,
        nextId := if eligible then db.nextId + 1 else db.nextId)
  }

  lemma FinishKeepsFresh(db: Db, taskId: nat, run: Run, task: Task, findings: Index, summary: string)
    requires FreshInv(db) && taskId in db.tasks && task.runId in db.runs
    ensures FreshInv(FinishedDb(db, taskId, run, task, findings, summary)) && db.nextId !in db.outbox
  {
    hide Eligible, IntentFor;
  }

  lemma FinishKeepsInv(s: State, taskId: nat, run: Run, task: Task, findings: Index, history: seq<Change>,
                       summary: string)
    requires Inv(s) && taskId in s.db.tasks && task.runId == s.db.tasks[taskId].runId && task.runId in s.db.runs
    requires InStep(run, task) && Terminal(run.status) && !Terminal(s.db.runs[task.runId].status)
    requires run.subject == s.db.runs[task.runId].subject && SubjectOk(s.db.repos, s.db.targets, run)
    requires HistoryInv(s.db.runs[task.runId := run], history, findings, s.db.now)
    ensures Inv(State(FinishedDb(s.db, taskId, run, task, findings, summary), s.loaded, history))
  {
    var db := s.db;
    assert task.status in {TaskCompleted, TaskFailed};
    hide LinkInv, WorkUnique, SubjectsOk, SubjectOk, OutboxInv, HistoryInv, LoadedInv, FreshInv, InStep;
    MoveKeepsLink(db.runs, db.tasks, taskId, run, task);
    MoveKeepsWorkUnique(db.runs, db.tasks, taskId, run, task);
    MoveKeepsLoaded(db.runs, db.tasks, s.loaded, taskId, run, task);
    FinishKeepsFresh(db, taskId, run, task, findings, summary);
    FinishKeepsOutbox(db.repos, db.runs, db.outbox, task.runId, run, db.nextId, summary, db.now);
    RunWriteKeepsSubjects(db.repos, db.targets, db.runs, task.runId, run);
  }

  /** What a write-back starts from: the attempt's task, its run, and both still running. */
  lemma AttemptInStep(s: State, attempt: Loaded)
    requires Inv(s) && attempt in s.loaded
    ensures attempt.taskId in s.db.tasks && s.db.tasks[attempt.taskId].runId == attempt.runId
    ensures attempt.runId in s.db.runs
    ensures s.db.runs[attempt.runId].subject == attempt.subject
    ensures InStep(s.db.runs[attempt.runId], s.db.tasks[attempt.taskId])
    ensures SubjectOk(s.db.repos, s.db.targets, s.db.runs[attempt.runId])
  {
    hide WorkUnique, OutboxInv, HistoryInv, FreshInv, InStep;
    assert LoadedOk(s.db.runs, s.db.tasks, attempt);
  }

  function CompletedRun(db: Db, attempt: Loaded, headSha: Option<string>): Run
    requires attempt.runId in db.runs
  {
    var run := db.runs[attempt.runId];
    FinishedRun(run, RunCompleted, db.now, if headSha.Some? then headSha else run.commitSha)
  }

  function CompletedTask(db: Db, attempt: Loaded): Task
    requires attempt.taskId in db.tasks
  {
    FinishedTask(db.tasks[attempt.taskId], TaskCompleted, db.now, None)
  }

  lemma CompletedRunOk(s: State, e: Event)
    requires Inv(s) && e.Complete? && Enabled(s, e)
    requires CompleteOutcome(s.db, e.attempt, e.headSha, e.batch) == Transitioned
    ensures e.attempt.taskId in s.db.tasks && e.attempt.runId in s.db.runs
    ensures s.db.tasks[e.attempt.taskId].runId == e.attempt.runId
    ensures s.db.runs[e.attempt.runId].subject == e.attempt.subject
    ensures s.db.runs[e.attempt.runId].status == RunRunning
    ensures var run, task := CompletedRun(s.db, e.attempt, e.headSha), CompletedTask(s.db, e.attempt);
            InStep(run, task) && SubjectOk(s.db.repos, s.db.targets, run)
  {
    hide Inv, DistinctFingerprints, Eligible, PublicationExists;
    AttemptInStep(s, e.attempt);
  }

  lemma CompleteStep(s: State, e: Event)
    requires e.Complete? && Enabled(s, e) && CompleteOutcome(s.db, e.attempt, e.headSha, e.batch) == Transitioned
    requires e.attempt.runId in s.db.runs && s.db.runs[e.attempt.runId].subject == e.attempt.subject
    requires e.attempt.taskId in s.db.tasks && s.db.tasks[e.attempt.taskId].runId == e.attempt.runId
    requires SubjectOk(s.db.repos, s.db.targets, s.db.runs[e.attempt.runId])
    ensures var run, task := CompletedRun(s.db, e.attempt, e.headSha), CompletedTask(s.db, e.attempt);
            var findings := UpsertAll(s.db.findings, e.attempt.subject, e.attempt.runId, e.batch);
            Step(s, e) == State(FinishedDb(s.db, e.attempt.taskId, run, task, findings, e.summary), s.loaded,
                                s.history + [Completed(Scan(e.attempt.subject, e.attempt.runId, e.batch))])
  {
    hide DistinctFingerprints, PublicationExists, UpsertAll;
  }

  lemma CompleteKeepsInv(s: State, e: Event)
    requires Inv(s) && e.Complete? && Enabled(s, e)
    ensures Inv(Step(s, e))
  {
    var db, attempt := s.db, e.attempt;
    AttemptInStep(s, attempt);
    CompleteOutcomeExact(s, attempt, e.headSha, e.batch);
    assert HistoryInv(db.runs, s.history, db.findings, db.now);
    if CompleteOutcome(db, attempt, e.headSha, e.batch) == Transitioned {
      CompletedRunOk(s, e);
      CompleteStep(s, e);
      hide DistinctFingerprints, CompleteOutcome, UpsertAll, Inv, HistoryInv, SubjectOk, InStep, Step, Enabled,
           FinishedDb;
      var newTask, newRun := CompletedTask(db, attempt), CompletedRun(db, attempt, e.headSha);
      var scan := Scan(attempt.subject, attempt.runId, e.batch);
      CompleteKeepsHistory(db.runs, s.history, db.findings, db.now, scan, newRun);
      FinishKeepsInv(s, attempt.taskId, newRun, newTask,
                     UpsertAll(db.findings, attempt.subject, attempt.runId, e.batch),
                     s.history + [Completed(scan)], e.summary);
    }
  }

  lemma FailKeepsInv(s: State, e: Event)
    requires Inv(s) && e.Fail?
    ensures Inv(Step(s, e))
  {
    var db, taskId := s.db, e.taskId;
    FailOutcomeExact(s, taskId);
    assert HistoryInv(db.runs, s.history, db.findings, db.now);
    if FailOutcome(db, taskId) == Transitioned {
      TaskInStep(db, taskId);
      var task := db.tasks[taskId];
      var run := db.runs[task.runId];
      assert SubjectOk(db.repos, db.targets, run);
      hide FailOutcome, Inv, HistoryInv;
      var newTask := FinishedTask(task, TaskFailed, db.now, Some(e.message));
      var newRun := FinishedRun(run, RunFailed, db.now, run.commitSha);
      OtherRunKeepsHistory(db.runs, s.history, db.findings, db.now, task.runId, newRun);
      FinishKeepsInv(s, taskId, newRun, newTask, db.findings, s.history, e.summary);
      hide SubjectOk, InStep;
      assert Step(s, e).db == FinishedDb(db, taskId, newRun, newTask, db.findings, e.summary);
    }
  }

  // ------------------------------------------------------------------ everything else

  lemma SameProvidersKeepOutbox(repos: map<nat, Repo>, edited: map<nat, Repo>, targets: map<nat, Target>,
                                runs: map<nat, Run>, outbox: Outbox.Table)
    requires OutboxInv(repos, runs, outbox) && SubjectsOk(repos, targets, runs)
    requires forall id | id in repos :: id in edited && edited[id].provider == repos[id].provider
    ensures OutboxInv(edited, runs, outbox) && SubjectsOk(edited, targets, runs)
  {
    forall runId | runId in runs ensures PublicationDue(edited, runs[runId]) <==> PublicationDue(repos, runs[runId]) {
      assert SubjectOk(repos, targets, runs[runId]);
    }
    hide PublicationDue;
    forall id | id in outbox ensures IntentOk(edited, runs, outbox[id]) {
      assert IntentOk(repos, runs, outbox[id]);
    }
  }

  lemma OutboxMoveKeepsOutbox(repos: map<nat, Repo>, runs: map<nat, Run>, outbox: Outbox.Table, moved: Outbox.Table)
    requires OutboxInv(repos, runs, outbox)
    requires moved.Keys == outbox.Keys && Outbox.ValidTable(moved) && Outbox.KeepsRows(outbox, moved)
    ensures OutboxInv(repos, runs, moved)
  {
    hide Outbox.ValidRow, PublicationDue;
    forall id | id in moved ensures IntentOk(repos, runs, moved[id]) {
      assert Outbox.SameIntent(outbox[id], moved[id]) && IntentOk(repos, runs, outbox[id]);
    }
    forall runId | runId in runs && PublicationDue(repos, runs[runId]) ensures PublicationExists(moved, runId) {
      var id :| id in outbox && outbox[id].scanRunId == runId && outbox[id].checkName == GITHUB_CHECK_NAME;
      assert Outbox.SameIntent(outbox[id], moved[id]);
    }
  }

  lemma TriageKeepsHistoryInv(runs: map<nat, Run>, history: seq<Change>, findings: Index, now: real, key: Key,
                              triage: Triage)
    requires HistoryInv(runs, history, findings, now)
    ensures HistoryInv(runs, history + [TriagedBy(key, triage)], Triaged(findings, key, triage), now)
  {
    var more := history + [TriagedBy(key, triage)];
    assert more[..|history|] == history;
    assert IndexOf(more) == Triaged(findings, key, triage);
    assert ValidHistory(more);
    hide IndexOf, Triaged, ValidHistory;
    forall runId | InHistory(history, runId) ensures InHistory(more, runId) {
      var i :| 0 <= i < |history| && history[i].Completed? && history[i].scan.runId == runId;
      assert more[i] == history[i];
    }
    forall i | 0 <= i < |more| && more[i].Completed? ensures ScanOk(runs, more[i].scan, now) {
      assert more[i] == history[i];
    }
  }

  lemma LaterKeepsHistory(runs: map<nat, Run>, history: seq<Change>, findings: Index, now: real, later: real)
    requires HistoryInv(runs, history, findings, now) && now <= later
    ensures HistoryInv(runs, history, findings, later)
  {
    hide IndexOf, ValidHistory;
  }

  lemma StepKeepsInv(s: State, e: Event)
    requires Inv(s) && Enabled(s, e)
    ensures Inv(Step(s, e))
  {
    hide LinkInv, WorkUnique, OutboxInv, HistoryInv, LoadedInv;
    match e {
      case Trigger(request) => TriggerKeepsInv(s, request);
      case Load(_, _, _) => LoadKeepsInv(s, e);
      case Complete(_, _, _, _) => CompleteKeepsInv(s, e);
      case Fail(_, _, _) => FailKeepsInv(s, e);
      case AddRepository(_, _) => SameProvidersKeepOutbox(s.db.repos, EffectOn(s, e).repos, s.db.targets, s.db.runs,
                                                          s.db.outbox);
      case EditRepository(_, _, _, _) => SameProvidersKeepOutbox(s.db.repos, EffectOn(s, e).repos, s.db.targets,
                                                                 s.db.runs, s.db.outbox);
      case TriageFinding(key, triage) => TriageKeepsHistoryInv(s.db.runs, s.history, s.db.findings, s.db.now, key,
                                                               triage);
      case OutboxMoves(outbox) => OutboxMoveKeepsOutbox(s.db.repos, s.db.runs, s.db.outbox, outbox);
      case Tick(elapsed) => LaterKeepsHistory(s.db.runs, s.history, s.db.findings, s.db.now, s.db.now + elapsed);
      case AddTarget(_, _) =>
      case EditTarget(_, _) =>
    }
  }

  lemma {:induction false} TraceKeepsInv(states: seq<State>, events: seq<Event>, i: nat)
    requires IsTrace(states, events) && i < |states|
    ensures Inv(states[i])
  {
    if i > 0 {
      TraceKeepsInv(states, events, i - 1);
      hide Inv;
      StepKeepsInv(states[i - 1], events[i - 1]);
    } else {
      assert IndexOf([]) == map[];
    }
  }
}
