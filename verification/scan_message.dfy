/**
  One scan message from delivery to acknowledgement: load, execute, write back, and retry with
  exponential back-off when the execution failed transiently. Everybody else keeps running
  between its transactions.
*/
module ScanMessage {
  import opened Wrappers
  import opened FindingIndex
  import opened ScanTables
  import opened ScanSession
  import opened ScanLifecycle
  import ScanSafety
  import PublishRetry

  const MAX_RETRIES: nat := 5
  const BACKOFF_CAP: real := 60.0

  /** What checkout and scanner came to; only the last kind is worth another attempt. */
  datatype Execution =
    | Scanned(headSha: string, batch: seq<Finding>)
    | FailedDeterministically(message: string)
    | FailedTransiently(message: string)

  /** Everything outside the tables that one execution meets; `loadMessage` is the text of an error while loading. */
  datatype Attempt = Attempt(unsealable: bool, dastEnabled: bool, loadMessage: string, execution: Execution, draw: real)

  function BackoffSeconds(retries: nat, draw: real): real {
    var exponential := PublishRetry.Pow2(retries);
    (if exponential < BACKOFF_CAP then exponential else BACKOFF_CAP) + draw
  }

  /** Doubling from one second, never above a minute, and never shorter for a later retry. */
  lemma BackoffGrows(retries: nat, draw: real)
    requires 0.0 <= draw <= 1.0
    ensures retries <= 5 ==>
              PublishRetry.Pow2(retries) <= BackoffSeconds(retries, draw) <= PublishRetry.Pow2(retries) + 1.0
    ensures retries >= 6 ==> 60.0 <= BackoffSeconds(retries, draw) <= 61.0
    ensures BackoffSeconds(retries, draw) <= BackoffSeconds(retries + 1, draw)
  {
    assert PublishRetry.Pow2(retries + 1) == 2.0 * PublishRetry.Pow2(retries);
    assert PublishRetry.Pow2(6) == 64.0 by { assert PublishRetry.Pow2(3) == 8.0; }
    PowersGrow(retries, 5);
    PowersGrow(6, retries);
  }

  lemma {:induction false} PowersGrow(m: nat, n: nat)
    ensures m <= n ==> PublishRetry.Pow2(m) <= PublishRetry.Pow2(n)
    decreases n
  {
    if m < n { PowersGrow(m, n - 1); }
  }

  // ------------------------------------------------------------------ what the others may do meanwhile

  ghost predicate Rely(s: State, t: State) {
    && TasksKept(s.db.tasks, t.db.tasks)
    && (forall id | id in s.db.runs :: ScanSafety.KeepsFinished(s.db.runs, t.db.runs, id))
    && s.loaded <= t.loaded
  }

  ghost predicate TasksKept(before: map<nat, Task>, after: map<nat, Task>) {
    forall id | id in before :: id in after && after[id].runId == before[id].runId
  }

  lemma TriggerAndLoadKeepTasks(db: Db, request: TriggerRequest, taskId: nat, unsealable: bool, dastEnabled: bool)
    requires FreshInv(db) && LinkInv(db.runs, db.tasks)
    ensures TasksKept(db.tasks, AfterTrigger(db, request).tasks)
    ensures TasksKept(db.tasks, AfterLoad(db, taskId, unsealable, dastEnabled).tasks)
  {
    if Triggers(db, request) { TriggeredRun(db, request); }
    LoadedRun(db, taskId, unsealable, dastEnabled);
    hide LinkInv, AfterLoad, InStep, SubjectOk, ActiveTasks, RequestedWork;
  }

  lemma FinishKeepsTasks(db: Db, attempt: Loaded, headSha: Option<string>, batch: seq<Finding>, taskId: nat,
                         message: string, summary: string)
    ensures TasksKept(db.tasks, AfterComplete(db, attempt, headSha, batch, summary).tasks)
    ensures TasksKept(db.tasks, AfterFail(db, taskId, message, summary).tasks)
  {
    hide Eligible, UpsertAll, DistinctFingerprints, PublicationExists, IntentFor;
  }

  lemma StepKeepsTasks(s: State, e: Event)
    requires Inv(s) && Enabled(s, e)
    ensures TasksKept(s.db.tasks, Step(s, e).db.tasks) && s.loaded <= Step(s, e).loaded
  {
    hide AfterTrigger, AfterLoad, AfterComplete, AfterFail, LinkInv, FreshInv, WorkUnique, OutboxInv, HistoryInv,
         LoadedInv, LoadError, CompleteOutcome;
    match e {
      case Trigger(request) => TriggerAndLoadKeepTasks(s.db, request, 0, false, false);
      case Load(taskId, unsealable, dastEnabled) =>
        TriggerAndLoadKeepTasks(s.db, TriggerRequest(None, None, None, Secrets, ""), taskId, unsealable, dastEnabled);
      case Complete(attempt, headSha, batch, summary) => FinishKeepsTasks(s.db, attempt, headSha, batch, 0, "",
                                                                          summary);
      case Fail(taskId, message, summary) =>
        FinishKeepsTasks(s.db, Loaded(0, 0, Repository(0), false, false), None, [], taskId, message, summary);
      case _ =>
    }
  }

  /** Every step of the lifecycle, and so any number of them, is something an attempt can bear. */
  lemma StepRelies(s: State, e: Event)
    requires Inv(s) && Enabled(s, e)
    ensures Inv(Step(s, e)) && Rely(s, Step(s, e))
  {
    hide Inv, Step, Enabled, ScanSafety.KeepsFinished;
    StepKeepsInv(s, e);
    StepKeepsTasks(s, e);
    forall id | id in s.db.runs ensures ScanSafety.KeepsFinished(s.db.runs, Step(s, e).db.runs, id) {
      ScanSafety.StepKeepsFinished(s, e, id);
    }
  }

  /** Any reaction of the rest of the system to the state it finds. */
  ghost predicate Tolerable(others: State -> State) {
    forall s {:trigger others(s)} :: Inv(s) ==> Inv(others(s)) && Rely(s, others(s))
  }

  lemma RelyTransitive(s: State, t: State, u: State)
    requires Rely(s, t) && Rely(t, u)
    ensures Rely(s, u)
  {
  }

  predicate TaskFinished(s: State, taskId: nat) {
    && taskId in s.db.tasks && s.db.tasks[taskId].runId in s.db.runs
    && Terminal(s.db.runs[s.db.tasks[taskId].runId].status)
  }

  lemma FinishedStays(s: State, t: State, taskId: nat)
    requires Rely(s, t) && TaskFinished(s, taskId)
    ensures TaskFinished(t, taskId)
  {
    assert ScanSafety.KeepsFinished(s.db.runs, t.db.runs, s.db.tasks[taskId].runId);
  }

  // ------------------------------------------------------------------ the transactions of one attempt

  lemma FailFinishes(s: State, taskId: nat, message: string)
    requires Inv(s) && taskId in s.db.tasks
    ensures TaskFinished(Step(s, Fail(taskId, message, "")), taskId)
  {
    FailOutcomeExact(s, taskId);
    TaskInStep(s.db, taskId);
    hide Inv, FailOutcome, Eligible, InStep;
  }

  /** An unfinished scan fails now, with this message; a finished one stays as it is. */
  ghost predicate FailureRecorded(s: State, t: State, taskId: nat, message: string) {
    && t.history == s.history
    && if TaskFinished(s, taskId) then t.db == s.db else Fails(s.db, t.db, taskId, message, "")
  }

  lemma UnfinishedTask(s: State, taskId: nat)
    requires Inv(s) && taskId in s.db.tasks
    ensures TaskFinished(s, taskId) <==> !Unfinished(s.db.tasks[taskId])
  {
    TaskInStep(s.db, taskId);
    hide Inv;
  }

  lemma FailsUnlessFinished(s: State, taskId: nat)
    requires Inv(s) && taskId in s.db.tasks
    ensures FailOutcome(s.db, taskId) == if TaskFinished(s, taskId) then AlreadyTerminal else Transitioned
  {
    FailOutcomeExact(s, taskId);
    TaskInStep(s.db, taskId);
    hide Inv, FailOutcome, Eligible, InStep;
  }

  method RecordFailure(s: State, taskId: nat, message: string) returns (t: State)
    requires Inv(s) && taskId in s.db.tasks
    ensures Inv(t) && Rely(s, t) && TaskFinished(t, taskId)
    ensures FailureRecorded(s, t, taskId, message)
  {
    hide Inv, Rely, AfterFail, TaskFinished, FailOutcome, Fails;
    UnfinishedTask(s, taskId);
    FailsUnlessFinished(s, taskId);
    StepRelies(s, Fail(taskId, message, ""));
    FailFinishes(s, taskId, message);
    OutboxIdsFresh(s);
    var session := new Session(s.db);
    var _ := MarkFailed(session, taskId, message, "");
    t := Step(s, Fail(taskId, message, ""));
    assert t.db == session.committed;
  }

  lemma OutboxIdsFresh(s: State)
    requires Inv(s)
    ensures forall id | id in s.db.outbox :: id < s.db.nextId
  {
  }

  lemma LoadAnswers(s: State, taskId: nat, unsealable: bool, dastEnabled: bool)
    requires Inv(s) && taskId in s.db.tasks && LoadError(s.db, taskId, unsealable, dastEnabled).None?
    ensures var loaded := LoadResult(s.db, taskId);
            && loaded.taskId == taskId
            && (loaded.terminal <==> TaskFinished(s, taskId))
            && (!loaded.terminal ==> loaded in Step(s, Load(taskId, unsealable, dastEnabled)).loaded)
  {
    TaskInStep(s.db, taskId);
    hide Inv;
  }

  /** The load transaction: an error, or what this attempt now holds in memory. */
  method LoadScan(s: State, taskId: nat, attempt: Attempt) returns (t: State, loaded: Result<Loaded, LifecycleError>)
    requires Inv(s) && taskId in s.db.tasks
    ensures Inv(t) && Rely(s, t)
    ensures loaded.Ok? ==> loaded.value.taskId == taskId
    ensures loaded.Ok? && loaded.value.terminal ==> TaskFinished(t, taskId)
    ensures loaded.Ok? && !loaded.value.terminal ==> loaded.value in t.loaded
    ensures loaded.Err? ==> loaded.error in {CredentialUnavailable, DastDisabled}
    ensures LoadAnswered(s.db, t.db, taskId, attempt.unsealable, attempt.dastEnabled, loaded) && t.history == s.history
  {
    hide Inv, Rely, LoadError, AfterLoad, TaskFinished, LoadResult, LoadAnswered;
    var load := Load(taskId, attempt.unsealable, attempt.dastEnabled);
    StepRelies(s, load);
    LoadErrorsKnown(s, taskId, attempt.unsealable, attempt.dastEnabled);
    if LoadError(s.db, taskId, attempt.unsealable, attempt.dastEnabled).None? {
      LoadAnswers(s, taskId, attempt.unsealable, attempt.dastEnabled);
      if TaskFinished(s, taskId) { FinishedStays(s, Step(s, load), taskId); }
    }
    var session := new Session(s.db);
    loaded := LoadAndStart(session, taskId, attempt.unsealable, attempt.dastEnabled);
    t := Step(s, load);
    assert t.db == session.committed;
  }

  lemma LoadErrorsKnown(s: State, taskId: nat, unsealable: bool, dastEnabled: bool)
    requires Inv(s) && taskId in s.db.tasks
    ensures LoadError(s.db, taskId, unsealable, dastEnabled) in {None, Some(DastDisabled), Some(CredentialUnavailable)}
  {
    hide LinkInv, WorkUnique, OutboxInv, HistoryInv, LoadedInv, FreshInv;
    TaskInStep(s.db, taskId);
    assert SubjectOk(s.db.repos, s.db.targets, s.db.runs[s.db.tasks[taskId].runId]);
  }

  lemma WriteBackFinishes(s: State, loaded: Loaded, headSha: Option<string>, batch: seq<Finding>)
    requires Inv(s) && loaded in s.loaded && (headSha.Some? <==> loaded.subject.Repository?)
    ensures DistinctFingerprints(batch) || TaskFinished(s, loaded.taskId)
            ==> TaskFinished(Step(s, Complete(loaded, headSha, batch, "")), loaded.taskId)
    ensures CompleteOutcome(s.db, loaded, headSha, batch).Raised?
       <==> !DistinctFingerprints(batch) && !TaskFinished(s, loaded.taskId)
    ensures CompleteOutcome(s.db, loaded, headSha, batch).Raised?
            ==> !TaskFinished(Step(s, Complete(loaded, headSha, batch, "")), loaded.taskId)
  {
    CompleteOutcomeExact(s, loaded, headSha, batch);
    AttemptInStep(s, loaded);
    NotPendingOnceLoaded(s, loaded);
    hide Inv, CompleteOutcome, Eligible, DistinctFingerprints, UpsertAll;
  }

  lemma NotPendingOnceLoaded(s: State, loaded: Loaded)
    requires Inv(s) && loaded in s.loaded
    ensures loaded.runId in s.db.runs && s.db.runs[loaded.runId].status != RunPending
  {
    AttemptInStep(s, loaded);
    assert LoadedOk(s.db.runs, s.db.tasks, loaded);
  }

  /**
    An unfinished scan completes now with this commit and exactly these findings, unless its
    batch repeats a fingerprint, which raises; otherwise nothing is written.
  */
  ghost predicate WrittenBack(s: State, t: State, loaded: Loaded, headSha: string, batch: seq<Finding>,
                              raised: Option<LifecycleError>) {
    if TaskFinished(s, loaded.taskId) then raised.None? && t.db == s.db && t.history == s.history
    else if !RepeatsNoFingerprint(batch) then raised.Some? && t.db == s.db && t.history == s.history
    else
      && raised.None?
      && Completes(s.db, t.db, loaded, if loaded.subject.Repository? then Some(headSha) else None, batch, "")
      && t.history == s.history + [Completed(Scan(loaded.subject, loaded.runId, batch))]
  }

  lemma LoadedTask(s: State, loaded: Loaded)
    requires Inv(s) && loaded in s.loaded
    ensures loaded.taskId in s.db.tasks && loaded.runId == s.db.tasks[loaded.taskId].runId
    ensures TaskFinished(s, loaded.taskId) <==> s.db.tasks[loaded.taskId].status != TaskRunning
  {
    assert LoadedOk(s.db.runs, s.db.tasks, loaded);
    UnfinishedTask(s, loaded.taskId);
  }

  lemma CompleteEnabled(s: State, loaded: Loaded, headSha: Option<string>, batch: seq<Finding>)
    requires loaded in s.loaded && (headSha.Some? <==> loaded.subject.Repository?)
    ensures Enabled(s, Complete(loaded, headSha, batch, ""))
  {
  }

  lemma CompleteStep(s: State, loaded: Loaded, headSha: Option<string>, batch: seq<Finding>)
    requires Enabled(s, Complete(loaded, headSha, batch, ""))
    ensures var t := Step(s, Complete(loaded, headSha, batch, ""));
            && t.db == AfterComplete(s.db, loaded, headSha, batch, "")
            && t.history == s.history + if CompleteOutcome(s.db, loaded, headSha, batch) == Transitioned
                                        then [Completed(Scan(loaded.subject, loaded.runId, batch))] else []
  {
    hide AfterComplete, CompleteOutcome;
  }

  lemma SameDistinct(batch: seq<Finding>)
    ensures RepeatsNoFingerprint(batch) <==> DistinctFingerprints(batch)
  {
  }

  /**
    The write-back transaction: it raises on a batch that repeats a fingerprint, and then the
    scan stays unfinished.
  */
  method WriteBackScan(s: State, loaded: Loaded, headSha: string, batch: seq<Finding>)
    returns (t: State, raised: Option<LifecycleError>)
    requires Inv(s) && loaded in s.loaded
    ensures Inv(t) && Rely(s, t)
    ensures raised.None? <==> TaskFinished(t, loaded.taskId)
    ensures raised.Some? <==> !DistinctFingerprints(batch) && !TaskFinished(s, loaded.taskId)
    ensures WrittenBack(s, t, loaded, headSha, batch, raised)
  {
    hide Inv, Rely, CompleteOutcome, AfterComplete, TaskFinished, DistinctFingerprints, RepeatsNoFingerprint, Completes,
         Step, Enabled;
    LoadedTask(s, loaded);
    var sha := if loaded.subject.Repository? then Some(headSha) else None;
    var e := Complete(loaded, sha, batch, "");
    CompleteEnabled(s, loaded, sha, batch);
    StepRelies(s, e);
    WriteBackFinishes(s, loaded, sha, batch);
    OutboxIdsFresh(s);
    CompleteStep(s, loaded, sha, batch);
    SameDistinct(batch);
    var session := new Session(s.db);
    var outcome;
    if loaded.subject.Repository? {
      outcome := CompleteScan(session, loaded, headSha, batch, "");
    } else {
      outcome := CompleteTargetScan(session, loaded, batch);
    }
    t := Step(s, e);
    assert t.db == session.committed;
    raised := if outcome.Raised? then Some(outcome.error) else None;
  }

  // ------------------------------------------------------------------ the whole message

  predicate AlwaysTransient(attempts: seq<Attempt>, n: nat)
    requires n <= |attempts|
  {
    forall i | 0 <= i < n :: attempts[i].execution.FailedTransiently?
  }

  /** What the first back-offs take together, given their draws. */
  function TotalBackoff(draws: seq<real>): real {
    if draws == [] then 0.0
    else TotalBackoff(draws[..|draws| - 1]) + BackoffSeconds(|draws| - 1, draws[|draws| - 1])
  }

  function Draws(attempts: seq<Attempt>, n: nat): seq<real>
    requires n <= |attempts|
  {
    seq(n, i requires 0 <= i < n => attempts[i].draw)
  }

  predicate AreDraws(draws: seq<real>) { forall i | 0 <= i < |draws| :: 0.0 <= draws[i] <= 1.0 }

  /** One second, two, four, ..., and up to one more of jitter each. */
  lemma {:induction false} BackoffTotals(draws: seq<real>)
    requires |draws| <= MAX_RETRIES && AreDraws(draws)
    ensures PublishRetry.Pow2(|draws|) - 1.0 <= TotalBackoff(draws)
    ensures TotalBackoff(draws) <= PublishRetry.Pow2(|draws|) - 1.0 + |draws| as real
    ensures TotalBackoff(draws) <= 36.0
  {
    if draws != [] {
      var n := |draws| - 1;
      BackoffTotals(draws[..n]);
      BackoffGrows(n, draws[n]);
      assert PublishRetry.Pow2(n + 1) == 2.0 * PublishRetry.Pow2(n);
    }
    PowersGrow(|draws|, MAX_RETRIES);
    assert PublishRetry.Pow2(5) == 32.0 by { assert PublishRetry.Pow2(3) == 8.0; }
  }

  lemma NoBackoffYet(attempts: seq<Attempt>)
    ensures TotalBackoff(Draws(attempts, 0)) == 0.0
  {
  }

  lemma OneMoreBackoff(attempts: seq<Attempt>, n: nat)
    requires n < |attempts|
    ensures TotalBackoff(Draws(attempts, n + 1))
         == TotalBackoff(Draws(attempts, n)) + BackoffSeconds(n, attempts[n].draw)
  {
    assert Draws(attempts, n + 1)[..n] == Draws(attempts, n);
  }

  /**
    One execution of the message: `met` and `held` are the states before and after its load, `found`
    and `left` those before and after what ended it. In between everybody else had a turn.
  */
  datatype Round = Round(met: State, loaded: Result<Loaded, LifecycleError>, held: State, found: State, left: State)

  predicate StopsAtLoad(round: Round) { round.loaded.Ok? && round.loaded.value.terminal }

  /** Only a transient failure of an attempt that could load is worth another execution, five times. */
  predicate IsRetried(round: Round, attempt: Attempt, retries: nat) {
    round.loaded.Ok? && !round.loaded.value.terminal && attempt.execution.FailedTransiently? && retries < 5
  }

  /** What one execution writes, and with which message or result. */
  ghost predicate Executed(round: Round, taskId: nat, attempt: Attempt, retries: nat, raised: Option<LifecycleError>) {
    && LoadAnswered(round.met.db, round.held.db, taskId, attempt.unsealable, attempt.dastEnabled, round.loaded)
    && round.held.history == round.met.history
    && if StopsAtLoad(round) then round.left == round.held && raised.None?
       else if round.loaded.Err? then
         FailureRecorded(round.found, round.left, taskId, attempt.loadMessage) && raised.None?
       else match attempt.execution
         case Scanned(headSha, batch) =>
           WrittenBack(round.found, round.left, round.loaded.value, headSha, batch, raised)
         case FailedDeterministically(message) =>
           FailureRecorded(round.found, round.left, taskId, message) && raised.None?
         case FailedTransiently(message) =>
           && raised.None?
           && if retries < 5 then round.left == round.found
              else FailureRecorded(round.found, round.left, taskId, message)
  }

  /** Everybody else acted before the load and, unless the load ends it, before what the execution writes. */
  ghost predicate Interleaved(before: State, round: Round, others: seq<State -> State>, k: nat)
    requires 2 * k + 1 < |others|
  {
    round.met == others[2 * k](before) && (!StopsAtLoad(round) ==> round.found == others[2 * k + 1](round.held))
  }

  ghost predicate Follows(start: State, rounds: seq<Round>, taskId: nat, attempts: seq<Attempt>,
                          others: seq<State -> State>, n: nat)
    requires |attempts| == 6 && |others| == 12 && n <= |rounds| <= 6
  {
    forall k | 0 <= k < n :: RetriedAt(start, rounds, taskId, attempts, others, k)
  }

  ghost predicate RetriedAt(start: State, rounds: seq<Round>, taskId: nat, attempts: seq<Attempt>,
                            others: seq<State -> State>, k: nat)
    requires |attempts| == 6 && |others| == 12 && k < |rounds| <= 6
  {
    && Interleaved(if k == 0 then start else rounds[k - 1].left, rounds[k], others, k)
    && Executed(rounds[k], taskId, attempts[k], k, None) && IsRetried(rounds[k], attempts[k], k)
  }

  /** All executions but the last are retried, and the last is not. */
  ghost predicate Processed(start: State, rounds: seq<Round>, taskId: nat, attempts: seq<Attempt>,
                            others: seq<State -> State>, raised: Option<LifecycleError>)
    requires |attempts| == 6 && |others| == 12
  {
    var n := |rounds| - 1;
    && 0 <= n < 6 && Follows(start, rounds, taskId, attempts, others, n)
    && Interleaved(if n == 0 then start else rounds[n - 1].left, rounds[n], others, n)
    && Executed(rounds[n], taskId, attempts[n], n, raised) && !IsRetried(rounds[n], attempts[n], n)
  }

  lemma NextRound(start: State, rounds: seq<Round>, round: Round, taskId: nat, attempts: seq<Attempt>,
                  others: seq<State -> State>)
    requires |attempts| == 6 && |others| == 12 && |rounds| < 6
    requires Follows(start, rounds, taskId, attempts, others, |rounds|)
    requires Interleaved(if rounds == [] then start else rounds[|rounds| - 1].left, round, others, |rounds|)
    requires Executed(round, taskId, attempts[|rounds|], |rounds|, None)
    requires IsRetried(round, attempts[|rounds|], |rounds|)
    ensures Follows(start, rounds + [round], taskId, attempts, others, |rounds| + 1)
  {
    hide Executed, Interleaved, IsRetried;
    var more := rounds + [round];
    forall k | 0 <= k < |more| ensures RetriedAt(start, more, taskId, attempts, others, k) {
      if k < |rounds| { assert RetriedAt(start, rounds, taskId, attempts, others, k); }
    }
  }

  lemma LastRound(start: State, rounds: seq<Round>, round: Round, taskId: nat, attempts: seq<Attempt>,
                  others: seq<State -> State>, raised: Option<LifecycleError>)
    requires |attempts| == 6 && |others| == 12 && |rounds| < 6
    requires Follows(start, rounds, taskId, attempts, others, |rounds|)
    requires Interleaved(if rounds == [] then start else rounds[|rounds| - 1].left, round, others, |rounds|)
    requires Executed(round, taskId, attempts[|rounds|], |rounds|, raised)
    requires !IsRetried(round, attempts[|rounds|], |rounds|)
    ensures Processed(start, rounds + [round], taskId, attempts, others, raised)
  {
    hide Executed, Interleaved, IsRetried;
    var more := rounds + [round];
    forall k | 0 <= k < |rounds| ensures RetriedAt(start, more, taskId, attempts, others, k) {
      assert RetriedAt(start, rounds, taskId, attempts, others, k);
    }
  }

  /**
    How a scan that nobody else finished ends with its message: completed with the commit and
    exactly the findings of a last execution that came to a result, failed with the message of
    the error that ended it, or unfinished for a batch that repeats a fingerprint.
  */
  lemma FinishedAsExecuted(start: State, rounds: seq<Round>, taskId: nat, attempts: seq<Attempt>,
                           others: seq<State -> State>, raised: Option<LifecycleError>)
    requires |attempts| == 6 && |others| == 12 && Processed(start, rounds, taskId, attempts, others, raised)
    requires var last := rounds[|rounds| - 1];
             && !StopsAtLoad(last) && !TaskFinished(last.found, taskId) && Inv(last.found)
             && (last.loaded.Ok? ==> last.loaded.value in last.found.loaded)
             && taskId in last.found.db.tasks
    ensures var last, attempt := rounds[|rounds| - 1], attempts[|rounds| - 1];
            var run, task := last.found.db.tasks[taskId].runId, last.left.db.tasks[taskId];
            var after := last.left.db.runs[run];
            if last.loaded.Ok? && attempt.execution.Scanned? then
              var batch := attempt.execution.batch;
              && (raised.None? <==> after.status == RunCompleted) && (raised.None? <==> RepeatsNoFingerprint(batch))
              && (raised.None? ==>
                    && (after.subject.Repository? ==> after.commitSha == Some(attempt.execution.headSha))
                    && last.left.history == last.found.history + [Completed(Scan(after.subject, run, batch))])
              && (raised.Some? ==> last.left.db == last.found.db)
            else
              && after.status == RunFailed && last.left.history == last.found.history
              && task.errorMessage == Some(if last.loaded.Err? then attempt.loadMessage else attempt.execution.message)
              && (last.loaded.Ok? && attempt.execution.FailedTransiently? ==> |rounds| == 6)
  {
    hide Follows, Interleaved, WrittenBack, FailureRecorded, TaskFinished, LoadRefused, Started, Inv,
         RepeatsNoFingerprint;
    var last, attempt := rounds[|rounds| - 1], attempts[|rounds| - 1];
    TaskRunThere(last.found, taskId);
    if last.loaded.Err? {
      FailedColumns(last.found, last.left, taskId, attempt.loadMessage);
    } else if attempt.execution.Scanned? {
      var execution := attempt.execution;
      WrittenColumns(last.found, last.left, last.loaded.value, execution.headSha, execution.batch, raised);
    } else {
      FailedColumns(last.found, last.left, taskId, attempt.execution.message);
    }
  }

  lemma TaskRunThere(s: State, taskId: nat)
    requires Inv(s) && taskId in s.db.tasks
    ensures s.db.tasks[taskId].runId in s.db.runs
  {
  }

  lemma FailedColumns(s: State, t: State, taskId: nat, message: string)
    requires taskId in s.db.tasks && !TaskFinished(s, taskId) && FailureRecorded(s, t, taskId, message)
    ensures taskId in t.db.tasks && t.db.tasks[taskId].errorMessage == Some(message) && t.history == s.history
    ensures var run := s.db.tasks[taskId].runId; run in t.db.runs && t.db.runs[run].status == RunFailed
  {
    hide LeavesCheck;
  }

  lemma WrittenColumns(s: State, t: State, loaded: Loaded, headSha: string, batch: seq<Finding>,
                       raised: Option<LifecycleError>)
    requires Inv(s) && loaded in s.loaded && !TaskFinished(s, loaded.taskId)
    requires WrittenBack(s, t, loaded, headSha, batch, raised)
    ensures loaded.taskId in s.db.tasks && loaded.taskId in t.db.tasks && t.db.tasks[loaded.taskId].runId in t.db.runs
    ensures loaded.runId == s.db.tasks[loaded.taskId].runId == t.db.tasks[loaded.taskId].runId
    ensures var run := t.db.runs[loaded.runId];
            && (raised.None? <==> run.status == RunCompleted) && (raised.None? <==> RepeatsNoFingerprint(batch))
            && (raised.None? ==>
                  && (run.subject.Repository? ==> run.commitSha == Some(headSha))
                  && t.history == s.history + [Completed(Scan(run.subject, loaded.runId, batch))])
            && (raised.Some? ==> t.db == s.db)
  {
    hide LeavesCheck, UpsertAll, RepeatsNoFingerprint;
    LoadedTask(s, loaded);
    TaskInStep(s.db, loaded.taskId);
    assert LoadedOk(s.db.runs, s.db.tasks, loaded);
    hide Inv;
  }

  /**
    A message executes at most six times and backs off at most 36 seconds in all, retrying only
    after transient failures. Whatever everybody else did in between, the scan is finished when
    the message is if and only if no write-back raised, and only a repeated fingerprint raises.
  */
  method ProcessScanMessage(start: State, taskId: nat, attempts: seq<Attempt>, others: seq<State -> State>)
    returns (end: State, executions: nat, waited: real, raised: Option<LifecycleError>, ghost rounds: seq<Round>)
    requires Inv(start) && taskId in start.db.tasks
    requires |attempts| == MAX_RETRIES + 1 && |others| == 2 * |attempts|
    requires forall i | 0 <= i < |attempts| :: 0.0 <= attempts[i].draw <= 1.0
    requires forall i | 0 <= i < |others| :: Tolerable(others[i])
    ensures Inv(end) && Rely(start, end)
    ensures 1 <= executions <= 6 && waited == TotalBackoff(Draws(attempts, executions - 1)) <= 36.0
    ensures AlwaysTransient(attempts, executions - 1)
    ensures raised.None? <==> TaskFinished(end, taskId)
    ensures raised.Some? ==> attempts[executions - 1].execution.Scanned?
                             && !DistinctFingerprints(attempts[executions - 1].execution.batch)
    ensures |rounds| == executions && Processed(start, rounds, taskId, attempts, others, raised)
    ensures var last := rounds[executions - 1];
            && end == last.left && Inv(last.found) && taskId in last.found.db.tasks
            && (last.loaded.Ok? && !last.loaded.value.terminal ==> last.loaded.value in last.found.loaded)
  {
    hide Inv, Rely, Tolerable, DistinctFingerprints, BackoffSeconds, TotalBackoff, TaskFinished, PublishRetry.Pow2,
         LoadAnswered, FailureRecorded, WrittenBack, Follows, Processed;
    end := start;
    executions, waited, raised, rounds := 0, 0.0, None, [];
    RelyReflexive(start);
    NoBackoffYet(attempts);
    NoRoundYet(start, taskId, attempts, others);
    while true
      invariant Inv(end) && Rely(start, end)
      invariant executions <= MAX_RETRIES && AlwaysTransient(attempts, executions)
      invariant waited == TotalBackoff(Draws(attempts, executions))
      invariant raised.None?
      invariant |rounds| == executions && Follows(start, rounds, taskId, attempts, others, executions)
      invariant end == if rounds == [] then start else rounds[executions - 1].left
      decreases MAX_RETRIES - executions
    {
      var retries := executions;
      var attempt := attempts[retries];
      executions := executions + 1;
      end := Interfered(start, end, others[2 * retries]);
      TaskKept(start, end, taskId);
      ghost var met := end;
      var loaded;
      end, loaded := LoadScan(end, taskId, attempt);
      RelyTransitive(start, met, end);
      TaskKept(start, end, taskId);
      BackoffTotals(Draws(attempts, retries));
      ghost var held := end;
      ghost var round := Round(met, loaded, held, held, held);
      if loaded.Ok? && loaded.value.terminal {
        LastRound(start, rounds, round, taskId, attempts, others, raised);
        rounds := rounds + [round];
        return;
      }
      end := Interfered(start, end, others[2 * retries + 1]);
      if loaded.Ok? { LoadedKept(held, end, loaded.value); }
      TaskKept(start, end, taskId);
      ghost var found := end;
      if loaded.Ok? && attempt.execution.FailedTransiently? && retries < MAX_RETRIES {
        round := Round(met, loaded, held, found, found);
        NextRound(start, rounds, round, taskId, attempts, others);
        rounds := rounds + [round];
        OneMoreBackoff(attempts, retries);
        waited := waited + BackoffSeconds(retries, attempt.draw);
      } else {
        if loaded.Err? {
          end := RecordFailure(end, taskId, attempt.loadMessage);
        } else {
          match attempt.execution {
            case Scanned(headSha, batch) => end, raised := WriteBackScan(end, loaded.value, headSha, batch);
            case FailedDeterministically(message) => end := RecordFailure(end, taskId, message);
            case FailedTransiently(message) => end := RecordFailure(end, taskId, message);
          }
        }
        RelyTransitive(start, found, end);
        round := Round(met, loaded, held, found, end);
        LastRound(start, rounds, round, taskId, attempts, others, raised);
        rounds := rounds + [round];
        return;
      }
    }
  }

  lemma NoRoundYet(start: State, taskId: nat, attempts: seq<Attempt>, others: seq<State -> State>)
    requires |attempts| == 6 && |others| == 12
    ensures Follows(start, [], taskId, attempts, others, 0)
  {
  }

  lemma RelyReflexive(s: State)
    requires Inv(s)
    ensures Rely(s, s)
  {
  }

  lemma TaskKept(s: State, t: State, taskId: nat)
    requires Rely(s, t) && taskId in s.db.tasks
    ensures taskId in t.db.tasks
  {
  }

  lemma LoadedKept(s: State, t: State, loaded: Loaded)
    requires Rely(s, t) && loaded in s.loaded
    ensures loaded in t.loaded
  {
  }

  /** Everybody else's turn. */
  method Interfered(start: State, s: State, others: State -> State) returns (t: State)
    requires Inv(s) && Rely(start, s) && Tolerable(others)
    ensures t == others(s) && Inv(t) && Rely(s, t) && Rely(start, t)
  {
    hide Inv, Rely;
    t := others(s);
    RelyTransitive(start, s, t);
  }

  // ------------------------------------------------------------------ a scan that never finishes

  const EXAMPLE_FINDING: Finding := Finding("f", High, 1, "")
  const EXAMPLE_LOADED: Loaded := Loaded(1, 0, Repository(1), true, false)
  const EXAMPLE_ADD: Event := AddRepository(1, Repo(GitHub, "acme", "app", "main", true, false))
  const EXAMPLE_TRIGGER: Event := Trigger(TriggerRequest(Some(1), None, None, Secrets, "manual"))

  /** A repository is registered and a scan of it triggered. */
  lemma ExampleTriggered() returns (s0: State, s1: State, s2: State)
    ensures Initial(s0) && Enabled(s0, EXAMPLE_ADD) && s1 == Step(s0, EXAMPLE_ADD)
    ensures Enabled(s1, EXAMPLE_TRIGGER) && s2 == Step(s1, EXAMPLE_TRIGGER)
    ensures s2.db.tasks == map[1 := NewTask(0, Secrets)] && s2.loaded == {}
    ensures s2.db.runs == map[0 := NewRun(Work(Repository(1), Some("main"), Secrets), "manual", 0.0)]
    ensures s2.db.repos == map[1 := EXAMPLE_ADD.repo] && s2.db.outbox == map[]
  {
    s0 := State(Db(map[], map[], map[], map[], map[], map[], 0, 0.0), {}, []);
    s1 := Step(s0, EXAMPLE_ADD);
    assert ActiveTasks(s1.db.runs, s1.db.tasks, Work(Repository(1), Some("main"), Secrets)) == {};
    s2 := Step(s1, EXAMPLE_TRIGGER);
  }

  /** A worker loads it. */
  lemma ExampleLoaded() returns (states: seq<State>, events: seq<Event>)
    ensures IsTrace(states, events) && EXAMPLE_LOADED in states[|events|].loaded
    ensures var db := states[|events|].db;
            && 0 in db.runs && db.runs[0].status == RunRunning
            && 1 in db.tasks && db.tasks[1].status == TaskRunning && db.tasks[1].runId == 0
  {
    var s0, s1, s2 := ExampleTriggered();
    var load := Load(1, true, true);
    states, events := [s0, s1, s2, Step(s2, load)], [EXAMPLE_ADD, EXAMPLE_TRIGGER, load];
    assert LoadResult(s2.db, 1) == EXAMPLE_LOADED;
    hide Initial, AfterTrigger;
  }

  /**
    A reachable scan whose scanner reports one fingerprint twice: the write-back raises, nothing
    is stored, and the scan is still running.
  */
  lemma RepeatedFingerprintLeavesScanRunning() returns (states: seq<State>, events: seq<Event>, batch: seq<Finding>)
    ensures IsTrace(states, events) && EXAMPLE_LOADED in states[|events|].loaded
    ensures var s := states[|events|];
            && CompleteOutcome(s.db, EXAMPLE_LOADED, Some("c0ffee"), batch) == Raised(DuplicateFingerprints)
            && Step(s, Complete(EXAMPLE_LOADED, Some("c0ffee"), batch, "")) == s
            && !TaskFinished(s, EXAMPLE_LOADED.taskId)
  {
    states, events := ExampleLoaded();
    hide IsTrace;
    batch := [EXAMPLE_FINDING, EXAMPLE_FINDING];
    assert batch[0].fingerprint == batch[1].fingerprint;
  }
}
