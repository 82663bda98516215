/** What the audit ledger says after any interleaving of webhook requests and lifecycle steps. */
module WebhookLedger {
  import opened Wrappers
  import opened ScanTables
  import opened WebhookIntake
  import FindingIndex
  import ScanLifecycle

  datatype State = State(life: ScanLifecycle.State, ledger: Ledger)

  /** A user's triggers are manual; only the intake uses the webhook trigger. */
  datatype Event = Ingest(request: Request) | Other(event: ScanLifecycle.Event)

  predicate Enabled(s: State, e: Event) {
    match e
    case Ingest(_) => IdentitiesUnique(s.life.db.repos)
    case Other(event) =>
      ScanLifecycle.Enabled(s.life, event) && (event.Trigger? ==> event.request.trigger != WEBHOOK_TRIGGER)
  }

  function OutcomeAt(s: State, request: Request): Outcome
    requires IdentitiesUnique(s.life.db.repos)
  {
    OutcomeFor(s.life.db, s.ledger, request)
  }

  function AcceptedTrigger(s: State, request: Request): ScanLifecycle.Event
    requires IdentitiesUnique(s.life.db.repos) && OutcomeAt(s, request).Accepted?
  {
    ScanLifecycle.Trigger(WebhookTrigger(TheIdentified(s.life.db.repos, request.body.value), request.body.value))
  }

  function Step(s: State, e: Event): State
    requires Enabled(s, e)
  {
    match e
    case Ingest(request) =>
      State(if OutcomeAt(s, request).Accepted? then ScanLifecycle.Step(s.life, AcceptedTrigger(s, request)) else s.life,
            AfterLedger(s.life.db, s.ledger, request))
    case Other(event) => State(ScanLifecycle.Step(s.life, event), s.ledger)
  }

  predicate Initial(s: State) { ScanLifecycle.Initial(s.life) && s.ledger == [] }

  predicate IsTrace(states: seq<State>, events: seq<Event>) {
    && |states| == |events| + 1
    && Initial(states[0])
    && forall i | 0 <= i < |events| :: Enabled(states[i], events[i]) && states[i + 1] == Step(states[i], events[i])
  }

  // ------------------------------------------------------------------ the intake is a lifecycle step

  /** The use case commits exactly this step. */
  lemma IngestMeetsUseCase(s: State, request: Request)
    requires IdentitiesUnique(s.life.db.repos)
    ensures Step(s, Ingest(request)).life.db == AfterIngest(s.life.db, s.ledger, request)
  {
  }

  lemma StepKeepsIdentities(s: ScanLifecycle.State, e: ScanLifecycle.Event)
    requires IdentitiesUnique(s.db.repos) && ScanLifecycle.Enabled(s, e)
    ensures IdentitiesUnique(ScanLifecycle.Step(s, e).db.repos)
  {
    var after := ScanLifecycle.Step(s, e).db.repos;
    hide CompleteOutcome, FailOutcome, LoadError, Triggers;
    if e.AddRepository? {
      assert after == s.db.repos[e.id := e.repo];
    } else if e.EditRepository? {
      assert ScanLifecycle.SameIdentity(after[e.id], s.db.repos[e.id]);
    } else {
      assert after == s.db.repos;
    }
  }

  /** Requests never take the lifecycle outside its own reachable behaviour. */
  lemma {:induction false} TraceKeepsInv(states: seq<State>, events: seq<Event>, n: nat)
    requires IsTrace(states, events) && n < |states|
    ensures ScanLifecycle.Inv(states[n].life) && IdentitiesUnique(states[n].life.db.repos)
  {
    if n == 0 {
      InitialInv(states[0]);
    } else {
      TraceKeepsInv(states, events, n - 1);
      StepKeepsInv(states[n - 1], events[n - 1]);
    }
  }

  lemma InitialInv(s: State)
    requires Initial(s)
    ensures ScanLifecycle.Inv(s.life)
  {
    ScanLifecycle.TraceKeepsInv([s.life], [], 0);
  }

  lemma StepKeepsInv(s: State, e: Event)
    requires ScanLifecycle.Inv(s.life) && IdentitiesUnique(s.life.db.repos) && Enabled(s, e)
    ensures ScanLifecycle.Inv(Step(s, e).life) && IdentitiesUnique(Step(s, e).life.db.repos)
  {
    hide ScanLifecycle.Inv, ScanLifecycle.Step, IdentitiesUnique;
    if e.Other? {
      ScanLifecycle.StepKeepsInv(s.life, e.event);
      StepKeepsIdentities(s.life, e.event);
    } else if OutcomeAt(s, e.request).Accepted? {
      ScanLifecycle.StepKeepsInv(s.life, AcceptedTrigger(s, e.request));
      StepKeepsIdentities(s.life, AcceptedTrigger(s, e.request));
    }
  }

  // ------------------------------------------------------------------ what an accepted push achieves

  /**
    What every request does, whatever ran before it: its outcome follows from the repositories
    and the ledger it meets, it is audited unless it is a duplicate, and only an accepted push
    touches the lifecycle.
  */
  lemma RequestsDecided(states: seq<State>, events: seq<Event>, k: nat, request: Request)
    requires IsTrace(states, events) && k < |events| && events[k] == Ingest(request)
    ensures exists outcome ::
              && Decides(states[k].life.db.repos, states[k].ledger, request, outcome)
              && Audited(states[k].ledger, states[k + 1].ledger, request, outcome)
              && (!outcome.Accepted? ==> states[k + 1].life == states[k].life)
  {
    hide Decides, Audited, ScanLifecycle.Step, ScanLifecycle.Enabled;
    assert Enabled(states[k], events[k]) && states[k + 1] == Step(states[k], events[k]);
    OutcomeDecided(states[k].life.db, states[k].ledger, request);
    LedgerAudited(states[k].life.db, states[k].ledger, request);
  }

  /** A request whose signature is not valid changes no table, and its row carries no identifier. */
  lemma ForgedRequestsChangeNothing(states: seq<State>, events: seq<Event>, k: nat, request: Request)
    requires IsTrace(states, events) && k < |events| && events[k] == Ingest(request) && !request.signatureValid
    ensures states[k + 1].life == states[k].life
    ensures states[k + 1].ledger == states[k].ledger + [Delivery(None, RejectedSignature, false, None)]
  {
    hide ScanLifecycle.Step, ScanLifecycle.Enabled;
    RequestsDecided(states, events, k, request);
    var after := states[k + 1].ledger;
    assert after == after[..|states[k].ledger|] + [after[|states[k].ledger|]];
  }

  /** The pushed commit on the named repository; a push that names no commit means the default branch. */
  function PushedWork(db: Db, push: Push): Work
    requires IdentitiesUnique(db.repos) && Identified(db.repos, push) != {}
  {
    var id := TheIdentified(db.repos, push);
    var commit := PushedCommit(push);
    var pushed := if commit.Some? && commit.value != "" then commit.value else db.repos[id].defaultBranch;
    Work(FindingIndex.Repository(id), Some(pushed), Secrets)
  }

  /**
    After an accepted push exactly one task in flight does the pushed work, whether it is new or
    was there before; any other request leaves every table of the lifecycle alone.
  */
  lemma AcceptedWorkInFlight(states: seq<State>, events: seq<Event>, k: nat, request: Request)
    requires IsTrace(states, events) && k < |events| && events[k] == Ingest(request)
    ensures IdentitiesUnique(states[k].life.db.repos)
    ensures if OutcomeAt(states[k], request).Accepted? then
              var db := states[k + 1].life.db;
              && request.body.Some? && Identified(states[k].life.db.repos, request.body.value) != {}
              && exists id :: ActiveTasks(db.runs, db.tasks, PushedWork(states[k].life.db, request.body.value)) == {id}
            else states[k + 1].life == states[k].life
  {
    TraceKeepsInv(states, events, k);
    TraceKeepsInv(states, events, k + 1);
    var s := states[k];
    if OutcomeAt(s, request).Accepted? {
      AcceptedDoesWork(s, request);
      AtMostOneActive(states[k + 1].life, PushedWork(s.life.db, request.body.value));
    }
  }

  lemma AcceptedDoesWork(s: State, request: Request)
    requires ScanLifecycle.Inv(s.life) && IdentitiesUnique(s.life.db.repos) && OutcomeAt(s, request).Accepted?
    ensures request.body.Some? && Identified(s.life.db.repos, request.body.value) != {}
    ensures var db := Step(s, Ingest(request)).life.db;
            ActiveTasks(db.runs, db.tasks, PushedWork(s.life.db, request.body.value)) != {}
  {
    hide ActiveTasks, ScanLifecycle.LinkInv, ScanLifecycle.OutboxInv, ScanLifecycle.HistoryInv,
         ScanLifecycle.WorkUnique, ScanLifecycle.FreshInv;
    TriggerPutsWorkInFlight(s.life.db, AcceptedTrigger(s, request).request);
    hide AfterTrigger, Triggers;
  }

  lemma TriggerPutsWorkInFlight(db: Db, request: TriggerRequest)
    requires ScanLifecycle.FreshInv(db) && TriggerError(db, request).None?
    ensures var after := AfterTrigger(db, request);
            ActiveTasks(after.runs, after.tasks, RequestedWork(db, request)) != {}
  {
    if Triggers(db, request) {
      var after := AfterTrigger(db, request);
      assert db.nextId + 1 in ActiveTasks(after.runs, after.tasks, RequestedWork(db, request));
    }
  }

  lemma AtMostOneActive(s: ScanLifecycle.State, work: Work)
    requires ScanLifecycle.Inv(s) && work.subject.Repository? && ActiveTasks(s.db.runs, s.db.tasks, work) != {}
    ensures exists id :: ActiveTasks(s.db.runs, s.db.tasks, work) == {id}
  {
    hide ScanLifecycle.LinkInv, ScanLifecycle.OutboxInv, ScanLifecycle.HistoryInv, ScanLifecycle.FreshInv,
         ScanLifecycle.LoadedInv, ScanLifecycle.SubjectsOk;
    var tasks := ActiveTasks(s.db.runs, s.db.tasks, work);
    var id :| id in tasks;
    forall other | other in tasks ensures other == id {
      assert ScanLifecycle.InFlight(s.db.runs, s.db.tasks, id) && ScanLifecycle.InFlight(s.db.runs, s.db.tasks, other);
    }
    assert tasks == {id};
  }

  // ------------------------------------------------------------------ one row per delivery

  predicate IdsDistinct(ledger: Ledger) {
    forall i, j | 0 <= i < j < |ledger| && ledger[i].deliveryId.Some? :: ledger[i].deliveryId != ledger[j].deliveryId
  }

  lemma LedgerStep(s: State, e: Event)
    requires Enabled(s, e)
    ensures e.Other? ==> Step(s, e).ledger == s.ledger
    ensures e.Ingest? ==>
              Step(s, e).ledger
              == s.ledger + if OutcomeAt(s, e.request).Duplicate? then []
                            else [Recorded(e.request, OutcomeAt(s, e.request))]
    ensures e.Ingest? && !OutcomeAt(s, e.request).Duplicate?
            && Recorded(e.request, OutcomeAt(s, e.request)).deliveryId.Some?
            ==> e.request.deliveryId.Some? && !Exists(s.ledger, e.request.deliveryId.value)
  {
    hide ScanLifecycle.Step;
  }

  /** No delivery identifier is ever recorded twice. */
  lemma {:induction false} DeliveryIdsDistinct(states: seq<State>, events: seq<Event>, n: nat)
    requires IsTrace(states, events) && n < |states|
    ensures IdsDistinct(states[n].ledger)
  {
    if n > 0 {
      DeliveryIdsDistinct(states, events, n - 1);
      hide Step, Enabled, OutcomeAt;
      LedgerStep(states[n - 1], events[n - 1]);
    }
  }

  predicate Repeats(s: State, e: Event)
    requires Enabled(s, e)
  {
    e.Ingest? && OutcomeAt(s, e.request).Duplicate?
  }

  function NonDuplicates(states: seq<State>, events: seq<Event>, n: nat): nat
    requires IsTrace(states, events) && n < |states|
  {
    if n == 0 then 0
    else NonDuplicates(states, events, n - 1)
         + if events[n - 1].Ingest? && !Repeats(states[n - 1], events[n - 1]) then 1 else 0
  }

  /** Exactly one audit row for every request that is not a duplicate. */
  lemma {:induction false} OneRowPerRequest(states: seq<State>, events: seq<Event>, n: nat)
    requires IsTrace(states, events) && n < |states|
    ensures |states[n].ledger| == NonDuplicates(states, events, n)
  {
    if n > 0 {
      OneRowPerRequest(states, events, n - 1);
      LedgerStep(states[n - 1], events[n - 1]);
    }
  }

  // ------------------------------------------------------------------ redelivery

  predicate PassesGate(request: Request, deliveryId: string) {
    request.signatureValid && request.eventType == Some(PUSH_EVENT) && request.deliveryId == Some(deliveryId)
  }

  /** Once recorded, an identifier stays in the ledger. */
  lemma {:induction false} RecordedForever(states: seq<State>, events: seq<Event>, m: nat, n: nat, deliveryId: string)
    requires IsTrace(states, events) && m <= n < |states| && Exists(states[m].ledger, deliveryId)
    ensures Exists(states[n].ledger, deliveryId)
    decreases n
  {
    if m < n {
      RecordedForever(states, events, m, n - 1, deliveryId);
      hide Step, Enabled, OutcomeAt, Exists;
      LedgerStep(states[n - 1], events[n - 1]);
      var s, e := states[n - 1], events[n - 1];
      if e.Ingest? && !OutcomeAt(s, e.request).Duplicate? {
        ExistsInLonger(s.ledger, Recorded(e.request, OutcomeAt(s, e.request)), deliveryId);
      }
    }
  }

  lemma GateRecords(s: State, request: Request, deliveryId: string)
    requires IdentitiesUnique(s.life.db.repos) && PassesGate(request, deliveryId)
    ensures Exists(Step(s, Ingest(request)).ledger, deliveryId)
    ensures Exists(s.ledger, deliveryId) <==> OutcomeAt(s, request).Duplicate?
    ensures Exists(s.ledger, deliveryId) ==> Step(s, Ingest(request)) == s
  {
    hide ScanLifecycle.Step, Exists;
    LedgerStep(s, Ingest(request));
    if !OutcomeAt(s, request).Duplicate? {
      ExistsInLonger(s.ledger, Recorded(request, OutcomeAt(s, request)), deliveryId);
    }
  }

  /** A second push with an identifier already handled changes nothing, whatever its body says now. */
  lemma RedeliveryChangesNothing(states: seq<State>, events: seq<Event>, j: nat, k: nat, deliveryId: string)
    requires IsTrace(states, events) && j < k < |events|
    requires events[j].Ingest? && PassesGate(events[j].request, deliveryId)
    requires events[k].Ingest? && PassesGate(events[k].request, deliveryId)
    ensures IdentitiesUnique(states[k].life.db.repos) && OutcomeAt(states[k], events[k].request).Duplicate?
    ensures states[k + 1] == states[k]
  {
    hide Exists, OutcomeAt, Step;
    GateRecords(states[j], events[j].request, deliveryId);
    RecordedForever(states, events, j + 1, k, deliveryId);
    GateRecords(states[k], events[k].request, deliveryId);
  }

  /** Where the events lead from one state; an event that cannot happen there is skipped. */
  function Final(s: State, events: seq<Event>): State
    decreases |events|
  {
    if events == [] then s
    else if Enabled(s, events[0]) then Final(Step(s, events[0]), events[1..])
    else Final(s, events[1..])
  }

  function WithoutDuplicates(s: State, events: seq<Event>): seq<Event>
    decreases |events|
  {
    if events == [] then []
    else if !Enabled(s, events[0]) then WithoutDuplicates(s, events[1..])
    else if Repeats(s, events[0]) then WithoutDuplicates(s, events[1..])
    else [events[0]] + WithoutDuplicates(Step(s, events[0]), events[1..])
  }

  lemma RepeatChangesNothing(s: State, e: Event)
    requires Enabled(s, e) && Repeats(s, e)
    ensures Step(s, e) == s
  {
  }

  /** Dropping every duplicate request leads to the very same tables and ledger. */
  lemma {:induction false} DuplicatesRemovable(s: State, events: seq<Event>)
    ensures Final(s, WithoutDuplicates(s, events)) == Final(s, events)
    decreases |events|
  {
    hide Step, Enabled, Repeats;
    if events != [] {
      if !Enabled(s, events[0]) {
        DuplicatesRemovable(s, events[1..]);
      } else if Repeats(s, events[0]) {
        RepeatChangesNothing(s, events[0]);
        DuplicatesRemovable(s, events[1..]);
      } else {
        var rest := WithoutDuplicates(Step(s, events[0]), events[1..]);
        DuplicatesRemovable(Step(s, events[0]), events[1..]);
        assert ([events[0]] + rest)[1..] == rest;
      }
    }
  }

  // ------------------------------------------------------------------ accepted rows and webhook runs

  function AcceptedRows(ledger: Ledger): nat {
    if ledger == [] then 0
    else AcceptedRows(ledger[..|ledger| - 1]) + if ledger[|ledger| - 1].outcome.Accepted? then 1 else 0
  }

  function WebhookRuns(runs: map<nat, Run>): set<nat> {
    set runId | runId in runs && runs[runId].trigger == WEBHOOK_TRIGGER
  }

  /** An accepted push for work already in flight joins the existing run. */
  predicate Joins(s: State, e: Event)
    requires Enabled(s, e)
  {
    && e.Ingest? && OutcomeAt(s, e.request).Accepted?
    && !Triggers(s.life.db, AcceptedTrigger(s, e.request).request)
  }

  function Joined(states: seq<State>, events: seq<Event>, n: nat): nat
    requires IsTrace(states, events) && n < |states|
  {
    if n == 0 then 0
    else Joined(states, events, n - 1) + if Joins(states[n - 1], events[n - 1]) then 1 else 0
  }

  predicate KeepsTriggers(before: map<nat, Run>, after: map<nat, Run>) {
    && (forall runId | runId in before :: runId in after && after[runId].trigger == before[runId].trigger)
    && (forall runId | runId in after && runId !in before :: after[runId].trigger != WEBHOOK_TRIGGER)
  }

  lemma KeptTriggersKeepRuns(before: map<nat, Run>, after: map<nat, Run>)
    requires KeepsTriggers(before, after)
    ensures WebhookRuns(after) == WebhookRuns(before)
  {
  }

  lemma ManualKeepsTriggers(db: Db, request: TriggerRequest)
    requires ScanLifecycle.FreshInv(db) && request.trigger != WEBHOOK_TRIGGER
    ensures KeepsTriggers(db.runs, AfterTrigger(db, request).runs)
  {
    if Triggers(db, request) { ScanLifecycle.TriggeredRun(db, request); }
  }

  lemma LoadKeepsTriggers(db: Db, e: ScanLifecycle.Event)
    requires ScanLifecycle.LinkInv(db.runs, db.tasks) && e.Load?
    ensures KeepsTriggers(db.runs, AfterLoad(db, e.taskId, e.unsealable, e.dastEnabled).runs)
  {
    ScanLifecycle.LoadedRun(db, e.taskId, e.unsealable, e.dastEnabled);
    hide ScanLifecycle.LinkInv, AfterLoad, ScanLifecycle.InStep;
  }

  lemma FinishKeepsTriggers(db: Db, attempt: Loaded, headSha: Option<string>, batch: seq<FindingIndex.Finding>,
                            taskId: nat, message: string, summary: string)
    ensures KeepsTriggers(db.runs, AfterComplete(db, attempt, headSha, batch, summary).runs)
    ensures KeepsTriggers(db.runs, AfterFail(db, taskId, message, summary).runs)
  {
    hide Eligible, FindingIndex.UpsertAll, FindingIndex.DistinctFingerprints, PublicationExists, IntentFor;
  }

  lemma OtherKeepsTriggers(s: ScanLifecycle.State, e: ScanLifecycle.Event)
    requires ScanLifecycle.Inv(s) && ScanLifecycle.Enabled(s, e)
    requires (e.Trigger? ==> e.request.trigger != WEBHOOK_TRIGGER)
    ensures KeepsTriggers(s.db.runs, ScanLifecycle.Step(s, e).db.runs)
  {
    hide AfterTrigger, AfterLoad, AfterComplete, AfterFail, ScanLifecycle.LinkInv, ScanLifecycle.FreshInv,
         ScanLifecycle.OutboxInv, ScanLifecycle.HistoryInv, ScanLifecycle.WorkUnique;
    match e {
      case Trigger(request) => ManualKeepsTriggers(s.db, request);
      case Load(_, _, _) => LoadKeepsTriggers(s.db, e);
      case Complete(attempt, headSha, batch, summary) => FinishKeepsTriggers(s.db, attempt, headSha, batch, 0, "",
                                                                             summary);
      case Fail(taskId, message, summary) =>
        FinishKeepsTriggers(s.db, Loaded(0, 0, FindingIndex.Repository(0), false, false), None, [], taskId, message,
                            summary);
      case _ =>
    }
  }

  lemma TriggerAddsRun(db: Db, request: TriggerRequest)
    requires ScanLifecycle.FreshInv(db) && request.trigger == WEBHOOK_TRIGGER
    ensures |WebhookRuns(AfterTrigger(db, request).runs)|
         == |WebhookRuns(db.runs)| + if Triggers(db, request) then 1 else 0
  {
    if Triggers(db, request) {
      ScanLifecycle.TriggeredRun(db, request);
      hide Triggers, AfterTrigger, RequestedWork, ScanLifecycle.InStep, ScanLifecycle.SubjectOk, ActiveTasks,
           ScanLifecycle.FreshInv;
      assert WebhookRuns(AfterTrigger(db, request).runs) == WebhookRuns(db.runs) + {db.nextId};
    }
  }

  lemma AcceptedAddsRun(s: State, request: Request)
    requires ScanLifecycle.Inv(s.life) && IdentitiesUnique(s.life.db.repos) && OutcomeAt(s, request).Accepted?
    ensures var after := Step(s, Ingest(request)).life.db.runs;
            |WebhookRuns(after)| == |WebhookRuns(s.life.db.runs)| + if Joins(s, Ingest(request)) then 0 else 1
  {
    TriggerAddsRun(s.life.db, AcceptedTrigger(s, request).request);
    hide ScanLifecycle.Inv, Triggers, AfterTrigger, WebhookRuns;
  }

  lemma StepCountsRuns(s: State, e: Event)
    requires ScanLifecycle.Inv(s.life) && IdentitiesUnique(s.life.db.repos) && Enabled(s, e)
    ensures |WebhookRuns(Step(s, e).life.db.runs)| + (if Joins(s, e) then 1 else 0) + AcceptedRows(s.ledger)
         == |WebhookRuns(s.life.db.runs)| + AcceptedRows(Step(s, e).ledger)
  {
    LedgerStep(s, e);
    if e.Other? {
      OtherKeepsTriggers(s.life, e.event);
      hide ScanLifecycle.Inv, ScanLifecycle.Step, KeepsTriggers;
      KeptTriggersKeepRuns(s.life.db.runs, Step(s, e).life.db.runs);
    } else {
      var outcome := OutcomeAt(s, e.request);
      if outcome.Accepted? { AcceptedAddsRun(s, e.request); }
      hide ScanLifecycle.Inv, ScanLifecycle.Step, Joins, OutcomeAt;
      if !outcome.Duplicate? {
        var longer := s.ledger + [Recorded(e.request, outcome)];
        assert longer[..|longer| - 1] == s.ledger;
      }
    }
  }

  /** Every accepted row stands for one webhook run or one request that joined a run in flight. */
  lemma {:induction false} AcceptedRowsAccountForRuns(states: seq<State>, events: seq<Event>, n: nat)
    requires IsTrace(states, events) && n < |states|
    ensures |WebhookRuns(states[n].life.db.runs)| + Joined(states, events, n) == AcceptedRows(states[n].ledger)
    ensures |WebhookRuns(states[n].life.db.runs)| <= AcceptedRows(states[n].ledger)
  {
    if n > 0 {
      hide ScanLifecycle.Inv, Step, Joins, Enabled, WebhookRuns, AcceptedRows, IdentitiesUnique;
      AcceptedRowsAccountForRuns(states, events, n - 1);
      TraceKeepsInv(states, events, n - 1);
      StepCountsRuns(states[n - 1], events[n - 1]);
    }
  }
}
