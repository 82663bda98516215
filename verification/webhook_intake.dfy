/**
  GitHub webhook intake over the lifecycle tables and its append-only audit ledger. Requests
  interleave with everything else the lifecycle does; GitHub may deliver any of them again.
*/
module WebhookIntake {
  import opened Wrappers
  import opened ScanTables
  import opened ScanSession
  import ScanLifecycle

  datatype Outcome =
    | Accepted | Duplicate | RejectedSignature | IgnoredEvent | InvalidPayload
    | IgnoredUnknownRepo | IgnoredInactiveRepo | IgnoredNonDefaultBranch

  const PUSH_EVENT: string := "push"
  const WEBHOOK_TRIGGER: string := "webhook"

  /** The parsed body; `None` below stands for a body that does not validate. */
  datatype Push = Push(owner: string, name: string, ref: string, after: Option<string>, headCommit: Option<string>)

  datatype Request = Request(signatureValid: bool, eventType: Option<string>, deliveryId: Option<string>,
                             body: Option<Push>)

  datatype Delivery = Delivery(deliveryId: Option<string>, outcome: Outcome, signatureValid: bool,
                               commitSha: Option<string>)

  type Ledger = seq<Delivery>

  /** The pushed commit: `after` when present and non-empty, else the head commit. */
  function CommitOf(push: Push): Option<string> {
    if push.after.Some? && push.after.value != "" then push.after else push.headCommit
  }

  predicate Exists(ledger: Ledger, deliveryId: string) {
    exists i :: 0 <= i < |ledger| && ledger[i].deliveryId == Some(deliveryId)
  }

  predicate IsIdentity(repo: Repo, owner: string, name: string) {
    repo.provider == GitHub && repo.owner == owner && repo.name == name
  }

  function Identified(repos: map<nat, Repo>, push: Push): set<nat> {
    set id | id in repos && IsIdentity(repos[id], push.owner, push.name)
  }

  /** Two repositories never share an identity, so a lookup finds at most one. */
  predicate IdentitiesUnique(repos: map<nat, Repo>) {
    forall a, b | a in repos && b in repos && a != b :: !ScanLifecycle.SameIdentity(repos[a], repos[b])
  }

  function TheIdentified(repos: map<nat, Repo>, push: Push): (id: nat)
    requires IdentitiesUnique(repos) && Identified(repos, push) != {}
    ensures Identified(repos, push) == {id}
  {
    var id :| id in Identified(repos, push);
    assert forall other | other in Identified(repos, push) :: other == id;
    id
  }

  // ------------------------------------------------------------------ the specification

  function OutcomeFor(db: Db, ledger: Ledger, request: Request): Outcome
    requires IdentitiesUnique(db.repos)
  {
    if !request.signatureValid then RejectedSignature
    else if request.eventType != Some(PUSH_EVENT) then IgnoredEvent
    else if request.deliveryId.Some? && Exists(ledger, request.deliveryId.value) then Duplicate
    else if request.body.None? then InvalidPayload
    else if Identified(db.repos, request.body.value) == {} then IgnoredUnknownRepo
    else
      var repo := db.repos[TheIdentified(db.repos, request.body.value)];
      if !repo.isActive then IgnoredInactiveRepo
      else if request.body.value.ref != "refs/heads/" + repo.defaultBranch then IgnoredNonDefaultBranch
      else Accepted
  }

  /** Before the duplicate check no identifier is recorded; after it, the request's own. */
  function Recorded(request: Request, outcome: Outcome): Delivery {
    Delivery(
      if outcome.RejectedSignature? || outcome.IgnoredEvent? then None else request.deliveryId,
      outcome, request.signatureValid,
      if outcome.RejectedSignature? || outcome.IgnoredEvent? || outcome.InvalidPayload? || request.body.None? then None
      else CommitOf(request.body.value))
  }

  function AfterLedger(db: Db, ledger: Ledger, request: Request): Ledger
    requires IdentitiesUnique(db.repos)
  {
    var outcome := OutcomeFor(db, ledger, request);
    if outcome.Duplicate? then ledger else ledger + [Recorded(request, outcome)]
  }

  function WebhookTrigger(repositoryId: nat, push: Push): TriggerRequest {
    TriggerRequest(Some(repositoryId), None, CommitOf(push), Secrets, WEBHOOK_TRIGGER)
  }

  function AfterIngest(db: Db, ledger: Ledger, request: Request): Db
    requires IdentitiesUnique(db.repos)
  {
    if !OutcomeFor(db, ledger, request).Accepted? then db
    else AfterTrigger(db, WebhookTrigger(TheIdentified(db.repos, request.body.value), request.body.value))
  }

  // ------------------------------------------------------------------ what the outcomes mean

  /** A signed push whose identifier, if it has one, no row of the ledger carries. */
  ghost predicate FreshPush(ledger: Ledger, request: Request) {
    && request.signatureValid && request.eventType == Some("push")
    && (request.deliveryId.Some? ==> forall i | 0 <= i < |ledger| :: ledger[i].deliveryId != request.deliveryId)
  }

  /** The GitHub repository of the pushed owner and name. */
  predicate Names(repos: map<nat, Repo>, push: Push, id: nat) {
    id in repos && repos[id].provider == GitHub && repos[id].owner == push.owner && repos[id].name == push.name
  }

  /** Each outcome, and the one condition under which it is answered. */
  ghost predicate Decides(repos: map<nat, Repo>, ledger: Ledger, request: Request, outcome: Outcome) {
    && (outcome.RejectedSignature? <==> !request.signatureValid)
    && (outcome.IgnoredEvent? <==> request.signatureValid && request.eventType != Some("push"))
    && (outcome.Duplicate?
        <==> && request.signatureValid && request.eventType == Some("push") && request.deliveryId.Some?
             && exists i :: 0 <= i < |ledger| && ledger[i].deliveryId == request.deliveryId)
    && (outcome.InvalidPayload? <==> FreshPush(ledger, request) && request.body.None?)
    && (outcome.IgnoredUnknownRepo?
        <==> && FreshPush(ledger, request) && request.body.Some?
             && forall id: nat :: !Names(repos, request.body.value, id))
    && (outcome.IgnoredInactiveRepo?
        <==> && FreshPush(ledger, request) && request.body.Some?
             && exists id: nat :: Names(repos, request.body.value, id) && !repos[id].isActive)
    && (outcome.IgnoredNonDefaultBranch?
        <==> && FreshPush(ledger, request) && request.body.Some?
             && exists id: nat :: Names(repos, request.body.value, id) && repos[id].isActive
                                  && request.body.value.ref != "refs/heads/" + repos[id].defaultBranch)
    && (outcome.Accepted?
        <==> && FreshPush(ledger, request) && request.body.Some?
             && exists id: nat :: Names(repos, request.body.value, id) && repos[id].isActive
                                  && request.body.value.ref == "refs/heads/" + repos[id].defaultBranch)
  }

  lemma OutcomeDecided(db: Db, ledger: Ledger, request: Request)
    requires IdentitiesUnique(db.repos)
    ensures Decides(db.repos, ledger, request, OutcomeFor(db, ledger, request))
  {
    if request.body.Some? {
      var push := request.body.value;
      forall id: nat ensures Names(db.repos, push, id) <==> id in Identified(db.repos, push) { }
      if Identified(db.repos, push) != {} {
        var id := TheIdentified(db.repos, push);
        assert Names(db.repos, push, id) && forall other: nat :: Names(db.repos, push, other) ==> other == id;
      }
    }
  }

  predicate SignedPush(request: Request) { request.signatureValid && request.eventType == Some("push") }

  /** The audit row: an identifier only of a signed push, and its commit once its body was read. */
  predicate RowTells(request: Request, row: Delivery) {
    && row.signatureValid == request.signatureValid
    && row.deliveryId == (if SignedPush(request) then request.deliveryId else None)
    && row.commitSha == if SignedPush(request) && request.body.Some? then PushedCommit(request.body.value) else None
  }

  /** The commit after the push unless it is missing or empty; then the head commit, if there is one. */
  function PushedCommit(push: Push): Option<string> {
    match push.after
    case Some("") => push.headCommit
    case None => push.headCommit
    case Some(sha) => Some(sha)
  }

  /** A duplicate leaves the ledger alone; anything else appends one row that tells the outcome. */
  ghost predicate Audited(before: Ledger, after: Ledger, request: Request, outcome: Outcome) {
    if outcome.Duplicate? then after == before
    else
      && |after| == |before| + 1 && after[..|before|] == before
      && after[|before|].outcome == outcome && RowTells(request, after[|before|])
  }

  lemma LedgerAudited(db: Db, ledger: Ledger, request: Request)
    requires IdentitiesUnique(db.repos)
    ensures Audited(ledger, AfterLedger(db, ledger, request), request, OutcomeFor(db, ledger, request))
  {
  }

  // ------------------------------------------------------------------ the use case

  class DeliveryTable {
    var rows: Ledger

    constructor ()
      ensures rows == []
    {
      rows := [];
    }

    method ExistsId(deliveryId: string) returns (found: bool)
      ensures found <==> Exists(rows, deliveryId)
    {
      found := false;
      for i := 0 to |rows|
        invariant found <==> Exists(rows[..i], deliveryId)
      {
        if rows[i].deliveryId == Some(deliveryId) { found := true; }
        ExistsInLonger(rows[..i], rows[i], deliveryId);
        assert rows[..i + 1] == rows[..i] + [rows[i]];
      }
      assert rows[..|rows|] == rows;
    }

    method Record(delivery: Delivery)
      modifies this
      ensures rows == old(rows) + [delivery]
    {
      rows := rows + [delivery];
    }
  }

  lemma ExistsInLonger(ledger: Ledger, delivery: Delivery, deliveryId: string)
    ensures Exists(ledger + [delivery], deliveryId)
       <==> Exists(ledger, deliveryId) || delivery.deliveryId == Some(deliveryId)
  {
    var longer := ledger + [delivery];
    if Exists(ledger, deliveryId) {
      var i :| 0 <= i < |ledger| && ledger[i].deliveryId == Some(deliveryId);
      assert longer[i].deliveryId == Some(deliveryId);
    }
    if delivery.deliveryId == Some(deliveryId) { assert longer[|ledger|].deliveryId == Some(deliveryId); }
  }

  /** `taskId` is set only when this request created a task, which the caller then enqueues. */
  method IngestWebhook(session: Session, deliveries: DeliveryTable, request: Request)
    returns (outcome: Outcome, taskId: Option<nat>)
    requires IdentitiesUnique(session.db.repos)
    requires forall id | id in session.db.tasks ::
               id < session.db.nextId && session.db.tasks[id].runId < session.db.nextId
    modifies session`db, deliveries
    ensures Decides(old(session.db).repos, old(deliveries.rows), request, outcome)
    ensures Audited(old(deliveries.rows), deliveries.rows, request, outcome)
    ensures !outcome.Accepted? ==> session.db == old(session.db)
    ensures outcome == OutcomeFor(old(session.db), old(deliveries.rows), request)
    ensures session.db == AfterIngest(old(session.db), old(deliveries.rows), request)
    ensures deliveries.rows == AfterLedger(old(session.db), old(deliveries.rows), request)
    ensures taskId.Some? <==> session.db.tasks != old(session.db).tasks
    ensures taskId.Some? ==> taskId.value !in old(session.db).tasks && taskId.value in session.db.tasks
  {
    hide Decides, Audited;
    OutcomeDecided(session.db, deliveries.rows, request);
    LedgerAudited(session.db, deliveries.rows, request);
    if !request.signatureValid {
      deliveries.Record(Delivery(None, RejectedSignature, request.signatureValid, None));
      return RejectedSignature, None;
    }
    if request.eventType != Some(PUSH_EVENT) {
      deliveries.Record(Delivery(None, IgnoredEvent, request.signatureValid, None));
      return IgnoredEvent, None;
    }
    if request.deliveryId.Some? {
      var found := deliveries.ExistsId(request.deliveryId.value);
      if found { return Duplicate, None; }
    }
    if request.body.None? {
      deliveries.Record(Delivery(request.deliveryId, InvalidPayload, request.signatureValid, None));
      return InvalidPayload, None;
    }
    var push := request.body.value;
    if Identified(session.db.repos, push) == {} {
      deliveries.Record(Delivery(request.deliveryId, IgnoredUnknownRepo, request.signatureValid, CommitOf(push)));
      return IgnoredUnknownRepo, None;
    }
    var repositoryId := TheIdentified(session.db.repos, push);
    var repo := session.db.repos[repositoryId];
    if !repo.isActive {
      deliveries.Record(Delivery(request.deliveryId, IgnoredInactiveRepo, request.signatureValid, CommitOf(push)));
      return IgnoredInactiveRepo, None;
    }
    if push.ref != "refs/heads/" + repo.defaultBranch {
      deliveries.Record(Delivery(request.deliveryId, IgnoredNonDefaultBranch, request.signatureValid, CommitOf(push)));
      return IgnoredNonDefaultBranch, None;
    }
    ghost var before := session.db;
    var triggered := TriggerScan(session, TriggerRequest(Some(repositoryId), None, CommitOf(push), Secrets,
                                                         WEBHOOK_TRIGGER));
    taskId := None;
    if triggered.Ok? && triggered.value.1 {
      var runId := triggered.value.0;
      assert session.db.tasks[before.nextId + 1].runId == runId;
      var id :| id in session.db.tasks && session.db.tasks[id].runId == runId;
      taskId := Some(id);
    }
    deliveries.Record(Delivery(request.deliveryId, Accepted, request.signatureValid, CommitOf(push)));
    return Accepted, taskId;
  }
}
