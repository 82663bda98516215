/**
  Any number of sweeps delivering outbox rows to the Check Run server at once. A sweep claims
  rows, and for each row looks the run up, sends, and records the result; it may crash between
  any two of these, and a sweep that is over leaves in the same way. Its name may then be used
  again, as when the queue delivers its message once more. Each event below is one database
  transaction or one exchange with the server. `replays`, `completed` and `owners` are history:
  how often a row was replayed, how many deliveries of it were recorded by a sweep that still
  held it, and the names used so far.
*/
module SweepProtocol {
  import opened Wrappers
  import opened PublishRetry
  import opened ChecksClient
  import opened Outbox
  import opened CheckIdentity

  const SWEEP_BATCH_SIZE: nat := 25
  const LEASE_DURATION: real := 300.0

  /** The scan run and its repository as the delivery step loads them. */
  datatype ScanRecord = ScanRecord(repo: Option<string>, commitSha: Option<string>)

  /** A claimed row as the claim returned it. */
  datatype Item = Item(id: nat, row: Row)

  datatype Phase =
    | Waiting
    | Resolving
    | Attempting(tries: nat)
    | LookedUp(tries: nat, resolved: Option<nat>, lookedAt: nat)
    | Published(checkRunId: nat, lookedAt: nat)
    | PublishFailed(error: PublishError)

  /** One sweep invocation: the head of `hand` is the row being delivered. */
  datatype Sweep = Sweep(leaseUntil: real, hand: seq<Item>, phase: Phase)

  datatype State = State(
    table: Table, scans: map<nat, ScanRecord>, server: Server, now: real,
    sweeps: map<string, Sweep>, owners: set<string>, steps: nat,
    replays: map<nat, nat>, completed: map<nat, nat>)

  datatype Event =
    | Create(id: nat, row: Row)
    | UpdateScans(scans: map<nat, ScanRecord>)
    | Tick(elapsed: real)
    | ForeignRun(run: CheckRun)
    | ReplayRow(id: nat)
    | Claim(owner: string, startedAt: real, locked: set<nat>, ids: seq<nat>)
    | Begin(owner: string)
    | Resolve(owner: string, failure: Option<PublishError>)
    | AttemptFails(owner: string, error: PublishError)
    | LookUp(owner: string, resolved: Option<nat>)
    | Send(owner: string, reply: Reply)
    | Finish(owner: string, draw: real)
    | Crash(owner: string)

  predicate Deliverable(scans: map<nat, ScanRecord>, row: Row) {
    row.scanRunId in scans && scans[row.scanRunId].commitSha.Some? && scans[row.scanRunId].repo.Some?
  }

  function KeyOf(scans: map<nat, ScanRecord>, row: Row): CheckKey
    requires Deliverable(scans, row)
  {
    var scan := scans[row.scanRunId];
    CheckKey(scan.repo.value, scan.commitSha.value, row.checkName, ExternalId(row.scanRunId))
  }

  function ReportOf(row: Row): Report { Report(row.outcome, row.summary) }

  predicate InPhase(s: State, owner: string) {
    owner in s.sweeps && s.sweeps[owner].hand != []
  }

  function Head(s: State, owner: string): Item
    requires InPhase(s, owner)
  {
    s.sweeps[owner].hand[0]
  }

  predicate HeadDeliverable(s: State, owner: string) {
    InPhase(s, owner) && Deliverable(s.scans, Head(s, owner).row)
  }

  function HeadKey(s: State, owner: string): CheckKey
    requires HeadDeliverable(s, owner)
  {
    KeyOf(s.scans, Head(s, owner).row)
  }

  /** A failed attempt is repeated once after a 401, 403 or 404, otherwise the publish fails. */
  function AfterError(tries: nat, error: PublishError): Phase {
    if tries == 1 && error.HttpStatus? && error.code in {401, 403, 404}
    then Attempting(2) else PublishFailed(error)
  }

  /** A run of some other application: it carries none of this system's external ids. */
  ghost predicate IsForeign(run: CheckRun) {
    forall scanRunId: nat :: run.externalId != Some(ExternalId(scanRunId))
  }

  // ------------------------------------------------------------------ when an event can happen

  /** A lookup answers with the canonical run, or with none when nothing matches. */
  ghost predicate LookupAnswer(server: Server, key: CheckKey, resolved: Option<nat>) {
    match resolved
    case Some(id) => IsCanonical(server, key, id)
    case None => Matches(server, key) == {}
  }

  predicate ReplyPossible(server: Server, resolved: Option<nat>, reply: Reply) {
    match reply
    case Acknowledged(id) => id == if resolved.Some? then resolved.value else server.nextId
    case AppliedUnacknowledged(error) => MayFollowApplication(error)
    case Refused(error) => true
  }

  ghost predicate Enabled(s: State, e: Event) {
    match e
    case Create(id, row) =>
      && id !in s.table && Deliverable(s.scans, row)
      && row == NewRow(row.scanRunId, GITHUB_CHECK_NAME, row.outcome, row.summary, row.createdAt)
      && (forall other | other in s.table :: s.table[other].scanRunId != row.scanRunId)
    case UpdateScans(scans) =>
      forall id | id in s.table :: var run := s.table[id].scanRunId;
        run in s.scans ==> run in scans && scans[run] == s.scans[run]
    case Tick(elapsed) => elapsed >= 0.0
    case ForeignRun(run) => IsForeign(run)
    case ReplayRow(id) => true
    case Claim(owner, startedAt, locked, ids) =>
      owner !in s.sweeps && startedAt <= s.now
      && IsClaimSelection(s.table, s.now, locked, SWEEP_BATCH_SIZE, ids)
    case Begin(owner) => InPhase(s, owner) && s.sweeps[owner].phase.Waiting?
    case Resolve(owner, _) => HeadDeliverable(s, owner) && s.sweeps[owner].phase.Resolving?
    case AttemptFails(owner, _) => HeadDeliverable(s, owner) && s.sweeps[owner].phase.Attempting?
    case LookUp(owner, resolved) =>
      HeadDeliverable(s, owner) && s.sweeps[owner].phase.Attempting?
      && if Head(s, owner).row.checkRunId.Some? then resolved == Head(s, owner).row.checkRunId
         else LookupAnswer(s.server, HeadKey(s, owner), resolved)
    case Send(owner, reply) =>
      HeadDeliverable(s, owner) && s.sweeps[owner].phase.LookedUp?
      && var resolved := s.sweeps[owner].phase.resolved;
         ReplyPossible(s.server, resolved, reply)
         && (resolved.Some? && !reply.Refused? ==> resolved.value in s.server.runs)
    case Finish(owner, draw) =>
      InPhase(s, owner) && (s.sweeps[owner].phase.Published? || s.sweeps[owner].phase.PublishFailed?)
      && 0.0 <= draw <= 1.0
    case Crash(owner) => owner in s.sweeps
  }

  // ------------------------------------------------------------------ what an event does

  function SetPhase(s: State, owner: string, phase: Phase): State
    requires owner in s.sweeps
  {
    s.(sweeps := s.sweeps[owner := s.sweeps[owner].(phase := phase)])
  }

  /** Record a finished delivery and move to the next row. */
  function Recorded(s: State, owner: string, table: Table): State
    requires InPhase(s, owner)
  {
    var id := Head(s, owner).id;
    var sweep := s.sweeps[owner];
    s.(table := table,
       completed := if Holds(s.table, id, owner) && id in s.completed
                    then s.completed[id := s.completed[id] + 1] else s.completed,
       sweeps := s.sweeps[owner := sweep.(hand := sweep.hand[1..], phase := Waiting)])
  }

  /** The one finishing write a delivery makes, decided by how its publish ended. */
  function FinishedTable(s: State, owner: string, draw: real): Table
    requires InPhase(s, owner)
  {
    var item := Head(s, owner);
    var attemptCount := item.row.attemptCount + 1;
    match s.sweeps[owner].phase
    case Published(checkRunId, _) =>
      AfterDelivered(s.table, item.id, owner, ExternalId(item.row.scanRunId), checkRunId, attemptCount)
    case PublishFailed(error) =>
      (match ClassifyPublishFailure(error, attemptCount, draw)
       case Retry(delay) => AfterReschedule(s.table, item.id, owner, s.now + delay, attemptCount)
       case DeadLetter(reason) => AfterDead(s.table, item.id, owner, attemptCount, reason))
    case _ => s.table
  }

  function Sent(s: State, owner: string, reply: Reply): State
    requires HeadDeliverable(s, owner) && s.sweeps[owner].phase.LookedUp?
    requires s.sweeps[owner].phase.resolved.Some? && !reply.Refused? ==>
               s.sweeps[owner].phase.resolved.value in s.server.runs
  {
    var phase := s.sweeps[owner].phase;
    var report := ReportOf(Head(s, owner).row);
    var server :=
      if reply.Refused? then s.server
      else if phase.resolved.Some? then Patched(s.server, phase.resolved.value, HeadKey(s, owner), report)
      else ChecksClient.Posted(s.server, HeadKey(s, owner), report);
    var next :=
      match reply
      case Acknowledged(id) => Published(id, phase.lookedAt)
      case AppliedUnacknowledged(error) => AfterError(phase.tries, error)
      case Refused(error) => AfterError(phase.tries, error);
    SetPhase(s.(server := server), owner, next)
  }

  ghost function Effect(s: State, e: Event): State
    requires Enabled(s, e)
  {
    match e
    case Create(id, row) =>
      s.(table := s.table[id := row], replays := s.replays[id := 0], completed := s.completed[id := 0])
    case UpdateScans(scans) => s.(scans := scans)
    case Tick(elapsed) => s.(now := s.now + elapsed)
    case ForeignRun(run) => s.(server := Server(s.server.runs[s.server.nextId := run], s.server.nextId + 1))
    case ReplayRow(id) =>
      s.(table := AfterReplay(s.table, id),
         replays := if AfterReplay(s.table, id) != s.table && id in s.replays
                    then s.replays[id := s.replays[id] + 1] else s.replays)
    case Claim(owner, startedAt, locked, ids) =>
      var leaseUntil := startedAt + LEASE_DURATION;
      var table := ClaimRows(s.table, ids, owner, leaseUntil);
      s.(table := table, owners := s.owners + {owner},
         sweeps := s.sweeps[owner := Sweep(leaseUntil,
                     seq(|ids|, i requires 0 <= i < |ids| => Item(ids[i], table[ids[i]])), Waiting)])
    case Begin(owner) =>
      var item := Head(s, owner);
      if Deliverable(s.scans, item.row) then SetPhase(s, owner, Resolving)
      else Recorded(s, owner, AfterDead(s.table, item.id, owner, item.row.attemptCount + 1, MissingScanRunOrRepository))
    case Resolve(owner, failure) =>
      SetPhase(s, owner, if failure.Some? then PublishFailed(failure.value) else Attempting(1))
    case AttemptFails(owner, error) => SetPhase(s, owner, AfterError(s.sweeps[owner].phase.tries, error))
    case LookUp(owner, resolved) =>
      SetPhase(s, owner, LookedUp(s.sweeps[owner].phase.tries, resolved, s.steps))
    case Send(owner, reply) => Sent(s, owner, reply)
    case Finish(owner, draw) => Recorded(s, owner, FinishedTable(s, owner, draw))
    case Crash(owner) => s.(sweeps := s.sweeps - {owner})
  }

  ghost function Step(s: State, e: Event): State
    requires Enabled(s, e)
  {
    Effect(s, e).(steps := s.steps + 1)
  }

  // ------------------------------------------------------------------ runs

  ghost predicate Initial(s: State) {
    && s.table == map[] && s.sweeps == map[] && s.owners == {} && s.steps == 0
    && s.replays == map[] && s.completed == map[] && ValidServer(s.server)
    && forall id | id in s.server.runs :: IsForeign(s.server.runs[id])
  }

  ghost predicate IsTrace(states: seq<State>, events: seq<Event>) {
    && |states| == |events| + 1
    && Initial(states[0])
    && forall i | 0 <= i < |events| :: Enabled(states[i], events[i]) && states[i + 1] == Step(states[i], events[i])
  }

  // ------------------------------------------------------------------ the invariant

  /** One row: who may lease it, and how many attempts it can have used up. */
  predicate RowInv(row: Row, scans: map<nat, ScanRecord>, owners: set<string>, replays: nat, completed: nat) {
    && ValidRow(row) && row.status != Disabled
    && Deliverable(scans, row) && row.checkName == GITHUB_CHECK_NAME
    && (row.leasedBy.Some? ==> row.leasedBy.value in owners)
    && completed == row.attemptCount
    && row.attemptCount <= MAX_ATTEMPTS + replays
    && (row.status in {Pending, Claimed} ==> row.attemptCount < MAX_ATTEMPTS + replays)
  }

  predicate TableInv(table: Table, scans: map<nat, ScanRecord>, owners: set<string>, replays: map<nat, nat>,
                     completed: map<nat, nat>) {
    && ValidTable(table)
    && replays.Keys == table.Keys && completed.Keys == table.Keys
    && forall id | id in table :: RowInv(table[id], scans, owners, replays[id], completed[id])
  }

  predicate RowsInv(s: State) {
    TableInv(s.table, s.scans, s.owners, s.replays, s.completed)
  }

  /** Either nobody wrote the row since the claim, or the lease ran out and another took it. */
  predicate ItemInv(table: Table, now: real, owner: string, leaseUntil: real, item: Item) {
    && item.id in table && SameIntent(item.row, table[item.id])
    && item.row.status == Claimed && ValidRow(item.row)
    && if table[item.id].leasedBy == Some(owner)
       then table[item.id] == item.row && item.row.leaseUntil == Some(leaseUntil)
       else leaseUntil < now
  }

  predicate SweepInv(table: Table, now: real, owner: string, sweep: Sweep) {
    && (forall i, j | 0 <= i < j < |sweep.hand| :: sweep.hand[i].id != sweep.hand[j].id)
    && (forall i | 0 <= i < |sweep.hand| :: ItemInv(table, now, owner, sweep.leaseUntil, sweep.hand[i]))
    && (!sweep.phase.Waiting? ==> sweep.hand != [])
  }

  predicate SweepsInv(s: State) {
    forall owner | owner in s.sweeps :: owner in s.owners && SweepInv(s.table, s.now, owner, s.sweeps[owner])
  }

  lemma HeadItemInv(s: State, owner: string)
    requires SweepsInv(s) && InPhase(s, owner)
    ensures ItemInv(s.table, s.now, owner, s.sweeps[owner].leaseUntil, Head(s, owner))
  {
  }

  // ------------------------------------------------------------------ rows over one step

  lemma RowWriteKeepsTable(s: State, id: nat, row: Row)
    requires RowsInv(s) && id in s.table && s.table[id].status != Delivered
    requires SameIntent(s.table[id], row)
    requires RowInv(row, s.scans, s.owners, s.replays[id], s.completed[id] + 1)
    ensures TableInv(s.table[id := row], s.scans, s.owners, s.replays, s.completed[id := s.completed[id] + 1])
    ensures KeepsRows(s.table, s.table[id := row])
  {
    RowUpdateKeepsTable(s.table, id, row);
  }

  lemma ReplayedRowInv(row: Row, scans: map<nat, ScanRecord>, owners: set<string>, replays: nat, completed: nat)
    requires RowInv(row, scans, owners, replays, completed) && row.status in {Disabled, Dead}
    ensures row.status == Dead
    ensures RowInv(row.(status := Pending, deadLetterReason := None, leasedBy := None, leaseUntil := None),
                   scans, owners, replays + 1, completed)
  {
  }

  lemma ReplayKeepsRows(s: State, id: nat)
    requires RowsInv(s)
    ensures RowsInv(Step(s, ReplayRow(id))) && KeepsRows(s.table, Step(s, ReplayRow(id)).table)
  {
    hide RowInv, KeepsRows, ValidTable;
    ReplayKeepsTable(s.table, id);
    if id in s.table && s.table[id].status in {Disabled, Dead} {
      ReplayedRowInv(s.table[id], s.scans, s.owners, s.replays[id], s.completed[id]);
    }
  }

  lemma CreateStep(s: State, e: Event)
    requires Enabled(s, e) && e.Create?
    ensures var t := Step(s, e);
            && t.table == s.table[e.id := e.row] && t.replays == s.replays[e.id := 0]
            && t.completed == s.completed[e.id := 0] && t.scans == s.scans && t.owners == s.owners
    ensures e.id !in s.table && Deliverable(s.scans, e.row)
    ensures e.row == NewRow(e.row.scanRunId, GITHUB_CHECK_NAME, e.row.outcome, e.row.summary, e.row.createdAt)
    ensures forall other | other in s.table :: s.table[other].scanRunId != e.row.scanRunId
  {
  }

  lemma CreateKeepsRows(s: State, e: Event)
    requires RowsInv(s) && Enabled(s, e) && e.Create?
    ensures RowsInv(Step(s, e)) && KeepsRows(s.table, Step(s, e).table)
  {
    hide Enabled, Step, ValidTable, KeepsRows;
    CreateStep(s, e);
    assert RowInv(e.row, s.scans, s.owners, 0, 0);
    RowInsertKeepsTable(s.table, e.id, e.row);
  }

  lemma ClaimKeepsRows(s: State, owner: string, leaseUntil: real, locked: set<nat>, ids: seq<nat>)
    requires RowsInv(s) && IsClaimSelection(s.table, s.now, locked, SWEEP_BATCH_SIZE, ids)
    ensures TableInv(ClaimRows(s.table, ids, owner, leaseUntil), s.scans, s.owners + {owner}, s.replays, s.completed)
    ensures KeepsRows(s.table, ClaimRows(s.table, ids, owner, leaseUntil))
  {
    ClaimKeepsTable(s.table, s.now, locked, SWEEP_BATCH_SIZE, ids, owner, leaseUntil);
    forall id | id in s.table
      ensures RowInv(ClaimRows(s.table, ids, owner, leaseUntil)[id], s.scans, s.owners + {owner}, s.replays[id],
                     s.completed[id])
    {
      if id in ids { SelectedIsLive(s.table, s.now, locked, ids, id); }
      ClaimedRowInv(s.table[id], s.scans, s.owners, s.replays[id], s.completed[id], owner, leaseUntil);
    }
  }

  lemma SelectedIsLive(table: Table, now: real, locked: set<nat>, ids: seq<nat>, id: nat)
    requires IsClaimSelection(table, now, locked, SWEEP_BATCH_SIZE, ids) && id in ids
    ensures id in table && Due(table[id], now) && table[id].status in {Pending, Claimed}
  {
    var i :| 0 <= i < |ids| && ids[i] == id;
  }

  lemma ClaimedRowInv(row: Row, scans: map<nat, ScanRecord>, owners: set<string>, replays: nat, completed: nat,
                      owner: string, leaseUntil: real)
    requires RowInv(row, scans, owners, replays, completed)
    ensures RowInv(row, scans, owners + {owner}, replays, completed)
    ensures row.status in {Pending, Claimed} ==>
              RowInv(ClaimedRow(row, owner, leaseUntil), scans, owners + {owner}, replays, completed)
  {
  }

  /** What a finishing write leaves in a row that its sweep still holds. */
  lemma FinishedRow(s: State, owner: string, draw: real)
    requires RowsInv(s) && SweepsInv(s) && Enabled(s, Finish(owner, draw))
    requires Holds(s.table, Head(s, owner).id, owner)
    ensures var id := Head(s, owner).id;
            var table := FinishedTable(s, owner, draw);
            && id in table && table == s.table[id := table[id]]
            && SameIntent(s.table[id], table[id])
            && table[id].attemptCount == s.table[id].attemptCount + 1
            && RowInv(table[id], s.scans, s.owners, s.replays[id], s.completed[id] + 1)
  {
    var item := Head(s, owner);
    HeadItemInv(s, owner);
    assert RowInv(s.table[item.id], s.scans, s.owners, s.replays[item.id], s.completed[item.id]);
    if s.sweeps[owner].phase.PublishFailed? {
      RetriedIff(s.sweeps[owner].phase.error, item.row.attemptCount + 1, draw);
    }
  }

  lemma RecordedKeepsRows(s: State, owner: string, table: Table)
    requires RowsInv(s) && InPhase(s, owner)
    requires var id := Head(s, owner).id;
             if !Holds(s.table, id, owner) then table == s.table
             else && id in table && table == s.table[id := table[id]] && SameIntent(s.table[id], table[id])
                  && RowInv(table[id], s.scans, s.owners, s.replays[id], s.completed[id] + 1)
    ensures RowsInv(Recorded(s, owner, table))
    ensures KeepsRows(s.table, table)
  {
    hide ValidTable;
    var id := Head(s, owner).id;
    if Holds(s.table, id, owner) {
      assert RowInv(s.table[id], s.scans, s.owners, s.replays[id], s.completed[id]);
      RowWriteKeepsTable(s, id, table[id]);
    }
  }

  lemma LostWriteChangesNothing(s: State, owner: string, draw: real)
    requires InPhase(s, owner) && !Holds(s.table, Head(s, owner).id, owner)
    ensures FinishedTable(s, owner, draw) == s.table
  {
  }

  lemma FinishKeepsRows(s: State, owner: string, draw: real)
    requires RowsInv(s) && SweepsInv(s) && Enabled(s, Finish(owner, draw))
    ensures RowsInv(Recorded(s, owner, FinishedTable(s, owner, draw)))
    ensures KeepsRows(s.table, FinishedTable(s, owner, draw))
  {
    if Holds(s.table, Head(s, owner).id, owner) {
      FinishedRow(s, owner, draw);
    } else {
      LostWriteChangesNothing(s, owner, draw);
    }
    RecordedKeepsRows(s, owner, FinishedTable(s, owner, draw));
  }

  /** The dead-letter branch for a missing scan or repository is never taken. */
  lemma HeadAlwaysDeliverable(s: State, owner: string)
    requires RowsInv(s) && SweepsInv(s) && InPhase(s, owner)
    ensures HeadDeliverable(s, owner)
  {
    var item := Head(s, owner);
    HeadItemInv(s, owner);
    assert RowInv(s.table[item.id], s.scans, s.owners, s.replays[item.id], s.completed[item.id]);
  }

  /** Events that leave the rows, their counts and the scans as they are. */
  predicate LeavesRows(e: Event) {
    e.Tick? || e.ForeignRun? || e.Resolve? || e.AttemptFails? || e.LookUp? || e.Send? || e.Crash?
  }

  lemma QuietStep(s: State, e: Event)
    requires Enabled(s, e) && LeavesRows(e)
    ensures var t := Step(s, e);
            t.table == s.table && t.scans == s.scans && t.owners == s.owners
            && t.replays == s.replays && t.completed == s.completed
  {
  }

  lemma UpdateScansKeepsRows(s: State, e: Event)
    requires RowsInv(s) && Enabled(s, e) && e.UpdateScans?
    ensures RowsInv(Step(s, e)) && Step(s, e).table == s.table
  {
    forall id | id in s.table ensures RowInv(s.table[id], e.scans, s.owners, s.replays[id], s.completed[id]) {
      assert RowInv(s.table[id], s.scans, s.owners, s.replays[id], s.completed[id]);
    }
  }

  lemma ClaimStep(s: State, e: Event)
    requires Enabled(s, e) && e.Claim?
    ensures var t := Step(s, e);
            && IsClaimSelection(s.table, s.now, e.locked, SWEEP_BATCH_SIZE, e.ids) && e.owner !in s.sweeps
            && t.table == ClaimRows(s.table, e.ids, e.owner, e.startedAt + LEASE_DURATION)
            && t.owners == s.owners + {e.owner} && t.now == s.now && t.server == s.server
            && t.scans == s.scans && t.replays == s.replays && t.completed == s.completed
            && t.sweeps.Keys == s.sweeps.Keys + {e.owner}
            && (forall other | other in s.sweeps && other != e.owner :: t.sweeps[other] == s.sweeps[other])
            && t.sweeps[e.owner].phase == Waiting && t.sweeps[e.owner].leaseUntil == e.startedAt + LEASE_DURATION
            && |t.sweeps[e.owner].hand| == |e.ids|
            && forall i | 0 <= i < |e.ids| ::
                 e.ids[i] in t.table && t.sweeps[e.owner].hand[i] == Item(e.ids[i], t.table[e.ids[i]])
  {
  }

  lemma FinishStep(s: State, e: Event)
    requires Enabled(s, e) && e.Finish?
    ensures Step(s, e) == Recorded(s, e.owner, FinishedTable(s, e.owner, e.draw)).(steps := s.steps + 1)
  {
  }

  lemma BeginStep(s: State, e: Event)
    requires RowsInv(s) && SweepsInv(s) && Enabled(s, e) && e.Begin?
    ensures HeadDeliverable(s, e.owner)
    ensures Step(s, e) == SetPhase(s, e.owner, Resolving).(steps := s.steps + 1)
  {
    HeadAlwaysDeliverable(s, e.owner);
  }

  lemma StepKeepsRows(s: State, e: Event)
    requires RowsInv(s) && SweepsInv(s) && Enabled(s, e)
    ensures RowsInv(Step(s, e)) && KeepsRows(s.table, Step(s, e).table)
  {
    hide Enabled, Step, TableInv, SweepsInv, FinishedTable, IsClaimSelection, ClaimRows;
    if LeavesRows(e) {
      QuietStep(s, e);
    } else {
      match e {
        case Create(id, row) => CreateKeepsRows(s, e);
        case Claim(owner, startedAt, locked, ids) =>
          ClaimStep(s, e);
          ClaimKeepsRows(s, owner, startedAt + LEASE_DURATION, locked, ids);
        case ReplayRow(id) => ReplayKeepsRows(s, id);
        case Begin(owner) => BeginStep(s, e);
        case Finish(owner, draw) =>
          FinishStep(s, e);
          FinishKeepsRows(s, owner, draw);
        case UpdateScans(scans) => UpdateScansKeepsRows(s, e);
      }
    }
  }

  // ------------------------------------------------------------------ sweeps over one step

  /** A write by somebody else leaves what a sweep knows about its row true. */
  lemma ItemSurvivesForeignWrite(before: Table, after: Table, now: real, later: real, owner: string, leaseUntil: real,
                                 item: Item)
    requires ItemInv(before, now, owner, leaseUntil, item) && now <= later
    requires item.id in after && SameIntent(before[item.id], after[item.id])
    requires after[item.id] == before[item.id]
          || (before[item.id].leasedBy != Some(owner) && after[item.id].leasedBy != Some(owner))
    ensures ItemInv(after, later, owner, leaseUntil, item)
  {
  }

  /** Being claimed away means the lease had expired. */
  lemma ItemSurvivesClaim(before: Table, now: real, owner: string, leaseUntil: real, item: Item, claimant: string,
                          until: real)
    requires ItemInv(before, now, owner, leaseUntil, item) && Due(before[item.id], now) && claimant != owner
    ensures ItemInv(before[item.id := ClaimedRow(before[item.id], claimant, until)], now, owner, leaseUntil, item)
  {
  }

  lemma ClaimKeepsSweep(s: State, claimant: string, until: real, locked: set<nat>, ids: seq<nat>, owner: string)
    requires SweepsInv(s) && owner in s.sweeps && claimant !in s.sweeps
    requires IsClaimSelection(s.table, s.now, locked, SWEEP_BATCH_SIZE, ids)
    ensures SweepInv(ClaimRows(s.table, ids, claimant, until), s.now, owner, s.sweeps[owner])
  {
    var table := ClaimRows(s.table, ids, claimant, until);
    var sweep := s.sweeps[owner];
    forall i | 0 <= i < |sweep.hand| ensures ItemInv(table, s.now, owner, sweep.leaseUntil, sweep.hand[i]) {
      var item := sweep.hand[i];
      if item.id in ids {
        SelectedIsLive(s.table, s.now, locked, ids, item.id);
        ItemSurvivesClaim(s.table, s.now, owner, sweep.leaseUntil, item, claimant, until);
      } else {
        ItemSurvivesForeignWrite(s.table, table, s.now, s.now, owner, sweep.leaseUntil, item);
      }
    }
  }

  lemma ClaimStartsSweep(s: State, e: Event)
    requires RowsInv(s) && Enabled(s, e) && e.Claim?
    ensures var t := Step(s, e); SweepInv(t.table, t.now, e.owner, t.sweeps[e.owner])
  {
    hide Enabled, Step, ValidTable;
    ClaimStep(s, e);
    var t := Step(s, e);
    var sweep := t.sweeps[e.owner];
    forall i | 0 <= i < |sweep.hand| ensures ItemInv(t.table, t.now, e.owner, sweep.leaseUntil, sweep.hand[i]) {
      SelectedIsLive(s.table, s.now, e.locked, e.ids, e.ids[i]);
      assert RowInv(s.table[e.ids[i]], s.scans, s.owners, s.replays[e.ids[i]], s.completed[e.ids[i]]);
    }
  }

  /** A finishing write touches the head of its own hand and nothing another sweep still holds. */
  lemma RecordedKeepsSweep(s: State, owner: string, table: Table, other: string)
    requires SweepsInv(s) && InPhase(s, owner) && other in s.sweeps
    requires KeepsRows(s.table, table)
    requires var id := Head(s, owner).id;
             if !Holds(s.table, id, owner) then table == s.table
             else id in table && table == s.table[id := table[id]]
                  && (table[id].leasedBy.Some? ==> table[id].leasedBy.value == owner)
    ensures SweepInv(table, s.now, other, Recorded(s, owner, table).sweeps[other])
  {
    var sweep := s.sweeps[other];
    var id := Head(s, owner).id;
    var from := if other == owner then 1 else 0;
    forall i | from <= i < |sweep.hand| ensures ItemInv(table, s.now, other, sweep.leaseUntil, sweep.hand[i]) {
      var item := sweep.hand[i];
      assert ItemInv(s.table, s.now, other, sweep.leaseUntil, item);
      if other == owner { assert sweep.hand[0].id != item.id; }
      ItemSurvivesForeignWrite(s.table, table, s.now, s.now, other, sweep.leaseUntil, item);
    }
  }

  lemma FinishKeepsSweeps(s: State, owner: string, draw: real)
    requires RowsInv(s) && SweepsInv(s) && Enabled(s, Finish(owner, draw))
    ensures SweepsInv(Recorded(s, owner, FinishedTable(s, owner, draw)))
  {
    assert InPhase(s, owner);
    hide Enabled, FinishedTable, RowsInv, SweepInv, KeepsRows, Holds;
    FinishKeepsRows(s, owner, draw);
    FinishedTableShape(s, owner, draw);
    AllRecordedSweepsKept(s, owner, FinishedTable(s, owner, draw));
  }

  lemma AllRecordedSweepsKept(s: State, owner: string, table: Table)
    requires SweepsInv(s) && InPhase(s, owner) && KeepsRows(s.table, table)
    requires var id := Head(s, owner).id;
             && table.Keys == s.table.Keys
             && if !Holds(s.table, id, owner) then table == s.table
                else table == s.table[id := table[id]]
                     && (table[id].leasedBy.Some? ==> table[id].leasedBy.value == owner)
    ensures SweepsInv(Recorded(s, owner, table))
  {
    hide SweepInv, KeepsRows, Holds;
    forall other | other in s.sweeps
      ensures SweepInv(table, s.now, other, Recorded(s, owner, table).sweeps[other])
    {
      RecordedKeepsSweep(s, owner, table, other);
    }
  }

  lemma FinishedTableShape(s: State, owner: string, draw: real)
    requires RowsInv(s) && SweepsInv(s) && Enabled(s, Finish(owner, draw))
    ensures var id, table := Head(s, owner).id, FinishedTable(s, owner, draw);
            && table.Keys == s.table.Keys
            && if !Holds(s.table, id, owner) then table == s.table
               else table == s.table[id := table[id]]
                    && (table[id].leasedBy.Some? ==> table[id].leasedBy.value == owner)
  {
    if Holds(s.table, Head(s, owner).id, owner) {
      FinishedRow(s, owner, draw);
    } else {
      LostWriteChangesNothing(s, owner, draw);
    }
  }

  /** Rows change only where no sweep could still hold them. */
  lemma SweepsSurvive(s: State, table: Table, later: real, owners: set<string>)
    requires SweepsInv(s) && s.now <= later && s.owners <= owners
    requires forall id | id in s.table ::
               && id in table && SameIntent(s.table[id], table[id])
               && (table[id] == s.table[id] || (s.table[id].leasedBy.None? && table[id].leasedBy.None?))
    ensures forall owner | owner in s.sweeps :: owner in owners && SweepInv(table, later, owner, s.sweeps[owner])
  {
    forall owner | owner in s.sweeps ensures SweepInv(table, later, owner, s.sweeps[owner]) {
      var sweep := s.sweeps[owner];
      forall i | 0 <= i < |sweep.hand| ensures ItemInv(table, later, owner, sweep.leaseUntil, sweep.hand[i]) {
        ItemSurvivesForeignWrite(s.table, table, s.now, later, owner, sweep.leaseUntil, sweep.hand[i]);
      }
    }
  }

  predicate MovesPhase(e: Event) {
    e.Resolve? || e.AttemptFails? || e.LookUp? || e.Send?
  }

  lemma PhaseStepKeepsSweeps(s: State, e: Event)
    requires SweepsInv(s) && Enabled(s, e) && MovesPhase(e)
    ensures SweepsInv(Step(s, e))
  {
    var t := Step(s, e);
    QuietStep(s, e);
    assert t.now == s.now && t.sweeps.Keys == s.sweeps.Keys;
    forall owner | owner in t.sweeps ensures owner in t.owners && SweepInv(t.table, t.now, owner, t.sweeps[owner]) {
      assert SweepInv(s.table, s.now, owner, s.sweeps[owner]);
      assert t.sweeps[owner].hand == s.sweeps[owner].hand && t.sweeps[owner].leaseUntil == s.sweeps[owner].leaseUntil;
    }
  }

  predicate ChangesSurroundings(e: Event) {
    e.Create? || e.UpdateScans? || e.Tick? || e.ForeignRun? || e.ReplayRow?
  }

  /** Such a step changes a row only from unleased to unleased. */
  lemma SurroundingsStep(s: State, e: Event)
    requires RowsInv(s) && Enabled(s, e) && ChangesSurroundings(e)
    ensures var t := Step(s, e);
            && t.sweeps == s.sweeps && t.owners == s.owners && s.now <= t.now
            && forall id | id in s.table ::
                 && id in t.table
                 && (t.table[id] == s.table[id] || (s.table[id].leasedBy.None? && t.table[id].leasedBy.None?))
  {
    if e.ReplayRow? && e.id in s.table {
      assert RowInv(s.table[e.id], s.scans, s.owners, s.replays[e.id], s.completed[e.id]);
    }
  }

  lemma SurroundingsKeepSweeps(s: State, e: Event)
    requires RowsInv(s) && SweepsInv(s) && Enabled(s, e) && ChangesSurroundings(e)
    ensures SweepsInv(Step(s, e))
  {
    hide Enabled, Step, RowsInv, SweepInv;
    SurroundingsStep(s, e);
    StepKeepsRows(s, e);
    SweepsSurvive(s, Step(s, e).table, Step(s, e).now, Step(s, e).owners);
  }

  lemma ClaimKeepsSweeps(s: State, e: Event)
    requires RowsInv(s) && SweepsInv(s) && e.Claim? && Enabled(s, e)
    ensures SweepsInv(Step(s, e))
  {
    hide Enabled, Step, IsClaimSelection, SweepInv;
    ClaimStep(s, e);
    var t := Step(s, e);
    ClaimStartsSweep(s, e);
    forall other | other in t.sweeps
      ensures other in t.owners && SweepInv(t.table, t.now, other, t.sweeps[other])
    {
      if other != e.owner {
        ClaimKeepsSweep(s, e.owner, e.startedAt + LEASE_DURATION, e.locked, e.ids, other);
      }
    }
  }

  lemma BeginKeepsSweeps(s: State, e: Event)
    requires RowsInv(s) && SweepsInv(s) && e.Begin? && Enabled(s, e)
    ensures SweepsInv(Step(s, e))
  {
    hide Enabled, Step, RowsInv;
    BeginStep(s, e);
    var t := Step(s, e);
    forall owner | owner in t.sweeps ensures owner in t.owners && SweepInv(t.table, t.now, owner, t.sweeps[owner]) {
      assert SweepInv(s.table, s.now, owner, s.sweeps[owner]);
    }
  }

  lemma StepKeepsSweeps(s: State, e: Event)
    requires RowsInv(s) && SweepsInv(s) && Enabled(s, e)
    ensures SweepsInv(Step(s, e))
  {
    hide Enabled, RowsInv, SweepInv, Recorded, FinishedTable;
    if MovesPhase(e) {
      PhaseStepKeepsSweeps(s, e);
    } else if ChangesSurroundings(e) {
      SurroundingsKeepSweeps(s, e);
    } else if e.Claim? {
      ClaimKeepsSweeps(s, e);
    } else if e.Begin? {
      BeginKeepsSweeps(s, e);
    } else if e.Finish? {
      FinishKeepsSweeps(s, e.owner, e.draw);
    }
  }

  // ------------------------------------------------------------------ the server over one step

  /** Nothing that matched disappears, and canonical runs stay canonical. */
  ghost predicate ServerExtends(before: Server, after: Server) {
    && ValidServer(after)
    && forall key :: Matches(before, key) <= Matches(after, key)
         && forall id | IsCanonical(before, key, id) :: IsCanonical(after, key, id)
  }

  predicate PhaseInv(scans: map<nat, ScanRecord>, server: Server, steps: nat, sweep: Sweep) {
    && (sweep.phase.Attempting? ==> 1 <= sweep.phase.tries <= 2)
    && (sweep.phase.LookedUp? ==>
          && 1 <= sweep.phase.tries <= 2 && sweep.phase.lookedAt < steps
          && sweep.hand != [] && Deliverable(scans, sweep.hand[0].row)
          && (sweep.phase.resolved.Some? ==> IsCanonical(server, KeyOf(scans, sweep.hand[0].row),
                                                         sweep.phase.resolved.value)))
    && (sweep.phase.Published? ==>
          && sweep.phase.lookedAt < steps
          && sweep.hand != [] && Deliverable(scans, sweep.hand[0].row)
          && sweep.phase.checkRunId in Matches(server, KeyOf(scans, sweep.hand[0].row)))
  }

  /** A delivered row names a run that the server really has for it. */
  predicate DeliveryRecorded(scans: map<nat, ScanRecord>, server: Server, row: Row) {
    row.status == Delivered ==>
      && Deliverable(scans, row) && row.checkRunId.Some?
      && row.checkRunId.value in Matches(server, KeyOf(scans, row))
      && row.externalId == Some(ExternalId(row.scanRunId))
  }

  predicate ServerInv(s: State) {
    && ValidServer(s.server)
    && (forall owner | owner in s.sweeps :: PhaseInv(s.scans, s.server, s.steps, s.sweeps[owner]))
    && (forall id | id in s.table :: DeliveryRecorded(s.scans, s.server, s.table[id]))
  }

  ghost predicate Inv(s: State) { RowsInv(s) && SweepsInv(s) && ServerInv(s) }

  lemma PostExtends(s: Server, run: CheckRun)
    requires ValidServer(s)
    ensures ServerExtends(s, Server(s.runs[s.nextId := run], s.nextId + 1))
  {
    var t := Server(s.runs[s.nextId := run], s.nextId + 1);
    forall key
      ensures Matches(s, key) <= Matches(t, key)
      ensures forall id | IsCanonical(s, key, id) :: IsCanonical(t, key, id)
    {
      forall id | id in Matches(s, key) ensures id in Matches(t, key) { }
      forall other | other in Matches(t, key) ensures other in Matches(s, key) || other == s.nextId { }
    }
  }

  lemma PatchExtends(s: Server, id: nat, key: CheckKey, report: Report)
    requires ValidServer(s) && id in Matches(s, key)
    ensures ServerExtends(s, Patched(s, id, key, report))
  {
    forall other: CheckKey ensures Matches(Patched(s, id, key, report), other) == Matches(s, other) {
      PatchedMatches(s, id, key, report, other);
    }
    PatchedMatches(s, id, key, report, key);
  }

  lemma StepExtendsServer(s: State, e: Event)
    requires Inv(s) && Enabled(s, e)
    ensures ServerExtends(s.server, Step(s, e).server)
  {
    if e.ForeignRun? {
      PostExtends(s.server, e.run);
    } else if e.Send? {
      SendExtendsServer(s, e.owner, e.reply);
    } else {
      assert Step(s, e).server == s.server by { if e.Begin? { HeadAlwaysDeliverable(s, e.owner); } }
    }
  }

  lemma SendExtendsServer(s: State, owner: string, reply: Reply)
    requires Inv(s) && Enabled(s, Send(owner, reply))
    ensures ServerExtends(s.server, Sent(s, owner, reply).server)
  {
    var resolved := s.sweeps[owner].phase.resolved;
    assert PhaseInv(s.scans, s.server, s.steps, s.sweeps[owner]);
    var key := HeadKey(s, owner);
    var report := ReportOf(Head(s, owner).row);
    if !reply.Refused? {
      if resolved.Some? {
        PatchExtends(s.server, resolved.value, key, report);
      } else {
        PostExtends(s.server, Requested(key, report));
      }
    }
  }

  lemma PhaseSurvives(scans: map<nat, ScanRecord>, server: Server, steps: nat, sweep: Sweep,
                      scans': map<nat, ScanRecord>, server': Server)
    requires PhaseInv(scans, server, steps, sweep) && ServerExtends(server, server')
    requires sweep.hand != [] && Deliverable(scans, sweep.hand[0].row) ==>
               && Deliverable(scans', sweep.hand[0].row)
               && KeyOf(scans', sweep.hand[0].row) == KeyOf(scans, sweep.hand[0].row)
    ensures PhaseInv(scans', server', steps + 1, sweep)
  {
  }

  /** The scans of rows in the table keep the commit and repository they are looked up by. */
  lemma KeysStable(s: State, e: Event, row: Row, id: nat)
    requires RowsInv(s) && Enabled(s, e) && id in s.table && SameIntent(row, s.table[id])
    ensures Deliverable(s.scans, row) && Deliverable(Step(s, e).scans, row)
    ensures KeyOf(Step(s, e).scans, row) == KeyOf(s.scans, row) == KeyOf(s.scans, s.table[id])
  {
    hide Enabled, Step, ValidTable, ValidRow;
    assert RowInv(s.table[id], s.scans, s.owners, s.replays[id], s.completed[id]);
    ScansStep(s, e, id);
  }

  lemma ScansStep(s: State, e: Event, id: nat)
    requires Enabled(s, e) && id in s.table
    ensures var before, after, run := s.scans, Step(s, e).scans, s.table[id].scanRunId;
            run in before ==> run in after && after[run] == before[run]
  {
    hide FinishedTable;
    if !e.UpdateScans? { assert Step(s, e).scans == s.scans; }
  }

  lemma OtherPhaseKept(s: State, e: Event, owner: string)
    requires Inv(s) && Enabled(s, e) && owner in s.sweeps
    ensures PhaseInv(Step(s, e).scans, Step(s, e).server, Step(s, e).steps, s.sweeps[owner])
  {
    var t := Step(s, e);
    StepExtendsServer(s, e);
    var sweep := s.sweeps[owner];
    assert PhaseInv(s.scans, s.server, s.steps, sweep);
    if sweep.hand != [] {
      HeadItemInv(s, owner);
      KeysStable(s, e, sweep.hand[0].row, sweep.hand[0].id);
    }
    PhaseSurvives(s.scans, s.server, s.steps, sweep, t.scans, t.server);
  }

  /** An acknowledged send names a run the server now has for the row. */
  lemma SentPhaseKept(s: State, owner: string, reply: Reply)
    requires Inv(s) && Enabled(s, Send(owner, reply))
    ensures var t := Sent(s, owner, reply); PhaseInv(t.scans, t.server, s.steps + 1, t.sweeps[owner])
  {
    var sweep := s.sweeps[owner];
    assert PhaseInv(s.scans, s.server, s.steps, sweep);
    assert ValidServer(s.server);
    hide RowsInv, SweepsInv, ServerInv;
    var key, report := HeadKey(s, owner), ReportOf(Head(s, owner).row);
    if reply.Acknowledged? {
      if sweep.phase.resolved.None? { PostedMatches(s.server, key, report, key); }
      else { PatchedMatches(s.server, sweep.phase.resolved.value, key, report, key); }
    }
  }

  lemma LookUpPhaseKept(s: State, owner: string, resolved: Option<nat>)
    requires Inv(s) && Enabled(s, LookUp(owner, resolved))
    ensures resolved.Some? ==> IsCanonical(s.server, HeadKey(s, owner), resolved.value)
    ensures 1 <= s.sweeps[owner].phase.tries <= 2
  {
    HeadItemInv(s, owner);
    assert PhaseInv(s.scans, s.server, s.steps, s.sweeps[owner]);
  }

  lemma MovedPhaseKept(s: State, e: Event)
    requires Inv(s) && Enabled(s, e) && MovesPhase(e)
    ensures PhaseInv(Step(s, e).scans, Step(s, e).server, Step(s, e).steps, Step(s, e).sweeps[e.owner])
  {
    hide RowsInv, SweepsInv, ServerInv, Sent;
    if e.Send? {
      SentPhaseKept(s, e.owner, e.reply);
    } else if e.LookUp? {
      LookUpPhaseKept(s, e.owner, e.resolved);
    }
  }

  lemma StepKeepsPhases(s: State, e: Event)
    requires Inv(s) && Enabled(s, e)
    ensures var t := Step(s, e);
            forall owner | owner in t.sweeps ::
              PhaseInv(t.scans, t.server, t.steps, t.sweeps[owner])
  {
    var t := Step(s, e);
    forall owner | owner in t.sweeps ensures PhaseInv(t.scans, t.server, t.steps, t.sweeps[owner]) {
      if e.Begin? { HeadAlwaysDeliverable(s, e.owner); }
      if owner in s.sweeps { OtherPhaseKept(s, e, owner); }
      if MovesPhase(e) && owner == e.owner {
        MovedPhaseKept(s, e);
      } else if owner in s.sweeps && t.sweeps[owner] == s.sweeps[owner] {
      } else {
        assert e.Claim? || e.Begin? || e.Finish?;
        assert t.sweeps[owner].phase.Waiting? || t.sweeps[owner].phase.Resolving?;
      }
    }
  }

  lemma FinishKeepsDeliveries(s: State, owner: string, draw: real, id: nat)
    requires Inv(s) && Enabled(s, Finish(owner, draw)) && id in s.table
    ensures id in FinishedTable(s, owner, draw)
    ensures DeliveryRecorded(s.scans, s.server, FinishedTable(s, owner, draw)[id])
  {
    hide FinishedTable, RowsInv, SweepsInv, Matches, KeyOf, Deliverable, PhaseInv, Holds;
    assert DeliveryRecorded(s.scans, s.server, s.table[id]);
    if Holds(s.table, Head(s, owner).id, owner) {
      FinishedRow(s, owner, draw);
      HeldFinishRecorded(s, owner, draw);
    } else {
      LostWriteChangesNothing(s, owner, draw);
    }
  }

  lemma HeldFinishRecorded(s: State, owner: string, draw: real)
    requires Inv(s) && Enabled(s, Finish(owner, draw)) && Holds(s.table, Head(s, owner).id, owner)
    ensures var id, table := Head(s, owner).id, FinishedTable(s, owner, draw);
            id in table && DeliveryRecorded(s.scans, s.server, table[id])
  {
    hide RowsInv, Matches, ValidServer;
    HeadItemInv(s, owner);
    assert PhaseInv(s.scans, s.server, s.steps, s.sweeps[owner]);
  }

  /** Outside a finishing write a row is unchanged or not delivered. */
  lemma OnlyFinishDelivers(s: State, e: Event, id: nat)
    requires Inv(s) && Enabled(s, e) && !e.Finish? && id in Step(s, e).table
    ensures (id in s.table && Step(s, e).table[id] == s.table[id]) || Step(s, e).table[id].status != Delivered
  {
    hide RowsInv, SweepsInv, ServerInv, Sent, ValidTable, IsClaimSelection;
    if LeavesRows(e) { QuietStep(s, e); } else if e.Begin? { BeginStep(s, e); }
  }

  lemma StepKeepsDeliveries(s: State, e: Event)
    requires Inv(s) && Enabled(s, e)
    ensures var t := Step(s, e); forall id | id in t.table :: DeliveryRecorded(t.scans, t.server, t.table[id])
  {
    hide Enabled, Step, RowsInv, SweepsInv, FinishedTable, Matches, IsCanonical, KeyOf, Deliverable, PhaseInv;
    var t := Step(s, e);
    StepExtendsServer(s, e);
    if e.Finish? { FinishStep(s, e); }
    forall id | id in t.table ensures DeliveryRecorded(t.scans, t.server, t.table[id]) {
      if e.Finish? {
        FinishedTableShape(s, e.owner, e.draw);
        FinishKeepsDeliveries(s, e.owner, e.draw, id);
      } else {
        OnlyFinishDelivers(s, e, id);
        if t.table[id].status == Delivered {
          assert DeliveryRecorded(s.scans, s.server, s.table[id]);
          KeysStable(s, e, s.table[id], id);
        }
      }
    }
  }

  lemma StepKeepsInv(s: State, e: Event)
    requires Inv(s) && Enabled(s, e)
    ensures Inv(Step(s, e))
  {
    StepKeepsRows(s, e);
    StepKeepsSweeps(s, e);
    StepExtendsServer(s, e);
    StepKeepsPhases(s, e);
    StepKeepsDeliveries(s, e);
  }

  // ------------------------------------------------------------------ main results over every run

  /** Every state any interleaving of sweeps, crashes and expiries can reach keeps the invariant. */
  lemma {:induction false} TraceKeepsInv(states: seq<State>, events: seq<Event>, n: nat)
    requires IsTrace(states, events) && n < |states|
    ensures Inv(states[n]) && states[n].steps == n
  {
    if n > 0 {
      TraceKeepsInv(states, events, n - 1);
      StepKeepsInv(states[n - 1], events[n - 1]);
    }
  }

  /** The columns of a row always tell its status: leased iff claimed, a run iff delivered, a reason iff dead. */
  lemma ColumnsTellStatus(states: seq<State>, events: seq<Event>, n: nat, id: nat)
    requires IsTrace(states, events) && n < |states| && id in states[n].table
    ensures var row := states[n].table[id];
            && row.status in {Pending, Claimed, Delivered, Dead}
            && (row.leasedBy.Some? <==> row.status == Claimed) && (row.leaseUntil.Some? <==> row.status == Claimed)
            && (row.checkRunId.Some? <==> row.status == Delivered)
            && (row.externalId.Some? <==> row.status == Delivered)
            && (row.deadLetterReason.Some? <==> row.status == Dead)
  {
    TraceKeepsInv(states, events, n);
    hide IsTrace, SweepsInv, ServerInv;
    var s := states[n];
    assert RowInv(s.table[id], s.scans, s.owners, s.replays[id], s.completed[id]);
  }

  /** The sweep believes it may deliver the row: it is in its hand and its own lease is running. */
  predicate InHandUnexpired(s: State, owner: string, id: nat) {
    && owner in s.sweeps && s.now <= s.sweeps[owner].leaseUntil
    && exists i :: 0 <= i < |s.sweeps[owner].hand| && s.sweeps[owner].hand[i].id == id
  }

  /** Two sweeps never both have the same row in hand under a lease that is still running. */
  lemma AtMostOneUnexpiredLease(states: seq<State>, events: seq<Event>, n: nat, a: string, b: string, id: nat)
    requires IsTrace(states, events) && n < |states|
    requires InHandUnexpired(states[n], a, id) && InHandUnexpired(states[n], b, id)
    ensures a == b
    ensures id in states[n].table && states[n].table[id].leasedBy == Some(a) && states[n].table[id].status == Claimed
  {
    TraceKeepsInv(states, events, n);
    var s := states[n];
    var i :| 0 <= i < |s.sweeps[a].hand| && s.sweeps[a].hand[i].id == id;
    var j :| 0 <= j < |s.sweeps[b].hand| && s.sweeps[b].hand[j].id == id;
    assert ItemInv(s.table, s.now, a, s.sweeps[a].leaseUntil, s.sweeps[a].hand[i]);
    assert ItemInv(s.table, s.now, b, s.sweeps[b].leaseUntil, s.sweeps[b].hand[j]);
  }

  /** A delivered row is never written again. */
  lemma {:induction false} DeliveredIsAbsorbing(states: seq<State>, events: seq<Event>, m: nat, n: nat, id: nat)
    requires IsTrace(states, events) && m <= n < |states|
    requires id in states[m].table && states[m].table[id].status == Delivered
    ensures id in states[n].table && states[n].table[id] == states[m].table[id]
    decreases n
  {
    hide Enabled, Step, RowsInv, SweepsInv, ServerInv;
    if m < n {
      DeliveredIsAbsorbing(states, events, m, n - 1, id);
      TraceKeepsInv(states, events, n - 1);
      StepKeepsRows(states[n - 1], events[n - 1]);
    }
  }

  /** A dead row changes only by being replayed, and then returns to pending. */
  lemma DeadLeftOnlyByReplay(s: State, e: Event, id: nat)
    requires Inv(s) && Enabled(s, e) && id in s.table && s.table[id].status == Dead
    requires !(id in Step(s, e).table && Step(s, e).table[id] == s.table[id])
    ensures e == ReplayRow(id) && id in Step(s, e).table
    ensures Step(s, e).table[id].status == Pending
    ensures Step(s, e).table[id].attemptCount == s.table[id].attemptCount
  {
    assert RowInv(s.table[id], s.scans, s.owners, s.replays[id], s.completed[id]);
    if LeavesRows(e) {
      QuietStep(s, e);
    } else if e.Begin? {
      HeadAlwaysDeliverable(s, e.owner);
    } else if e.Claim? {
      if id in e.ids { SelectedIsLive(s.table, s.now, e.locked, e.ids, id); }
    } else if e.Finish? {
      FinishWritesOnlyHeldHead(s, e.owner, e.draw, id);
    }
  }

  lemma FinishWritesOnlyHeldHead(s: State, owner: string, draw: real, id: nat)
    requires Inv(s) && Enabled(s, Finish(owner, draw)) && id in s.table
    requires s.table[id].leasedBy != Some(owner)
    ensures id in FinishedTable(s, owner, draw) && FinishedTable(s, owner, draw)[id] == s.table[id]
  {
    if Holds(s.table, Head(s, owner).id, owner) {
      FinishedRow(s, owner, draw);
    } else {
      LostWriteChangesNothing(s, owner, draw);
    }
  }

  /** Whatever a sweep that lost its row tries to record, no row changes. */
  lemma LostSweepWritesNothing(states: seq<State>, events: seq<Event>, n: nat)
    requires IsTrace(states, events) && n < |events| && events[n].Finish?
    requires var item := Head(states[n], events[n].owner);
             item.id !in states[n].table || states[n].table[item.id] != item.row
    ensures states[n + 1].table == states[n].table
    ensures states[n + 1].completed == states[n].completed
  {
    TraceKeepsInv(states, events, n);
    HeadItemInv(states[n], events[n].owner);
    LostWriteChangesNothing(states[n], events[n].owner, events[n].draw);
  }

  /**
    The attempt count is exactly the number of deliveries recorded by their holder, and twelve
    plus one per replay is all a row ever gets; a row that has had its twelve is finished.
  */
  lemma AttemptsBounded(states: seq<State>, events: seq<Event>, n: nat, id: nat)
    requires IsTrace(states, events) && n < |states| && id in states[n].table
    ensures var s := states[n];
            && id in s.completed && id in s.replays
            && s.table[id].attemptCount == s.completed[id] <= 12 + s.replays[id]
            && (s.table[id].status in {Pending, Claimed} ==> s.table[id].attemptCount <= 11 + s.replays[id])
            && (s.completed[id] >= 12 + s.replays[id] ==> s.table[id].status in {Delivered, Dead})
  {
    TraceKeepsInv(states, events, n);
    var s := states[n];
    assert RowInv(s.table[id], s.scans, s.owners, s.replays[id], s.completed[id]);
  }

  /** A recorded delivery is a step towards the bound: the count goes up by exactly one. */
  lemma HolderRecordsOneAttempt(states: seq<State>, events: seq<Event>, n: nat)
    requires IsTrace(states, events) && n < |events| && events[n].Finish?
    requires Holds(states[n].table, Head(states[n], events[n].owner).id, events[n].owner)
    ensures var id := Head(states[n], events[n].owner).id;
            && id in states[n + 1].table
            && states[n + 1].table[id].attemptCount == states[n].table[id].attemptCount + 1
            && states[n + 1].replays == states[n].replays
            && forall other | other in states[n].table && other != id ::
                 other in states[n + 1].table && states[n + 1].table[other] == states[n].table[other]
  {
    TraceKeepsInv(states, events, n);
    FinishedRow(states[n], events[n].owner, events[n].draw);
  }

  /** A delivered row names a run on the server that carries its external id for its commit. */
  lemma DeliveredRowNamesItsRun(states: seq<State>, events: seq<Event>, n: nat, id: nat)
    requires IsTrace(states, events) && n < |states|
    requires id in states[n].table && states[n].table[id].status == Delivered
    ensures var s := states[n]; var row := s.table[id];
            && Deliverable(s.scans, row) && row.checkRunId.Some?
            && row.checkRunId.value in Matches(s.server, KeyOf(s.scans, row))
            && row.externalId == Some(ExternalId(row.scanRunId))
  {
    TraceKeepsInv(states, events, n);
    assert DeliveryRecorded(states[n].scans, states[n].server, states[n].table[id]);
  }

  /** The missing-scan branch of the delivery step is unreachable. */
  lemma MissingScanUnreachable(states: seq<State>, events: seq<Event>, n: nat)
    requires IsTrace(states, events) && n < |events| && events[n].Begin?
    ensures Deliverable(states[n].scans, Head(states[n], events[n].owner).row)
    ensures states[n + 1].table == states[n].table
  {
    TraceKeepsInv(states, events, n);
    HeadAlwaysDeliverable(states[n], events[n].owner);
  }

  // ------------------------------------------------------------------ two live sweeps of one name

  /**
    What `owner !in s.sweeps` excludes: two live invocations of one name. The second claims the
    row after the first one's lease ran out; the first is not stopped, its write ends the row,
    and the second, whose lease is running, can no longer record the delivery it makes.
  */
  lemma LiveNamesakesAreNotKeptApart(owner: string, checkRunId: nat)
    ensures var row := NewRow(7, GITHUB_CHECK_NAME, Success, "", 0.0);
            var first := ClaimRows(map[1 := row], [1], owner, LEASE_DURATION);
            var second := ClaimRows(first, [1], owner, 301.0 + LEASE_DURATION);
            var written := AfterDead(second, 1, owner, 1, AttemptsExhausted);
            && IsClaimSelection(map[1 := row], 0.0, {}, SWEEP_BATCH_SIZE, [1])
            && IsClaimSelection(first, 301.0, {}, SWEEP_BATCH_SIZE, [1])
            && second[1] != first[1] && written != second && written[1].status == Dead
            && AfterDelivered(written, 1, owner, ExternalId(7), checkRunId, 1) == written
  {
    var row := NewRow(7, GITHUB_CHECK_NAME, Success, "", 0.0);
    var first := ClaimRows(map[1 := row], [1], owner, LEASE_DURATION);
    var second := ClaimRows(first, [1], owner, 301.0 + LEASE_DURATION);
    assert first[1] == ClaimedRow(row, owner, LEASE_DURATION);
    assert second[1] == ClaimedRow(row, owner, 301.0 + LEASE_DURATION);
    assert AfterDead(second, 1, owner, 1, AttemptsExhausted)[1].status == Dead;
  }

  // ------------------------------------------------------------------ building runs

  function Last(states: seq<State>): State
    requires states != []
  {
    states[|states| - 1]
  }

  lemma ExtendTrace(states: seq<State>, events: seq<Event>, e: Event)
    returns (longer: seq<State>, more: seq<Event>)
    requires IsTrace(states, events) && Enabled(Last(states), e)
    ensures IsTrace(longer, more) && Last(longer) == Step(Last(states), e)
    ensures longer == states + [Last(longer)] && more == events + [e]
  {
    longer, more := states + [Step(Last(states), e)], events + [e];
    forall i | 0 <= i < |more|
      ensures Enabled(longer[i], more[i]) && longer[i + 1] == Step(longer[i], more[i])
    {
      if i < |events| {
        assert longer[i] == states[i] && longer[i + 1] == states[i + 1] && more[i] == events[i];
      }
    }
  }
}
