/**
  One sweep as the worker runs it, undisturbed: claim due rows, then deliver them one by one,
  each ending in exactly one finishing write. What other sweeps may do in between is the
  subject of SweepProtocol.
*/
module CheckSweep {
  import opened Wrappers
  import opened PublishRetry
  import opened ChecksClient
  import opened Outbox
  import opened CheckIdentity
  import opened SweepProtocol

  datatype Delivery =
    | WasDelivered(checkRunId: nat)
    | WasRescheduled(delay: real)
    | WasDeadLettered(reason: DeadLetterReason)

  type Answer = Result<PublishedCheck, PublishError>

  /** A failure that is not retried any more, or never was. */
  function ReasonFor(error: PublishError): DeadLetterReason {
    match error
    case Unrecognised => UnclassifiedError
    case HttpStatus(code, _, _) =>
      if code in {401, 403, 404, 429} || code >= 500 then AttemptsExhausted else HttpCode(code)
    case _ => AttemptsExhausted
  }

  /**
    How a delivery ends, given what its publish answered, or that none was made: delivered as the
    run answered, retried while the failure may pass and fewer than twelve attempts were made,
    and dead-lettered otherwise.
  */
  predicate EndsAs(row: Row, answer: Option<Answer>, delivery: Delivery) {
    match answer
    case None => delivery == WasDeadLettered(MissingScanRunOrRepository)
    case Some(Ok(check)) => delivery == WasDelivered(check.checkRunId)
    case Some(Err(error)) =>
      if IsRetryable(error) && row.attemptCount + 1 < 12 then delivery.WasRescheduled?
      else delivery == WasDeadLettered(ReasonFor(error))
  }

  /** The same of the row that is left. */
  predicate SettledBy(before: Row, after: Row, answer: Option<Answer>) {
    match answer
    case None => after.status == Dead && after.deadLetterReason == Some(MissingScanRunOrRepository)
    case Some(Ok(check)) => after.status == Delivered && after.checkRunId == Some(check.checkRunId)
    case Some(Err(error)) =>
      if IsRetryable(error) && before.attemptCount + 1 < 12 then after.status == Claimed
      else after.status == Dead && after.deadLetterReason == Some(ReasonFor(error))
  }

  /** A dead letter for exhausted attempts is exactly one whose failure might have passed. */
  lemma ReasonTellsRetryable(error: PublishError)
    ensures ReasonFor(error) == AttemptsExhausted <==> IsRetryable(error)
    ensures !IsRetryable(error) ==>
              ReasonFor(error) == if error.HttpStatus? then HttpCode(error.code) else UnclassifiedError
  {
  }

  /** What a delivery of `row` may write, given how it ended. */
  predicate WrittenAs(before: Table, after: Table, id: nat, row: Row, owner: string, now: real, delivery: Delivery) {
    match delivery
    case WasDelivered(checkRunId) =>
      after == AfterDelivered(before, id, owner, ExternalId(row.scanRunId), checkRunId, row.attemptCount + 1)
    case WasRescheduled(delay) =>
      && InRange(delay) && row.attemptCount + 1 < MAX_ATTEMPTS
      && after == AfterReschedule(before, id, owner, now + delay, row.attemptCount + 1)
    case WasDeadLettered(reason) =>
      && (reason.AttemptsExhausted? ==> row.attemptCount + 1 >= MAX_ATTEMPTS)
      && after == AfterDead(before, id, owner, row.attemptCount + 1, reason)
  }

  /** The server holds the row's canonical run and it says what the row asked for. */
  predicate ShowsRow(server: Server, scans: map<nat, ScanRecord>, row: Row, checkRunId: nat) {
    && Deliverable(scans, row)
    && IsCanonical(server, KeyOf(scans, row), checkRunId)
    && server.runs[checkRunId] == Requested(KeyOf(scans, row), ReportOf(row))
  }

  method DeliverOne(table: PublicationTable, client: GitHubChecksHttpClient, github: GitHub,
                    scans: map<nat, ScanRecord>, id: nat, row: Row, owner: string, now: real, draw: real)
    returns (delivery: Delivery, ghost answer: Option<Answer>)
    requires ValidServer(github.state) && 0.0 <= draw <= 1.0
    modifies table, client, github
    ensures ValidServer(github.state)
    ensures answer.Some? <==> Deliverable(scans, row)
    ensures client.answers == old(client.answers) + if answer.Some? then [answer.value] else []
    ensures EndsAs(row, answer, delivery)
    ensures delivery.WasRescheduled? ==> delivery.delay == DelaySeconds(answer.value.error, row.attemptCount + 1, draw)
    ensures WrittenAs(old(table.rows), table.rows, id, row, owner, now, delivery)
    ensures !Deliverable(scans, row) ==>
              delivery == WasDeadLettered(MissingScanRunOrRepository) && github.state == old(github.state)
    ensures Deliverable(scans, row) ==>
              if row.checkRunId.None? then AtMostOneWrite(old(github.state), github.state, KeyOf(scans, row),
                                                          ReportOf(row))
              else github.state == old(github.state)
                   || UpdatedRun(old(github.state), github.state, row.checkRunId.value, KeyOf(scans, row),
                                 ReportOf(row))
    ensures delivery.WasDelivered? ==>
              && Deliverable(scans, row)
              && if row.checkRunId.None? then ShowsRow(github.state, scans, row, delivery.checkRunId)
                 else delivery.checkRunId == row.checkRunId.value
                      && UpdatedRun(old(github.state), github.state, delivery.checkRunId, KeyOf(scans, row),
                                    ReportOf(row))
  {
    var attemptCount := row.attemptCount + 1;
    if !Deliverable(scans, row) {
      var _ := table.MarkDead(id, owner, attemptCount, MissingScanRunOrRepository);
      return WasDeadLettered(MissingScanRunOrRepository), None;
    }
    var published, _ := client.Publish(github, KeyOf(scans, row).repo, KeyOf(scans, row), ReportOf(row),
                                       row.checkRunId);
    answer := Some(published);
    match published {
      case Err(error) =>
        RetriedIff(error, attemptCount, draw);
        ReasonTellsRetryable(error);
        match ClassifyPublishFailure(error, attemptCount, draw) {
          case Retry(delay) =>
            var _ := table.Reschedule(id, owner, now + delay, attemptCount);
            return WasRescheduled(delay), answer;
          case DeadLetter(reason) =>
            var _ := table.MarkDead(id, owner, attemptCount, reason);
            return WasDeadLettered(reason), answer;
        }
      case Ok(check) =>
        var _ := table.MarkDelivered(id, owner, check.externalId, check.checkRunId, attemptCount);
        return WasDelivered(check.checkRunId), answer;
    }
  }

  /** A write for one key leaves every other key's canonical run and its content alone. */
  lemma OtherKeyUndisturbed(before: Server, after: Server, key: CheckKey, report: Report, other: CheckKey, id: nat)
    requires ValidServer(before) && AtMostOneWrite(before, after, key, report)
    requires other != key && IsCanonical(before, other, id)
    ensures IsCanonical(after, other, id) && after.runs[id] == before.runs[id]
  {
    if after != before {
      if after == Posted(before, key, report) {
        PostedMatches(before, key, report, other);
      } else {
        var canonical :| IsCanonical(before, key, canonical) && after == Patched(before, canonical, key, report);
        PatchedMatches(before, canonical, key, report, other);
        assert canonical in Matches(before, key) && id in Matches(before, other);
      }
    }
  }

  lemma DistinctScansDistinctKeys(scans: map<nat, ScanRecord>, a: Row, b: Row)
    requires Deliverable(scans, a) && Deliverable(scans, b) && a.scanRunId != b.scanRunId
    ensures KeyOf(scans, a) != KeyOf(scans, b)
  {
    ExternalIdInjective(a.scanRunId, b.scanRunId);
  }

  /** The state of a claimed row once this sweep has dealt with it. */
  predicate DealtWith(server: Server, scans: map<nat, ScanRecord>, before: Row, after: Row, owner: string, start: real,
                      finish: real) {
    && SameIntent(before, after)
    && after.attemptCount == before.attemptCount + 1
    && match after.status
       case Delivered =>
         && after.leasedBy.None? && after.checkRunId.Some? && after.externalId == Some(ExternalId(before.scanRunId))
         && ShowsRow(server, scans, before, after.checkRunId.value)
       case Dead => after.leasedBy.None? && after.deadLetterReason.Some?
       case Claimed =>
         && after.leasedBy == Some(owner) && after.attemptCount < MAX_ATTEMPTS && after.leaseUntil.Some?
         && start + MIN_DELAY_SECONDS <= after.leaseUntil.value <= finish + MAX_DELAY_SECONDS
       case _ => false
  }

  lemma DealtWithSurvives(before: Server, after: Server, scans: map<nat, ScanRecord>, row: Row, settled: Row,
                          owner: string, start: real, finish: real, later: real, other: Row)
    requires DealtWith(before, scans, row, settled, owner, start, finish) && finish <= later
    requires ValidServer(before) && row.scanRunId != other.scanRunId
    requires if Deliverable(scans, other) then AtMostOneWrite(before, after, KeyOf(scans, other), ReportOf(other))
             else after == before
    ensures DealtWith(after, scans, row, settled, owner, start, later)
  {
    if settled.status == Delivered && Deliverable(scans, other) {
      DistinctScansDistinctKeys(scans, row, other);
      OtherKeyUndisturbed(before, after, KeyOf(scans, other), ReportOf(other), KeyOf(scans, row),
                          settled.checkRunId.value);
    }
  }

  lemma WrittenRowIsDealtWith(before: Table, after: Table, server: Server, scans: map<nat, ScanRecord>, id: nat,
                              row: Row, owner: string, start: real, now: real, delivery: Delivery)
    requires id in before && before[id].leasedBy == Some(owner) && ValidRow(before[id])
    requires SameIntent(row, before[id]) && before[id].attemptCount == row.attemptCount
    requires WrittenAs(before, after, id, row, owner, now, delivery) && start <= now
    requires delivery.WasDelivered? ==> ShowsRow(server, scans, row, delivery.checkRunId)
    ensures id in after && DealtWith(server, scans, row, after[id], owner, start, now)
    ensures after == before[id := after[id]]
  {
  }

  /** The claimed rows of a claim, and that the rest is as it was. */
  ghost predicate ClaimedWell(before: Table, after: Table, ids: seq<nat>, owner: string, leaseUntil: real) {
    && after.Keys == before.Keys
    && (forall id | id in before && id !in ids :: after[id] == before[id])
    && (forall i | 0 <= i < |ids| ::
          && ids[i] in before && after[ids[i]] == ClaimedRow(before[ids[i]], owner, leaseUntil)
          && ValidRow(after[ids[i]]) && after[ids[i]].checkRunId.None?)
    && (forall i, j | 0 <= i < j < |ids| ::
          ids[i] != ids[j] && before[ids[i]].scanRunId != before[ids[j]].scanRunId)
  }

  lemma ClaimedFacts(before: Table, now: real, locked: set<nat>, ids: seq<nat>, owner: string, leaseUntil: real)
    requires ValidTable(before) && IsClaimSelection(before, now, locked, SWEEP_BATCH_SIZE, ids)
    ensures ClaimedWell(before, ClaimRows(before, ids, owner, leaseUntil), ids, owner, leaseUntil)
  {
    ClaimKeepsTable(before, now, locked, SWEEP_BATCH_SIZE, ids, owner, leaseUntil);
  }

  lemma AllSurvive(before: Server, after: Server, scans: map<nat, ScanRecord>, old_: Table, rows: Table, ids: seq<nat>,
                   n: nat, owner: string, start: real, finish: real, later: real, other: Row)
    requires n <= |ids| && ValidServer(before) && finish <= later
    requires forall k | 0 <= k < n ::
               ids[k] in old_ && ids[k] in rows && old_[ids[k]].scanRunId != other.scanRunId
               && DealtWith(before, scans, old_[ids[k]], rows[ids[k]], owner, start, finish)
    requires if Deliverable(scans, other) then AtMostOneWrite(before, after, KeyOf(scans, other), ReportOf(other))
             else after == before
    ensures forall k | 0 <= k < n :: DealtWith(after, scans, old_[ids[k]], rows[ids[k]], owner, start, later)
  {
    hide DealtWith, AtMostOneWrite, KeyOf, ReportOf, Deliverable, ValidServer;
    forall k | 0 <= k < n ensures DealtWith(after, scans, old_[ids[k]], rows[ids[k]], owner, start, later) {
      DealtWithSurvives(before, after, scans, old_[ids[k]], rows[ids[k]], owner, start, finish, later, other);
    }
  }

  /** Settling the claimed snapshot is settling the row as it was before the claim. */
  lemma ClaimIsInvisible(server: Server, scans: map<nat, ScanRecord>, before: Row, after: Row, owner: string,
                         leaseUntil: real, start: real, finish: real)
    requires DealtWith(server, scans, ClaimedRow(before, owner, leaseUntil), after, owner, start, finish)
    ensures DealtWith(server, scans, before, after, owner, start, finish)
  {
  }

  /** The first `i` claimed rows are dealt with and every other row is as the claim left it. */
  ghost predicate SweptSoFar(before: Table, snapshot: Table, rows: Table, ids: seq<nat>, i: nat, server: Server,
                             scans: map<nat, ScanRecord>, owner: string, start: real, finish: real)
    requires i <= |ids|
  {
    && rows.Keys == before.Keys == snapshot.Keys
    && RestAsClaimed(before, snapshot, rows, ids[..i])
    && (forall k | 0 <= k < i :: ids[k] in before && DealtWith(server, scans, before[ids[k]], rows[ids[k]], owner,
                                                               start, finish))
  }

  predicate RestAsClaimed(before: Table, snapshot: Table, rows: Table, ids: seq<nat>)
    requires rows.Keys == before.Keys == snapshot.Keys
  {
    forall id | id in before && id !in ids :: rows[id] == snapshot[id]
  }

  lemma RestStaysAsClaimed(before: Table, snapshot: Table, rows: Table, ids: seq<nat>, id: nat, row: Row)
    requires rows.Keys == before.Keys == snapshot.Keys && id in before && RestAsClaimed(before, snapshot, rows, ids)
    ensures RestAsClaimed(before, snapshot, rows[id := row], ids + [id])
  {
  }

  lemma SameScan(a: Row, b: Row)
    requires SameIntent(a, b)
    ensures a.scanRunId == b.scanRunId
  {
  }

  lemma OneMoreSwept(before: Table, snapshot: Table, rows: Table, settled: Table, ids: seq<nat>, i: nat, server: Server,
                     after: Server, scans: map<nat, ScanRecord>, owner: string, start: real, finish: real, later: real)
    requires i < |ids| && SweptSoFar(before, snapshot, rows, ids, i, server, scans, owner, start, finish)
    requires forall k, m | 0 <= k < m < |ids| ::
               ids[k] != ids[m] && ids[k] in before && ids[m] in before
               && before[ids[k]].scanRunId != before[ids[m]].scanRunId
    requires ValidServer(server) && finish <= later && ids[i] in before && SameIntent(before[ids[i]], snapshot[ids[i]])
    requires var other := snapshot[ids[i]];
             if Deliverable(scans, other) then AtMostOneWrite(server, after, KeyOf(scans, other), ReportOf(other))
             else after == server
    requires ids[i] in settled && settled == rows[ids[i] := settled[ids[i]]]
    requires DealtWith(after, scans, before[ids[i]], settled[ids[i]], owner, start, later)
    ensures SweptSoFar(before, snapshot, settled, ids, i + 1, after, scans, owner, start, later)
  {
    hide DealtWith, AtMostOneWrite, KeyOf, ReportOf, Deliverable, ValidServer, SameIntent, RestAsClaimed;
    assert before[ids[i]].scanRunId == snapshot[ids[i]].scanRunId by { SameScan(before[ids[i]], snapshot[ids[i]]); }
    AllSurvive(server, after, scans, before, rows, ids, i, owner, start, finish, later, snapshot[ids[i]]);
    assert ids[..i + 1] == ids[..i] + [ids[i]];
    RestStaysAsClaimed(before, snapshot, rows, ids[..i], ids[i], settled[ids[i]]);
    forall k | 0 <= k < i ensures settled[ids[k]] == rows[ids[k]] { }
  }

  /** The publishes that were made, in order. */
  function Made(answers: seq<Option<Answer>>): seq<Answer> {
    if answers == [] then []
    else
      var last := answers[|answers| - 1];
      Made(answers[..|answers| - 1]) + if last.Some? then [last.value] else []
  }

  lemma OneMoreMade(answers: seq<Option<Answer>>, answer: Option<Answer>)
    ensures Made(answers + [answer]) == Made(answers) + if answer.Some? then [answer.value] else []
  {
    assert (answers + [answer])[..|answers|] == answers;
  }

  /** One publish for each of the first `i` claimed rows whose scan is there, and the row left as it answered. */
  ghost predicate Answered(before: Table, rows: Table, ids: seq<nat>, i: nat, scans: map<nat, ScanRecord>,
                           answers: seq<Option<Answer>>)
  {
    && |answers| == i <= |ids|
    && forall k | 0 <= k < i ::
         && ids[k] in before && ids[k] in rows
         && (answers[k].Some? <==> Deliverable(scans, before[ids[k]]))
         && SettledBy(before[ids[k]], rows[ids[k]], answers[k])
  }

  lemma NothingAnswered(before: Table, rows: Table, ids: seq<nat>, scans: map<nat, ScanRecord>)
    ensures Answered(before, rows, ids, 0, scans, []) && Made([]) == []
  {
  }

  lemma WrittenIsSettledBy(before: Table, after: Table, id: nat, row: Row, owner: string, now: real,
                           delivery: Delivery, answer: Option<Answer>)
    requires WrittenAs(before, after, id, row, owner, now, delivery) && Holds(before, id, owner)
    requires EndsAs(row, answer, delivery)
    ensures id in after && SettledBy(row, after[id], answer)
  {
  }

  lemma OneMoreAnswered(before: Table, snapshot: Table, rows: Table, settled: Table, ids: seq<nat>, i: nat,
                        scans: map<nat, ScanRecord>, owner: string, leaseUntil: real, answers: seq<Option<Answer>>,
                        answer: Option<Answer>)
    requires i < |ids| && Answered(before, rows, ids, i, scans, answers)
    requires ids[i] in before && ids[i] in snapshot && ids[i] in settled
    requires snapshot[ids[i]] == ClaimedRow(before[ids[i]], owner, leaseUntil)
    requires settled == rows[ids[i] := settled[ids[i]]] && forall k | 0 <= k < i :: ids[k] != ids[i]
    requires answer.Some? <==> Deliverable(scans, snapshot[ids[i]])
    requires SettledBy(snapshot[ids[i]], settled[ids[i]], answer)
    ensures Answered(before, settled, ids, i + 1, scans, answers + [answer])
  {
  }

  /** After a send the protocol tries once more exactly when the client does, and else ends with that answer. */
  lemma ProtocolRetriesAlike(s: State, owner: string, reply: Reply)
    requires Enabled(s, Send(owner, reply))
    ensures owner in Step(s, Send(owner, reply)).sweeps
    ensures var tries, next := s.sweeps[owner].phase.tries, Step(s, Send(owner, reply)).sweeps[owner].phase;
            if reply.Acknowledged? then next.Published? && next.checkRunId == reply.id
            else if tries == 1 && RetriedStatus(Err(reply.error)) then next == Attempting(2)
            else next == PublishFailed(reply.error)
  {
    hide Deliverable, KeyOf, ReportOf;
  }

  /** The protocol's finishing write does to a held row exactly what the delivery does. */
  lemma ProtocolSettlesAlike(s: State, owner: string, draw: real)
    requires Inv(s) && Enabled(s, Finish(owner, draw)) && Holds(s.table, Head(s, owner).id, owner)
    ensures var phase, row, id := s.sweeps[owner].phase, Head(s, owner).row, Head(s, owner).id;
            && (phase.Published? || phase.PublishFailed?) && id in FinishedTable(s, owner, draw)
            && SettledBy(row, FinishedTable(s, owner, draw)[id],
                         Some(if phase.Published? then Ok(PublishedCheck(phase.checkRunId, ExternalId(row.scanRunId)))
                              else Err(phase.error)))
  {
    hide RowsInv, ServerInv, DelaySeconds, IsRetryable, InRange;
    var row, phase := Head(s, owner).row, s.sweeps[owner].phase;
    HeadItemInv(s, owner);
    if phase.PublishFailed? {
      RetriedIff(phase.error, row.attemptCount + 1, draw);
      ReasonTellsRetryable(phase.error);
    }
  }

  /**
    An undisturbed sweep takes the oldest due rows, gives each exactly one more attempt, and
    leaves it delivered with its run on the server, dead-lettered, or leased until its retry.
    No other row is touched. Each claimed row whose scan is there is published exactly once, and
    what that publish answered decides what becomes of the row.
  */
  method RunSweep(table: PublicationTable, client: GitHubChecksHttpClient, github: GitHub, scans: map<nat, ScanRecord>,
                  owner: string, leaseUntil: real, now: real, locked: set<nat>)
    returns (count: nat, ghost ids: seq<nat>, finish: real, ghost answers: seq<Option<Answer>>)
    requires ValidTable(table.rows) && ValidServer(github.state)
    modifies table, client, github
    ensures IsClaimSelection(old(table.rows), now, locked, SWEEP_BATCH_SIZE, ids)
    ensures count == |ids| && now <= finish && ValidServer(github.state)
    ensures table.rows.Keys == old(table.rows).Keys
    ensures forall id | id in old(table.rows) && id !in ids :: table.rows[id] == old(table.rows)[id]
    ensures forall i | 0 <= i < |ids| ::
              ids[i] in old(table.rows)
              && DealtWith(github.state, scans, old(table.rows)[ids[i]], table.rows[ids[i]], owner, now, finish)
    ensures client.answers == old(client.answers) + Made(answers)
    ensures Answered(old(table.rows), table.rows, ids, |ids|, scans, answers)
  {
    hide DealtWith, Answered, ValidTable, ClaimRows, IsClaimSelection, ValidServer, SweptSoFar, ClaimedWell;
    ghost var before := table.rows;
    finish := now;
    var claimed := table.ClaimDue(SWEEP_BATCH_SIZE, owner, leaseUntil, now, locked);
    ids := claimed;
    ClaimedFacts(before, now, locked, ids, owner, leaseUntil);
    var snapshot := table.rows;
    NothingSwept(before, snapshot, claimed, github.state, scans, owner, now);
    NothingAnswered(before, snapshot, claimed, scans);
    answers := [];
    for i := 0 to |claimed|
      invariant ValidServer(github.state) && now <= finish
      invariant client.answers == old(client.answers) + Made(answers)
      invariant Answered(before, table.rows, claimed, i, scans, answers)
      invariant SweptSoFar(before, snapshot, table.rows, claimed, i, github.state, scans, owner, now, finish)
    {
      ghost var answer;
      RowOfClaim(before, snapshot, claimed, i, owner, leaseUntil);
      finish, answer := DeliverNext(table, client, github, scans, owner, leaseUntil, now, before, snapshot, claimed, i,
                                    snapshot[claimed[i]], finish, answers);
      OneMoreMade(answers, answer);
      answers := answers + [answer];
    }
    count := |claimed|;
    AllSwept(before, snapshot, table.rows, claimed, github.state, scans, owner, now, finish, leaseUntil);
  }

  lemma RowOfClaim(before: Table, snapshot: Table, ids: seq<nat>, i: nat, owner: string, leaseUntil: real)
    requires ClaimedWell(before, snapshot, ids, owner, leaseUntil) && i < |ids|
    ensures ids[i] in snapshot
  {
  }

  /** The delivery of the next claimed row, some time after the previous one. */
  method DeliverNext(table: PublicationTable, client: GitHubChecksHttpClient, github: GitHub,
                     scans: map<nat, ScanRecord>, owner: string, leaseUntil: real, now: real, ghost before: Table,
                     ghost snapshot: Table, claimed: seq<nat>, i: nat, row: Row, finish: real,
                     ghost answers: seq<Option<Answer>>)
    returns (later: real, ghost answer: Option<Answer>)
    requires ClaimedWell(before, snapshot, claimed, owner, leaseUntil) && ValidServer(github.state) && now <= finish
    requires i < |claimed| && claimed[i] in snapshot && row == snapshot[claimed[i]]
    requires SweptSoFar(before, snapshot, table.rows, claimed, i, github.state, scans, owner, now, finish)
    requires Answered(before, table.rows, claimed, i, scans, answers)
    modifies table, client, github
    ensures finish <= later && ValidServer(github.state)
    ensures client.answers == old(client.answers) + if answer.Some? then [answer.value] else []
    ensures SweptSoFar(before, snapshot, table.rows, claimed, i + 1, github.state, scans, owner, now, later)
    ensures Answered(before, table.rows, claimed, i + 1, scans, answers + [answer])
  {
    hide DealtWith, Answered, EndsAs, SettledBy, DelaySeconds, WrittenAs, AtMostOneWrite, ShowsRow, ValidServer,
         Deliverable, KeyOf, ReportOf, SweptSoFar, UpdatedRun;
    var id := claimed[i];
    var elapsed: real, draw: real := *, *;
    later := if elapsed > 0.0 then finish + elapsed else finish;
    draw := if 0.0 <= draw <= 1.0 then draw else 0.0;
    ghost var rows, server := table.rows, github.state;
    NextUntouched(before, snapshot, rows, claimed, i, server, scans, owner, now, finish);
    var delivery;
    delivery, answer := DeliverOne(table, client, github, scans, id, row, owner, later, draw);
    WrittenRowIsDealtWith(rows, table.rows, github.state, scans, id, row, owner, now, later, delivery);
    WrittenIsSettledBy(rows, table.rows, id, row, owner, later, delivery, answer);
    OneMoreAnswered(before, snapshot, rows, table.rows, claimed, i, scans, owner, leaseUntil, answers, answer);
    ClaimIsInvisible(github.state, scans, before[id], table.rows[id], owner, leaseUntil, now, later);
    OneMoreSwept(before, snapshot, rows, table.rows, claimed, i, server, github.state, scans, owner, now, finish,
                 later);
  }

  lemma NothingSwept(before: Table, snapshot: Table, ids: seq<nat>, server: Server, scans: map<nat, ScanRecord>,
                     owner: string, start: real)
    requires snapshot.Keys == before.Keys
    ensures SweptSoFar(before, snapshot, snapshot, ids, 0, server, scans, owner, start, start)
  {
  }

  lemma NextUntouched(before: Table, snapshot: Table, rows: Table, ids: seq<nat>, i: nat, server: Server,
                      scans: map<nat, ScanRecord>, owner: string, start: real, finish: real)
    requires i < |ids| && SweptSoFar(before, snapshot, rows, ids, i, server, scans, owner, start, finish)
    requires ids[i] in before && forall k | 0 <= k < i :: ids[k] != ids[i]
    ensures ids[i] in rows && ids[i] in snapshot && rows[ids[i]] == snapshot[ids[i]]
  {
    hide DealtWith;
    assert ids[i] !in ids[..i];
  }

  lemma AllSwept(before: Table, snapshot: Table, rows: Table, ids: seq<nat>, server: Server,
                 scans: map<nat, ScanRecord>, owner: string, start: real, finish: real, leaseUntil: real)
    requires SweptSoFar(before, snapshot, rows, ids, |ids|, server, scans, owner, start, finish)
    requires ClaimedWell(before, snapshot, ids, owner, leaseUntil)
    ensures rows.Keys == before.Keys
    ensures forall id | id in before && id !in ids :: rows[id] == before[id]
    ensures forall i | 0 <= i < |ids| ::
              ids[i] in before && DealtWith(server, scans, before[ids[i]], rows[ids[i]], owner, start, finish)
  {
    hide DealtWith;
    assert ids[..|ids|] == ids;
  }
}
