/**
  Where leases meet convergence: two deliveries of one scan can only both create a Check Run
  when one of them sends after its own lease ran out, and then they really can.
*/
module SweepLeases {
  import opened Wrappers
  import opened ChecksClient
  import opened Outbox
  import opened CheckIdentity
  import opened SweepProtocol
  import opened SweepConvergence

  /** Every request that may create or update a run is sent at most this long after its lease. */
  predicate SentWithin(states: seq<State>, events: seq<Event>, slack: real)
    requires |states| == |events| + 1
  {
    forall i | 0 <= i < |events| && events[i].Send? && events[i].owner in states[i].sweeps ::
      states[i].now <= states[i].sweeps[events[i].owner].leaseUntil + slack
  }

  /** The request of this step was sent after its sweep's lease had run out. */
  predicate SentLate(states: seq<State>, events: seq<Event>, i: nat)
    requires |states| == |events| + 1
  {
    && i < |events| && events[i].Send? && events[i].owner in states[i].sweeps
    && states[i].sweeps[events[i].owner].leaseUntil < states[i].now
  }

  predicate NothingSent(events: seq<Event>) { forall i | 0 <= i < |events| :: !events[i].Send? }

  // ------------------------------------------------------------------ from the look to the send

  /** A sweep that has looked a run up sits where it is, in the same lease, until it sends. */
  lemma {:induction false} LookedStays(states: seq<State>, events: seq<Event>, i: nat, n: nat, owner: string)
    requires IsTrace(states, events) && n < |states| && owner in states[n].sweeps
    requires states[n].sweeps[owner].phase.LookedUp? && states[n].sweeps[owner].phase.lookedAt < i <= n
    ensures owner in states[i].sweeps && states[i].sweeps[owner] == states[n].sweeps[owner]
    decreases n
  {
    hide Enabled, Step, Inv, Initial;
    if i < n {
      TraceKeepsInv(states, events, n - 1);
      LookedBefore(states[n - 1], events[n - 1], owner);
      LookedStays(states, events, i, n - 1, owner);
    }
  }

  lemma ClockStep(s: State, e: Event)
    requires Enabled(s, e)
    ensures s.now <= Step(s, e).now
  {
    hide FinishedTable;
  }

  lemma {:induction false} ClockAdvances(states: seq<State>, events: seq<Event>, m: nat, n: nat)
    requires IsTrace(states, events) && m <= n < |states|
    ensures states[m].now <= states[n].now
    decreases n
  {
    hide Enabled, Step, Initial;
    if m < n {
      ClockAdvances(states, events, m, n - 1);
      ClockStep(states[n - 1], events[n - 1]);
    }
  }

  lemma SendEndsLook(s: State, owner: string, reply: Reply)
    requires Enabled(s, Send(owner, reply))
    ensures owner in Step(s, Send(owner, reply)).sweeps && !Step(s, Send(owner, reply)).sweeps[owner].phase.LookedUp?
  {
  }

  /** Two sweeps delivering to one key are delivering one row. */
  lemma SameScanSameRow(s: State, a: string, b: string)
    requires Inv(s) && InPhase(s, a) && InPhase(s, b) && Head(s, a).row.scanRunId == Head(s, b).row.scanRunId
    ensures Head(s, a).id == Head(s, b).id
  {
    HeadItemInv(s, a);
    HeadItemInv(s, b);
    assert RowsInv(s);
    hide ServerInv, SweepsInv, RowInv, ValidRow;
  }

  lemma CreatorOf(states: seq<State>, events: seq<Event>, key: CheckKey, k: nat)
    requires IsTrace(states, events) && k < |events| && Creates(states[k], events[k], key)
    ensures events[k].Send? && InPhase(states[k], events[k].owner)
    ensures key.externalId == ExternalId(Head(states[k], events[k].owner).row.scanRunId)
  {
    hide Enabled, Step, Initial;
  }

  /** Both creations inside their leases would put one row in two hands under running leases. */
  lemma OverlapNeedsExpiredLease(states: seq<State>, events: seq<Event>, key: CheckKey, j: nat, k: nat)
    requires IsTrace(states, events) && Overlap(states, events, key, j, k)
    ensures SentLate(states, events, j) || SentLate(states, events, k)
  {
    hide Enabled, Step, Initial, Inv;
    CreatorOf(states, events, key, j);
    CreatorOf(states, events, key, k);
    var a, b := events[j].owner, events[k].owner;
    LookStepIsNoSend(states, events, k, b);
    LookedStays(states, events, j, k, b);
    LookedStays(states, events, j + 1, k, b);
    ClockAdvances(states, events, j, k);
    TraceKeepsInv(states, events, j);
    ExternalIdInjective(Head(states[j], a).row.scanRunId, Head(states[j], b).row.scanRunId);
    SameScanSameRow(states[j], a, b);
    SendEndsLook(states[j], a, events[j].reply);
    var id := Head(states[j], a).id;
    assert states[j].sweeps[a].hand[0].id == id && states[j].sweeps[b].hand[0].id == id;
    if InHandUnexpired(states[j], a, id) && InHandUnexpired(states[j], b, id) {
      AtMostOneUnexpiredLease(states, events, j, a, b, id);
    }
  }

  /** The step at which a sweep looked is not itself a send. */
  lemma {:induction false} LookStepIsNoSend(states: seq<State>, events: seq<Event>, n: nat, owner: string)
    requires IsTrace(states, events) && n < |states| && owner in states[n].sweeps
    requires states[n].sweeps[owner].phase.LookedUp?
    ensures states[n].sweeps[owner].phase.lookedAt < n
    ensures events[states[n].sweeps[owner].phase.lookedAt].LookUp?
  {
    hide Enabled, Step, Inv;
    if n > 0 {
      TraceKeepsInv(states, events, n - 1);
      LookedBefore(states[n - 1], events[n - 1], owner);
      if states[n].sweeps[owner].phase != states[n - 1].sweeps[owner].phase || events[n - 1].LookUp? {
        if states[n].sweeps[owner].phase.lookedAt != n - 1 { LookStepIsNoSend(states, events, n - 1, owner); }
      } else {
        LookStepIsNoSend(states, events, n - 1, owner);
      }
    }
  }

  /** A second run for a scan means that one of the two creating requests was sent after its lease. */
  lemma DuplicateNeedsExpiredLease(states: seq<State>, events: seq<Event>, key: CheckKey) returns (j: nat, k: nat)
    requires IsTrace(states, events) && IsOwnKey(key) && |Matches(states[|events|].server, key)| >= 2
    ensures Overlap(states, events, key, j, k) && (SentLate(states, events, j) || SentLate(states, events, k))
  {
    hide Enabled, Step, Initial, Matches, IsOwnKey, Creates;
    DuplicateIffOverlap(states, events, key);
    j, k :| Overlap(states, events, key, j, k);
    OverlapNeedsExpiredLease(states, events, key, j, k);
  }

  lemma SentWithinLeaseCreatesOne(states: seq<State>, events: seq<Event>, key: CheckKey, slack: real)
    requires IsTrace(states, events) && IsOwnKey(key) && slack <= 0.0 && SentWithin(states, events, slack)
    ensures |Matches(states[|events|].server, key)| <= 1
  {
    hide Enabled, Step, Initial, Matches, IsOwnKey, Creates, Overlap;
    if |Matches(states[|events|].server, key)| >= 2 {
      var j, k := DuplicateNeedsExpiredLease(states, events, key);
    }
  }

  // ------------------------------------------------------------------ a late send does harm

  predicate OnlyRowDue(s: State, owner: string, id: nat) {
    && s.table.Keys == {id} && Due(s.table[id], s.now) && s.table[id].checkRunId.None?
    && owner !in s.sweeps && Deliverable(s.scans, s.table[id])
    && Matches(s.server, KeyOf(s.scans, s.table[id])) == {}
  }

  lemma ClaimOnlyRow(s: State, owner: string, id: nat)
    requires OnlyRowDue(s, owner, id)
    ensures Enabled(s, Claim(owner, s.now, {}, [id]))
    ensures var t := Step(s, Claim(owner, s.now, {}, [id]));
            && t.table == s.table[id := ClaimedRow(s.table[id], owner, s.now + LEASE_DURATION)]
            && t.sweeps == s.sweeps[owner := Sweep(s.now + LEASE_DURATION, [Item(id, t.table[id])], Waiting)]
  {
    assert IsClaimSelection(s.table, s.now, {}, SWEEP_BATCH_SIZE, [id]);
    var t := Step(s, Claim(owner, s.now, {}, [id]));
    assert t.sweeps[owner].hand == [Item(id, t.table[id])];
  }

  /** The only row is due: a new sweep can claim it and look it up, finding nothing. */
  lemma ClaimAndLook(states: seq<State>, events: seq<Event>, owner: string, id: nat)
    returns (longer: seq<State>, more: seq<Event>)
    requires IsTrace(states, events) && OnlyRowDue(Last(states), owner, id)
    ensures IsTrace(longer, more)
    ensures var s, t := Last(states), Last(longer);
            && t.table == s.table[id := ClaimedRow(s.table[id], owner, s.now + LEASE_DURATION)]
            && t.scans == s.scans && t.server == s.server && t.now == s.now && t.owners == s.owners + {owner}
            && t.sweeps.Keys == s.sweeps.Keys + {owner}
            && (forall other | other in s.sweeps && other != owner :: t.sweeps[other] == s.sweeps[other])
            && t.sweeps[owner].hand == [Item(id, t.table[id])]
            && t.sweeps[owner].phase.LookedUp? && t.sweeps[owner].phase.resolved.None?
            && t.sweeps[owner].leaseUntil == s.now + LEASE_DURATION
    ensures NothingSent(events) ==> NothingSent(more)
  {
    var claim := Claim(owner, Last(states).now, {}, [id]);
    ClaimOnlyRow(Last(states), owner, id);
    longer, more := ExtendTrace(states, events, claim);
    longer, more := LookAfterClaim(longer, more, owner);
  }

  lemma LookAfterClaim(states: seq<State>, events: seq<Event>, owner: string)
    returns (longer: seq<State>, more: seq<Event>)
    requires IsTrace(states, events)
    requires HeadDeliverable(Last(states), owner) && Last(states).sweeps[owner].phase.Waiting?
    requires Head(Last(states), owner).row.checkRunId.None?
    requires Matches(Last(states).server, HeadKey(Last(states), owner)) == {}
    ensures IsTrace(longer, more)
    ensures var s := Last(states);
            Last(longer) == SetPhase(s, owner, LookedUp(1, None, s.steps + 2)).(steps := s.steps + 3)
    ensures NothingSent(events) ==> NothingSent(more)
  {
    hide Enabled, Step;
    UndisturbedLookUp(Last(states), owner);
    longer, more := ExtendTrace(states, events, Begin(owner));
    longer, more := ExtendTrace(longer, more, Resolve(owner, None));
    longer, more := ExtendTrace(longer, more, LookUp(owner, None));
  }

  lemma UndisturbedLookUp(s: State, owner: string)
    requires HeadDeliverable(s, owner) && s.sweeps[owner].phase.Waiting?
    requires Head(s, owner).row.checkRunId.None? && Matches(s.server, HeadKey(s, owner)) == {}
    ensures Enabled(s, Begin(owner))
    ensures var s1 := Step(s, Begin(owner));
            && Enabled(s1, Resolve(owner, None))
            && var s2 := Step(s1, Resolve(owner, None));
               && Enabled(s2, LookUp(owner, None))
               && Step(s2, LookUp(owner, None))
                  == SetPhase(s, owner, LookedUp(1, None, s.steps + 2)).(steps := s.steps + 3)
  {
    var s1 := Step(s, Begin(owner));
    assert s1 == SetPhase(s, owner, Resolving).(steps := s.steps + 1);
    var s2 := Step(s1, Resolve(owner, None));
    assert s2 == SetPhase(s, owner, Attempting(1)).(steps := s.steps + 2);
  }

  const EXAMPLE_ROW: Row := NewRow(7, GITHUB_CHECK_NAME, Success, "", 0.0)
  const EXAMPLE_SCANS: map<nat, ScanRecord> := map[7 := ScanRecord(Some("acme/app"), Some("c0ffee"))]
  const EXAMPLE_START: State :=
    State(map[], EXAMPLE_SCANS, Server(map[], 1), 0.0, map[], {}, 0, map[], map[])

  /** Two sweeps have looked up the same row, the second this long after the first one's claim. */
  lemma BothLooked(elapsed: real) returns (states: seq<State>, events: seq<Event>)
    requires elapsed > LEASE_DURATION
    ensures IsTrace(states, events) && NothingSent(events)
    ensures var s := Last(states);
            && s.server == Server(map[], 1) && s.scans == EXAMPLE_SCANS && s.now == elapsed
            && "a" in s.sweeps && "b" in s.sweeps
            && s.sweeps["a"].leaseUntil == LEASE_DURATION && s.sweeps["b"].leaseUntil == elapsed + LEASE_DURATION
            && s.sweeps["a"].phase.LookedUp? && s.sweeps["a"].phase.resolved.None?
            && s.sweeps["b"].phase.LookedUp? && s.sweeps["b"].phase.resolved.None?
            && InPhase(s, "a") && InPhase(s, "b")
            && Head(s, "a").row.scanRunId == 7 && Head(s, "b").row.scanRunId == 7
            && Head(s, "a").row.checkName == GITHUB_CHECK_NAME == Head(s, "b").row.checkName
  {
    states, events := ExtendTrace([EXAMPLE_START], [], Create(1, EXAMPLE_ROW));
    states, events := ClaimAndLook(states, events, "a", 1);
    states, events := ExtendTrace(states, events, Tick(elapsed));
    states, events := ClaimAndLook(states, events, "b", 1);
  }

  predicate AboutToCreate(s: State, owner: string, key: CheckKey) {
    && AboutKey(s, owner, key)
    && s.sweeps[owner].phase.LookedUp? && s.sweeps[owner].phase.resolved.None?
  }

  lemma SendCreates(s: State, owner: string, other: string, key: CheckKey)
    requires ValidServer(s.server) && owner != other
    requires AboutToCreate(s, owner, key) && AboutToCreate(s, other, key)
    ensures Enabled(s, Send(owner, Acknowledged(s.server.nextId)))
    ensures var t := Step(s, Send(owner, Acknowledged(s.server.nextId)));
            && ValidServer(t.server) && t.server.nextId == s.server.nextId + 1
            && Matches(t.server, key) == Matches(s.server, key) + {s.server.nextId}
            && AboutToCreate(t, other, key)
  {
    PostedMatches(s.server, key, ReportOf(Head(s, owner).row), key);
  }

  const EXAMPLE_KEY: CheckKey := CheckKey("acme/app", "c0ffee", GITHUB_CHECK_NAME, ExternalId(7))

  /** Whoever looked and saw nothing can send; the run it creates is one more for the key. */
  lemma SendOnce(states: seq<State>, events: seq<Event>, owner: string, other: string, slack: real)
    returns (longer: seq<State>, more: seq<Event>)
    requires IsTrace(states, events) && ValidServer(Last(states).server) && owner != other
    requires AboutToCreate(Last(states), owner, EXAMPLE_KEY) && AboutToCreate(Last(states), other, EXAMPLE_KEY)
    requires SentWithin(states, events, slack) && Last(states).now <= Last(states).sweeps[owner].leaseUntil + slack
    ensures IsTrace(longer, more) && SentWithin(longer, more, slack)
    ensures var s, t := Last(states), Last(longer);
            && ValidServer(t.server) && t.server.nextId == s.server.nextId + 1 && t.now == s.now
            && Matches(t.server, EXAMPLE_KEY) == Matches(s.server, EXAMPLE_KEY) + {s.server.nextId}
            && AboutToCreate(t, other, EXAMPLE_KEY) && t.sweeps[other] == s.sweeps[other]
  {
    SendCreates(Last(states), owner, other, EXAMPLE_KEY);
    hide Enabled, Step, Initial, AboutToCreate, Matches, ValidServer;
    longer, more := ExtendTrace(states, events, Send(owner, Acknowledged(Last(states).server.nextId)));
  }

  /** Sending any time after the lease, however short, lets one scan get two Check Runs. */
  lemma LateSendDuplicates(slack: real) returns (states: seq<State>, events: seq<Event>)
    requires slack > 0.0
    ensures IsTrace(states, events) && IsOwnKey(EXAMPLE_KEY) && SentWithin(states, events, slack)
    ensures |Matches(states[|events|].server, EXAMPLE_KEY)| == 2
  {
    states, events := BothLooked(LEASE_DURATION + slack);
    assert Matches(Last(states).server, EXAMPLE_KEY) == {};
    assert AboutToCreate(Last(states), "a", EXAMPLE_KEY) && AboutToCreate(Last(states), "b", EXAMPLE_KEY);
    hide Enabled, Step, Initial, AboutToCreate, Matches;
    states, events := SendOnce(states, events, "b", "a", slack);
    SendLast(states, events, "a", slack);
    states, events := ExtendTrace(states, events, Send("a", Acknowledged(2)));
    assert {1} + {2} == {1, 2};
  }

  lemma SendLast(states: seq<State>, events: seq<Event>, owner: string, slack: real)
    requires states != [] && AboutToCreate(Last(states), owner, EXAMPLE_KEY) && ValidServer(Last(states).server)
    requires Last(states).server.nextId == 2
    ensures var s, send := Last(states), Send(owner, Acknowledged(2));
            && Enabled(s, send)
            && Matches(Step(s, send).server, EXAMPLE_KEY) == Matches(s.server, EXAMPLE_KEY) + {2}
  {
    PostedMatches(Last(states).server, EXAMPLE_KEY, ReportOf(Head(Last(states), owner).row), EXAMPLE_KEY);
  }

  /**
    Sending no later than `slack` seconds after the lease guarantees one Check Run per scan, in
    every run and for every scan, exactly when no slack is given: the check a sender can make
    before it sends is that its own lease is still running.
  */
  lemma OneRunIffSentWithinLease(slack: real)
    ensures (forall states: seq<State>, events: seq<Event>, key: CheckKey |
               IsTrace(states, events) && IsOwnKey(key) && SentWithin(states, events, slack) ::
               |Matches(states[|events|].server, key)| <= 1)
       <==> slack <= 0.0
  {
    if slack <= 0.0 {
      forall states: seq<State>, events: seq<Event>, key: CheckKey |
        IsTrace(states, events) && IsOwnKey(key) && SentWithin(states, events, slack)
        ensures |Matches(states[|events|].server, key)| <= 1
      {
        SentWithinLeaseCreatesOne(states, events, key, slack);
      }
    } else {
      var states, events := LateSendDuplicates(slack);
    }
  }

  /** In the code nothing keeps a send inside its lease: a duplicate after an expiry is reachable. */
  lemma DuplicatesAreReachable()
    ensures exists states: seq<State>, events: seq<Event>, key: CheckKey, j: nat, k: nat ::
              IsTrace(states, events) && IsOwnKey(key) && |Matches(states[|events|].server, key)| >= 2
              && Overlap(states, events, key, j, k) && (SentLate(states, events, j) || SentLate(states, events, k))
  {
    var states, events := LateSendDuplicates(1.0);
    var j, k := DuplicateNeedsExpiredLease(states, events, EXAMPLE_KEY);
  }
}
