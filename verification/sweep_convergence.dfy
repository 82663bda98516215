/**
  What overlapping deliveries can and cannot do to the Check Run server. Requests are not
  atomic with the lookup before them, so duplicates are possible; this module says exactly
  when, and that every delivery that looks later converges to the run created first.
*/
module SweepConvergence {
  import opened Wrappers
  import opened ChecksClient
  import opened Outbox
  import opened CheckIdentity
  import opened SweepProtocol
  import opened SetSizes

  // ------------------------------------------------------------------ convergence

  lemma {:induction false} CanonicalForever(states: seq<State>, events: seq<Event>, m: nat, n: nat, key: CheckKey,
                                            id: nat)
    requires IsTrace(states, events) && m <= n < |states|
    requires IsCanonical(states[m].server, key, id)
    ensures IsCanonical(states[n].server, key, id)
    decreases n
  {
    hide Initial, Enabled, Step, Inv;
    if m < n {
      CanonicalForever(states, events, m, n - 1, key, id);
      TraceKeepsInv(states, events, n - 1);
      StepExtendsServer(states[n - 1], events[n - 1]);
    }
  }

  predicate AboutKey(s: State, owner: string, key: CheckKey) {
    HeadDeliverable(s, owner) && HeadKey(s, owner) == key
  }

  /** If the sweep looked the key up at step `since` or later, it found `id`. */
  predicate SettledOn(s: State, owner: string, key: CheckKey, id: nat, since: nat)
    requires owner in s.sweeps
  {
    var phase := s.sweeps[owner].phase;
    AboutKey(s, owner, key) ==>
      && (phase.LookedUp? && phase.lookedAt >= since ==> phase.resolved == Some(id))
      && (phase.Published? && phase.lookedAt >= since ==> phase.checkRunId == id)
  }

  predicate Settled(s: State, key: CheckKey, id: nat, since: nat) {
    forall owner | owner in s.sweeps :: SettledOn(s, owner, key, id, since)
  }

  /** How a sweep came to have looked: just now, or before this step. */
  lemma LookedBefore(s: State, e: Event, owner: string)
    requires Inv(s) && Enabled(s, e) && owner in Step(s, e).sweeps
    requires Step(s, e).sweeps[owner].phase.LookedUp?
    ensures owner in s.sweeps && s.sweeps[owner].hand != []
    ensures Step(s, e).sweeps[owner].hand == s.sweeps[owner].hand
    ensures Step(s, e).sweeps[owner].leaseUntil == s.sweeps[owner].leaseUntil
    ensures var phase := Step(s, e).sweeps[owner].phase;
            || (e == LookUp(owner, phase.resolved) && phase.lookedAt == s.steps)
            || phase == s.sweeps[owner].phase
  {
    hide RowsInv, ServerInv, ValidTable, IsClaimSelection, IsCanonical, Matches, ItemInv, FinishedTable, ClaimRows,
         Deliverable;
    assert owner in s.sweeps ==> SweepInv(s.table, s.now, owner, s.sweeps[owner]);
    if e.Begin? { BeginStep(s, e); }
    if e.Finish? { FinishedSweep(s, e); }
    hide SweepsInv, Recorded;
  }

  lemma PublishedBefore(s: State, e: Event, owner: string)
    requires Inv(s) && Enabled(s, e) && owner in Step(s, e).sweeps
    requires Step(s, e).sweeps[owner].phase.Published?
    ensures owner in s.sweeps && s.sweeps[owner].hand != []
    ensures Step(s, e).sweeps[owner].hand == s.sweeps[owner].hand
    ensures var phase, before := Step(s, e).sweeps[owner].phase, s.sweeps[owner].phase;
            || phase == before
            || (before.LookedUp? && before.lookedAt == phase.lookedAt
                && (before.resolved.Some? ==> phase.checkRunId == before.resolved.value))
  {
    hide RowsInv, ServerInv, ValidTable, IsClaimSelection, IsCanonical, Matches, Recorded, ReplyPossible, ItemInv,
         FinishedTable, ClaimRows, Deliverable;
    assert owner in s.sweeps ==> SweepInv(s.table, s.now, owner, s.sweeps[owner]);
    if e.Send? {
      SentSweep(s, e.owner, e.reply);
    } else if e.Begin? {
      BeginStep(s, e);
    } else if e.Finish? {
      FinishedSweep(s, e);
    }
  }

  lemma FinishedSweep(s: State, e: Event)
    requires Enabled(s, e) && e.Finish?
    ensures Step(s, e).sweeps
         == s.sweeps[e.owner := s.sweeps[e.owner].(hand := s.sweeps[e.owner].hand[1..], phase := Waiting)]
  {
  }

  lemma SentSweep(s: State, owner: string, reply: Reply)
    requires Enabled(s, Send(owner, reply))
    ensures exists phase ::
              && Step(s, Send(owner, reply)).sweeps == s.sweeps[owner := s.sweeps[owner].(phase := phase)]
              && (phase.Published? ==>
                    phase.lookedAt == s.sweeps[owner].phase.lookedAt
                    && (s.sweeps[owner].phase.resolved.Some? ==>
                          phase.checkRunId == s.sweeps[owner].phase.resolved.value))
  {
    assert Step(s, Send(owner, reply)).sweeps
        == s.sweeps[owner := s.sweeps[owner].(phase := Step(s, Send(owner, reply)).sweeps[owner].phase)];
  }

  lemma LookUpFindsCanonical(s: State, owner: string, resolved: Option<nat>, key: CheckKey, id: nat)
    requires Inv(s) && Enabled(s, LookUp(owner, resolved))
    requires AboutKey(s, owner, key) && IsCanonical(s.server, key, id)
    ensures resolved == Some(id)
  {
    HeadItemInv(s, owner);
  }

  /** A sweep that did not move keeps the key it is about. */
  lemma KeyKept(s: State, e: Event, owner: string)
    requires Inv(s) && Enabled(s, e) && owner in s.sweeps && owner in Step(s, e).sweeps
    requires s.sweeps[owner].hand != [] && Step(s, e).sweeps[owner].hand == s.sweeps[owner].hand
    ensures HeadDeliverable(s, owner) && HeadDeliverable(Step(s, e), owner)
    ensures HeadKey(Step(s, e), owner) == HeadKey(s, owner)
  {
    HeadItemInv(s, owner);
    KeysStable(s, e, Head(s, owner).row, Head(s, owner).id);
  }

  lemma StepKeepsSettledOn(s: State, e: Event, owner: string, key: CheckKey, id: nat, since: nat)
    requires Inv(s) && Enabled(s, e) && IsCanonical(s.server, key, id) && since <= s.steps
    requires Settled(s, key, id, since) && owner in Step(s, e).sweeps
    ensures SettledOn(Step(s, e), owner, key, id, since)
  {
    var phase := Step(s, e).sweeps[owner].phase;
    if AboutKey(Step(s, e), owner, key) && (phase.LookedUp? || phase.Published?) {
      if phase.LookedUp? { LookedBefore(s, e, owner); } else { PublishedBefore(s, e, owner); }
      KeyKept(s, e, owner);
      assert AboutKey(s, owner, key) && SettledOn(s, owner, key, id, since);
      if e.LookUp? && e.owner == owner { LookUpFindsCanonical(s, owner, e.resolved, key, id); }
    }
  }

  lemma StepKeepsSettled(s: State, e: Event, key: CheckKey, id: nat, since: nat)
    requires Inv(s) && Enabled(s, e) && IsCanonical(s.server, key, id) && since <= s.steps
    requires Settled(s, key, id, since)
    ensures Settled(Step(s, e), key, id, since)
  {
    forall owner | owner in Step(s, e).sweeps ensures SettledOn(Step(s, e), owner, key, id, since) {
      StepKeepsSettledOn(s, e, owner, key, id, since);
    }
  }

  /** Nobody has looked in the future. */
  lemma SettledNow(s: State, key: CheckKey, id: nat)
    requires Inv(s)
    ensures Settled(s, key, id, s.steps)
  {
    forall owner | owner in s.sweeps ensures SettledOn(s, owner, key, id, s.steps) {
      assert PhaseInv(s.scans, s.server, s.steps, s.sweeps[owner]);
    }
  }

  lemma {:induction false} SettledFrom(states: seq<State>, events: seq<Event>, m: nat, n: nat, key: CheckKey, id: nat)
    requires IsTrace(states, events) && m <= n < |states|
    requires IsCanonical(states[m].server, key, id)
    ensures Settled(states[n], key, id, m)
    decreases n
  {
    hide Initial, Enabled, Step, Inv, IsCanonical, Settled;
    if m < n {
      SettledFrom(states, events, m, n - 1, key, id);
      CanonicalForever(states, events, m, n - 1, key, id);
      TraceKeepsInv(states, events, n - 1);
      StepKeepsSettled(states[n - 1], events[n - 1], key, id, m);
    } else {
      TraceKeepsInv(states, events, n);
      SettledNow(states[n], key, id);
    }
  }

  /**
    Once a run exists for a row, every delivery whose lookup starts later updates the lowest-id
    run and creates none, whatever crashed, expired or went unacknowledged before.
  */
  lemma LateDeliveryUpdatesCanonical(states: seq<State>, events: seq<Event>, m: nat, k: nat, key: CheckKey, id: nat)
    requires IsTrace(states, events) && m <= k < |events|
    requires IsCanonical(states[m].server, key, id)
    requires events[k].Send? && AboutKey(states[k], events[k].owner, key)
    requires states[k].sweeps[events[k].owner].phase.lookedAt >= m
    ensures states[k].sweeps[events[k].owner].phase.resolved == Some(id)
    ensures states[k + 1].server.runs.Keys == states[k].server.runs.Keys
    ensures !events[k].reply.Refused? ==>
              id in states[k + 1].server.runs
              && states[k + 1].server.runs[id] == Requested(key, ReportOf(Head(states[k], events[k].owner).row))
  {
    SettledFrom(states, events, m, k, key, id);
    CanonicalForever(states, events, m, k, key, id);
    TraceKeepsInv(states, events, k);
    SendToCanonical(states[k], events[k].owner, events[k].reply, key, id, m);
  }

  lemma SendToCanonical(s: State, owner: string, reply: Reply, key: CheckKey, id: nat, since: nat)
    requires Inv(s) && Enabled(s, Send(owner, reply)) && AboutKey(s, owner, key)
    requires IsCanonical(s.server, key, id) && Settled(s, key, id, since)
    requires s.sweeps[owner].phase.lookedAt >= since
    ensures s.sweeps[owner].phase.resolved == Some(id)
    ensures var server, row := Step(s, Send(owner, reply)).server, Head(s, owner).row;
            && server.runs.Keys == s.server.runs.Keys
            && (!reply.Refused? ==> id in server.runs && server.runs[id] == Requested(key, ReportOf(row)))
  {
    hide RowsInv, SweepsInv;
    assert SettledOn(s, owner, key, id, since);
    PatchedMatches(s.server, id, key, ReportOf(Head(s, owner).row), key);
  }

  /** And what such a delivery records in the row is the canonical run's id. */
  lemma LateDeliveryRecordsCanonical(states: seq<State>, events: seq<Event>, m: nat, k: nat, key: CheckKey, id: nat)
    requires IsTrace(states, events) && m <= k < |events|
    requires IsCanonical(states[m].server, key, id)
    requires events[k].Finish? && AboutKey(states[k], events[k].owner, key)
    requires states[k].sweeps[events[k].owner].phase.Published?
    requires states[k].sweeps[events[k].owner].phase.lookedAt >= m
    requires Holds(states[k].table, Head(states[k], events[k].owner).id, events[k].owner)
    ensures var row := Head(states[k], events[k].owner).id;
            && row in states[k + 1].table
            && states[k + 1].table[row].status == Delivered
            && states[k + 1].table[row].checkRunId == Some(id)
  {
    SettledFrom(states, events, m, k, key, id);
    TraceKeepsInv(states, events, k);
    assert SettledOn(states[k], events[k].owner, key, id, m);
    FinishedRow(states[k], events[k].owner, events[k].draw);
  }

  // ------------------------------------------------------------------ duplicates

  /** This step makes the server create a run for the key. */
  predicate Creates(s: State, e: Event, key: CheckKey) {
    && e.Send? && !e.reply.Refused? && AboutKey(s, e.owner, key)
    && s.sweeps[e.owner].phase.LookedUp? && s.sweeps[e.owner].phase.resolved.None?
  }

  ghost predicate IsOwnKey(key: CheckKey) {
    exists scanRunId: nat :: key.externalId == ExternalId(scanRunId)
  }

  lemma MatchesOverStep(s: State, e: Event, key: CheckKey)
    requires Inv(s) && Enabled(s, e) && IsOwnKey(key)
    ensures Matches(Step(s, e).server, key)
         == if Creates(s, e, key) then Matches(s.server, key) + {s.server.nextId} else Matches(s.server, key)
  {
    hide RowsInv, SweepsInv, FinishedTable, IsClaimSelection, ClaimRows, ValidTable;
    var t := Step(s, e);
    if e.ForeignRun? {
      forall id ensures id in Matches(t.server, key) <==> id in Matches(s.server, key) { }
    } else if e.Send? {
      assert PhaseInv(s.scans, s.server, s.steps, s.sweeps[e.owner]);
      var about := HeadKey(s, e.owner);
      var report := ReportOf(Head(s, e.owner).row);
      var resolved := s.sweeps[e.owner].phase.resolved;
      if !e.reply.Refused? {
        if resolved.Some? { PatchedMatches(s.server, resolved.value, about, report, key); }
        else { PostedMatches(s.server, about, report, key); }
      }
    } else {
      if e.Begin? { HeadAlwaysDeliverable(s, e.owner); }
      assert t.server == s.server;
    }
  }

  lemma NextRunUnmatched(s: State, key: CheckKey)
    requires Inv(s)
    ensures s.server.nextId !in Matches(s.server, key)
  {
  }

  lemma OneMore(members: set<nat>, id: nat)
    requires id !in members
    ensures |members + {id}| == |members| + 1
  {
  }

  lemma MatchCountOverStep(s: State, e: Event, key: CheckKey)
    requires Inv(s) && Enabled(s, e) && IsOwnKey(key)
    ensures |Matches(Step(s, e).server, key)| == |Matches(s.server, key)| + if Creates(s, e, key) then 1 else 0
  {
    hide Enabled, Step, Inv, IsOwnKey, Matches, Creates;
    NextRunUnmatched(s, key);
    MatchesOverStep(s, e, key);
    OneMore(Matches(s.server, key), s.server.nextId);
  }

  ghost function CreationsBefore(states: seq<State>, events: seq<Event>, key: CheckKey, n: nat): set<nat>
    requires |states| == |events| + 1 && n <= |events|
  {
    set j | 0 <= j < n && Creates(states[j], events[j], key)
  }

  lemma CreationsStep(states: seq<State>, events: seq<Event>, key: CheckKey, n: nat)
    requires |states| == |events| + 1 && n < |events|
    ensures CreationsBefore(states, events, key, n + 1)
         == CreationsBefore(states, events, key, n) + if Creates(states[n], events[n], key) then {n} else {}
    ensures n !in CreationsBefore(states, events, key, n)
  {
  }

  lemma NoCreationsAtStart(states: seq<State>, events: seq<Event>, key: CheckKey)
    requires |states| == |events| + 1
    ensures CreationsBefore(states, events, key, 0) == {}
  {
  }

  lemma NoneInitially(s: State, key: CheckKey)
    requires Initial(s) && IsOwnKey(key)
    ensures Matches(s.server, key) == {}
  {
    assert forall id | id in s.server.runs :: IsForeign(s.server.runs[id]);
  }

  /** Conservation: the server has exactly one run per creating step. */
  lemma {:induction false} RunsAreCreations(states: seq<State>, events: seq<Event>, key: CheckKey, n: nat)
    requires IsTrace(states, events) && n < |states| && IsOwnKey(key)
    ensures |Matches(states[n].server, key)| == |CreationsBefore(states, events, key, n)|
  {
    hide Initial, Enabled, Step, Inv, Matches, Creates, CreationsBefore;
    if n == 0 {
      NoneInitially(states[0], key);
      NoCreationsAtStart(states, events, key);
    } else {
      RunsAreCreations(states, events, key, n - 1);
      TraceKeepsInv(states, events, n - 1);
      MatchCountOverStep(states[n - 1], events[n - 1], key);
      CreationsStep(states, events, key, n - 1);
    }
  }

  lemma LookUpSawNothing(s: State, owner: string)
    requires Inv(s) && Enabled(s, LookUp(owner, None))
    ensures HeadDeliverable(s, owner) && Matches(s.server, HeadKey(s, owner)) == {}
  {
    HeadItemInv(s, owner);
  }

  /** A sweep about to create a run saw none when it looked. */
  lemma {:induction false} LookedAndSawNothing(states: seq<State>, events: seq<Event>, n: nat, owner: string)
    requires IsTrace(states, events) && n < |states| && owner in states[n].sweeps
    requires states[n].sweeps[owner].phase.LookedUp? && states[n].sweeps[owner].phase.resolved.None?
    ensures HeadDeliverable(states[n], owner)
    ensures states[n].sweeps[owner].phase.lookedAt < n
    ensures Matches(states[states[n].sweeps[owner].phase.lookedAt].server, HeadKey(states[n], owner)) == {}
  {
    hide Enabled, Step, Inv;
    if n > 0 {
      TraceKeepsInv(states, events, n - 1);
      var s, e := states[n - 1], events[n - 1];
      LookedBefore(s, e, owner);
      KeyKept(s, e, owner);
      if e == LookUp(owner, None) && states[n].sweeps[owner].phase.lookedAt == s.steps {
        LookUpSawNothing(s, owner);
      } else {
        LookedAndSawNothing(states, events, n - 1, owner);
      }
    }
  }

  /** The creation at step `k` overlaps the one at `j`: it had looked before `j` happened. */
  predicate Overlap(states: seq<State>, events: seq<Event>, key: CheckKey, j: nat, k: nat)
    requires |states| == |events| + 1
  {
    && j < k < |events|
    && Creates(states[j], events[j], key) && Creates(states[k], events[k], key)
    && states[k].sweeps[events[k].owner].phase.lookedAt <= j
  }

  lemma TwoMembers(numbers: set<nat>) returns (low: nat, high: nat)
    requires |numbers| >= 2
    ensures low < high && low in numbers && high in numbers
  {
    var a :| a in numbers;
    assert |numbers - {a}| >= 1;
    var b :| b in numbers - {a};
    low, high := if a < b then a else b, if a < b then b else a;
  }

  lemma LaterCreationOverlaps(states: seq<State>, events: seq<Event>, key: CheckKey, j: nat, k: nat)
    requires IsTrace(states, events) && IsOwnKey(key) && j < k < |events|
    requires Creates(states[j], events[j], key) && Creates(states[k], events[k], key)
    ensures Overlap(states, events, key, j, k)
  {
    hide Initial, Enabled, Step, Matches;
    LookedAndSawNothing(states, events, k, events[k].owner);
    var looked := states[k].sweeps[events[k].owner].phase.lookedAt;
    assert j < looked ==> j in CreationsBefore(states, events, key, looked);
    RunsAreCreations(states, events, key, looked);
  }

  /**
    A scan ends up with more than one Check Run exactly when two of its deliveries overlapped:
    the second had looked before the first one's creation reached the server. Deliveries that
    do not overlap therefore create at most one run per scan.
  */
  lemma DuplicateIffOverlap(states: seq<State>, events: seq<Event>, key: CheckKey)
    requires IsTrace(states, events) && IsOwnKey(key)
    ensures |Matches(states[|events|].server, key)| >= 2 <==> exists j, k :: Overlap(states, events, key, j, k)
  {
    hide Enabled, Step, Matches, Creates, IsOwnKey, AboutKey;
    var creations := CreationsBefore(states, events, key, |events|);
    RunsAreCreations(states, events, key, |events|);
    if |creations| >= 2 {
      var j, k := TwoMembers(creations);
      LaterCreationOverlaps(states, events, key, j, k);
    }
    if j, k :| Overlap(states, events, key, j, k) {
      assert {j, k} <= creations;
      SubsetSize({j, k}, creations);
    }
  }
}
