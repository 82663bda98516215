/**
  What the sweeps guarantee, now of runs of the whole system: nothing is assumed any more about
  the scans they read, because the lifecycle that writes them is part of the run.
*/
module SystemConvergence {
  import opened Wrappers
  import opened ScanPublication
  import ChecksClient
  import Outbox
  import ScanLifecycle
  import SweepProtocol
  import SweepConvergence
  import SweepLeases

  // ------------------------------------------------------------------ a run projects to a trace

  /**
    The trace passes through what the sweeps were at every moment of the run up to `n`, makes
    the sweeps' actions there, and sends nothing else. A state's step count is its position.
  */
  ghost predicate Covers(run: seq<System>, actions: seq<Action>, n: nat, states: seq<SweepProtocol.State>,
                         events: seq<SweepProtocol.Event>)
    requires |run| == |actions| + 1 && n < |run|
  {
    && SweepProtocol.IsTrace(states, events) && |states| == |events| + 1
    && (forall i: nat | i <= n :: run[i].sweeps.steps <= |events| && states[run[i].sweeps.steps] == run[i].sweeps)
    && (forall i: nat | i < n && actions[i].SweepStep? ::
          && run[i].sweeps.steps < |events| && events[run[i].sweeps.steps] == actions[i].sweepEvent
          && states[run[i].sweeps.steps + 1] == run[i + 1].sweeps)
    && (forall j: nat | j < |events| && events[j].Send? :: IsActionOf(run, actions, n, states[j], events[j]))
  }

  predicate IsActionOf(run: seq<System>, actions: seq<Action>, n: nat, u: SweepProtocol.State, e: SweepProtocol.Event)
    requires |run| == |actions| + 1 && n < |run|
  {
    exists i: nat :: i < n && actions[i] == SweepStep(e) && run[i].sweeps == u
  }

  /** One more event that is no request: everything covered stays covered. */
  lemma CoversMore(run: seq<System>, actions: seq<Action>, n: nat, states: seq<SweepProtocol.State>,
                   events: seq<SweepProtocol.Event>, e: SweepProtocol.Event)
    returns (longer: seq<SweepProtocol.State>, more: seq<SweepProtocol.Event>)
    requires |run| == |actions| + 1 && n < |run| && Covers(run, actions, n, states, events)
    requires SweepProtocol.Enabled(SweepProtocol.Last(states), e) && !e.Send?
    ensures Covers(run, actions, n, longer, more) && more == events + [e]
    ensures SweepProtocol.Last(longer) == SweepProtocol.Step(SweepProtocol.Last(states), e)
  {
    hide SweepProtocol.Enabled, SweepProtocol.Step, SweepProtocol.Initial, IsActionOf;
    longer, more := SweepProtocol.ExtendTrace(states, events, e);
  }

  lemma ActionStays(run: seq<System>, actions: seq<Action>, n: nat, u: SweepProtocol.State, e: SweepProtocol.Event)
    requires |run| == |actions| + 1 && n + 1 < |run| && IsActionOf(run, actions, n, u, e)
    ensures IsActionOf(run, actions, n + 1, u, e)
  {
  }

  /** The run moves on to where the trace already is. */
  lemma CoversNext(run: seq<System>, actions: seq<Action>, n: nat, states: seq<SweepProtocol.State>,
                   events: seq<SweepProtocol.Event>)
    requires |run| == |actions| + 1 && n < |actions| && Covers(run, actions, n, states, events)
    requires SweepProtocol.Last(states) == run[n + 1].sweeps && actions[n].LifecycleStep?
    ensures Covers(run, actions, n + 1, states, events)
  {
    SweepProtocol.TraceKeepsInv(states, events, |events|);
    hide SweepProtocol.IsTrace, IsActionOf, SweepProtocol.Inv;
    forall j: nat | j < |events| && events[j].Send? ensures IsActionOf(run, actions, n + 1, states[j], events[j]) {
      ActionStays(run, actions, n, states[j], events[j]);
    }
  }

  lemma SentByAction(run: seq<System>, actions: seq<Action>, n: nat)
    requires |run| == |actions| + 1 && n < |actions| && actions[n].SweepStep?
    ensures IsActionOf(run, actions, n + 1, run[n].sweeps, actions[n].sweepEvent)
  {
    assert actions[n] == SweepStep(actions[n].sweepEvent);
  }

  lemma CoversAction(run: seq<System>, actions: seq<Action>, n: nat, states: seq<SweepProtocol.State>,
                     events: seq<SweepProtocol.Event>)
    returns (longer: seq<SweepProtocol.State>, more: seq<SweepProtocol.Event>)
    requires |run| == |actions| + 1 && n < |actions| && Covers(run, actions, n, states, events)
    requires SweepProtocol.Last(states) == run[n].sweeps
    requires actions[n].SweepStep? && SweepProtocol.Enabled(run[n].sweeps, actions[n].sweepEvent)
    requires run[n + 1].sweeps == SweepProtocol.Step(run[n].sweeps, actions[n].sweepEvent)
    ensures Covers(run, actions, n + 1, longer, more) && SweepProtocol.Last(longer) == run[n + 1].sweeps
  {
    hide SweepProtocol.IsTrace, SweepProtocol.Enabled, SweepProtocol.Step, SweepProtocol.Inv, IsActionOf;
    SweepProtocol.TraceKeepsInv(states, events, |events|);
    longer, more := SweepProtocol.ExtendTrace(states, events, actions[n].sweepEvent);
    SweepProtocol.TraceKeepsInv(longer, more, |more|);
    SentByAction(run, actions, n);
    forall j: nat | j < |more| && more[j].Send? ensures IsActionOf(run, actions, n + 1, longer[j], more[j]) {
      if j < |events| {
        assert IsActionOf(run, actions, n, states[j], events[j]);
        ActionStays(run, actions, n, states[j], events[j]);
      }
    }
  }

  /** Every run of the system is, for the sweeps, one of the runs their results are about. */
  lemma {:induction false} RunProjects(run: seq<System>, actions: seq<Action>, n: nat)
    returns (states: seq<SweepProtocol.State>, events: seq<SweepProtocol.Event>)
    requires IsRun(run, actions) && n < |run|
    ensures Covers(run, actions, n, states, events) && SweepProtocol.Last(states) == run[n].sweeps
  {
    hide SweepProtocol.Enabled, SweepProtocol.Step, Covers, ScanLifecycle.Initial, SweepProtocol.IsTrace;
    if n == 0 {
      states, events := [run[0].sweeps], [];
      CoversStart(run, actions);
    } else {
      states, events := RunProjects(run, actions, n - 1);
      assert Next(run[n - 1], actions[n - 1], run[n]);
      if actions[n - 1].SweepStep? {
        states, events := CoversAction(run, actions, n - 1, states, events);
      } else {
        states, events := CoversTransaction(run, actions, n - 1, states, events);
      }
    }
  }

  lemma CoversStart(run: seq<System>, actions: seq<Action>)
    requires IsRun(run, actions)
    ensures Covers(run, actions, 0, [run[0].sweeps], [])
  {
  }

  /** A lifecycle transaction is one or two events of the sweeps' trace, and no request. */
  lemma CoversTransaction(run: seq<System>, actions: seq<Action>, n: nat, states: seq<SweepProtocol.State>,
                          events: seq<SweepProtocol.Event>)
    returns (longer: seq<SweepProtocol.State>, more: seq<SweepProtocol.Event>)
    requires |run| == |actions| + 1 && n < |actions| && actions[n].LifecycleStep?
    requires Next(run[n], actions[n], run[n + 1])
    requires Covers(run, actions, n, states, events) && SweepProtocol.Last(states) == run[n].sweeps
    ensures Covers(run, actions, n + 1, longer, more) && SweepProtocol.Last(longer) == run[n + 1].sweeps
  {
    hide SweepProtocol.Enabled, SweepProtocol.Step, ScanLifecycle.Enabled, ScanLifecycle.Step, Covers, ScanRecords,
         SweepProtocol.IsTrace;
    var db := run[n + 1].life.db;
    var renew := SweepProtocol.UpdateScans(ScanRecords(db.repos, db.runs));
    longer, more := CoversMore(run, actions, n, states, events, renew);
    if db.outbox != run[n].sweeps.table {
      var w := SweepProtocol.Step(run[n].sweeps, renew);
      var id :|
        && id in db.outbox && db.outbox == run[n].sweeps.table[id := db.outbox[id]]
        && SweepProtocol.Enabled(w, SweepProtocol.Create(id, db.outbox[id]))
        && run[n + 1].sweeps == SweepProtocol.Step(w, SweepProtocol.Create(id, db.outbox[id]));
      longer, more := CoversMore(run, actions, n, longer, more, SweepProtocol.Create(id, db.outbox[id]));
    }
    CoversNext(run, actions, n, longer, more);
  }

  // ------------------------------------------------------------------ what follows for runs of the system

  /** The sweep of action `k` is about to send for the key, having looked it up at or after moment `m`. */
  ghost predicate SendsAfterLook(run: seq<System>, actions: seq<Action>, m: nat, k: nat, key: ChecksClient.CheckKey)
    requires |run| == |actions| + 1 && m <= k < |actions|
  {
    && actions[k].SweepStep? && actions[k].sweepEvent.Send?
    && SweepConvergence.AboutKey(run[k].sweeps, actions[k].sweepEvent.owner, key)
    && run[k].sweeps.sweeps[actions[k].sweepEvent.owner].phase.LookedUp?
    && run[k].sweeps.sweeps[actions[k].sweepEvent.owner].phase.lookedAt >= run[m].sweeps.steps
  }

  /**
    Once a Check Run exists for a scan, every delivery that looks later updates the lowest one
    and creates none, in every run of lifecycle and sweeps together.
  */
  lemma LateDeliveryUpdatesCanonical(run: seq<System>, actions: seq<Action>, m: nat, k: nat, key: ChecksClient.CheckKey,
                                     id: nat)
    requires IsRun(run, actions) && m <= k < |actions|
    requires ChecksClient.IsCanonical(run[m].sweeps.server, key, id) && SendsAfterLook(run, actions, m, k, key)
    ensures var u, owner := run[k].sweeps, actions[k].sweepEvent.owner;
            && u.sweeps[owner].phase.resolved == Some(id)
            && run[k + 1].sweeps.server.runs.Keys == u.server.runs.Keys
            && (!actions[k].sweepEvent.reply.Refused? ==>
                  id in run[k + 1].sweeps.server.runs
                  && run[k + 1].sweeps.server.runs[id]
                     == ChecksClient.Requested(key, SweepProtocol.ReportOf(SweepProtocol.Head(u, owner).row)))
  {
    hide Next, SweepProtocol.IsTrace, ChecksClient.IsCanonical, SweepConvergence.AboutKey;
    var states, events := RunProjects(run, actions, |actions|);
    var from, at := run[m].sweeps.steps, run[k].sweeps.steps;
    HeadOfKey(run[k].sweeps, actions[k].sweepEvent.owner, key);
    SweepLeases.LookStepIsNoSend(states, events, at, actions[k].sweepEvent.owner);
    SweepConvergence.LateDeliveryUpdatesCanonical(states, events, from, at, key, id);
  }

  lemma HeadOfKey(u: SweepProtocol.State, owner: string, key: ChecksClient.CheckKey)
    requires SweepConvergence.AboutKey(u, owner, key)
    ensures SweepProtocol.InPhase(u, owner)
  {
  }

  /** Every request goes out while its sweep's lease is running. */
  predicate SentInLease(run: seq<System>, actions: seq<Action>)
    requires |run| == |actions| + 1
  {
    forall i | 0 <= i < |actions| && actions[i].SweepStep? && actions[i].sweepEvent.Send?
               && actions[i].sweepEvent.owner in run[i].sweeps.sweeps ::
      run[i].sweeps.now <= run[i].sweeps.sweeps[actions[i].sweepEvent.owner].leaseUntil
  }

  lemma ProjectedInLease(run: seq<System>, actions: seq<Action>, states: seq<SweepProtocol.State>,
                         events: seq<SweepProtocol.Event>)
    requires |run| == |actions| + 1 && Covers(run, actions, |actions|, states, events) && SentInLease(run, actions)
    ensures SweepLeases.SentWithin(states, events, 0.0)
  {
    hide SweepProtocol.IsTrace;
    forall j: nat | j < |events| && events[j].Send? && events[j].owner in states[j].sweeps
      ensures states[j].now <= states[j].sweeps[events[j].owner].leaseUntil + 0.0
    {
      assert IsActionOf(run, actions, |actions|, states[j], events[j]);
      var i: nat :| i < |actions| && actions[i] == SweepStep(events[j]) && run[i].sweeps == states[j];
    }
  }

  /** If nobody sends after its lease, the system never makes two Check Runs for one scan. */
  lemma SentInLeaseMakesOneRun(run: seq<System>, actions: seq<Action>, key: ChecksClient.CheckKey)
    requires IsRun(run, actions) && SweepConvergence.IsOwnKey(key) && SentInLease(run, actions)
    ensures |ChecksClient.Matches(run[|actions|].sweeps.server, key)| <= 1
  {
    var states, events := RunProjects(run, actions, |actions|);
    ProjectedInLease(run, actions, states, events);
    SweepLeases.SentWithinLeaseCreatesOne(states, events, key, 0.0);
  }

  /** Two sweeps never both have a publication in hand under a running lease. */
  lemma AtMostOneUnexpiredLease(run: seq<System>, actions: seq<Action>, n: nat, a: string, b: string, id: nat)
    requires IsRun(run, actions) && n < |run|
    requires SweepProtocol.InHandUnexpired(run[n].sweeps, a, id) && SweepProtocol.InHandUnexpired(run[n].sweeps, b, id)
    ensures a == b && id in run[n].life.db.outbox && run[n].life.db.outbox[id].leasedBy == Some(a)
  {
    RunKeepsSystem(run, actions, n);
    var states, events := RunProjects(run, actions, n);
    SweepProtocol.AtMostOneUnexpiredLease(states, events, |events|, a, b, id);
  }

  /** A publication is attempted at most twelve times and once more per replay. */
  lemma AttemptsBounded(run: seq<System>, actions: seq<Action>, n: nat, id: nat)
    requires IsRun(run, actions) && n < |run| && id in run[n].life.db.outbox
    ensures var u, row := run[n].sweeps, run[n].life.db.outbox[id];
            && id in u.replays && row.attemptCount <= 12 + u.replays[id]
            && (row.attemptCount >= 12 + u.replays[id] ==> row.status in {Outbox.Delivered, Outbox.Dead})
  {
    RunKeepsSystem(run, actions, n);
    var states, events := RunProjects(run, actions, n);
    SweepProtocol.AttemptsBounded(states, events, |events|, id);
  }
}
