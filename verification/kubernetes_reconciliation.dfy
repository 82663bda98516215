/** The sweep that removes the Jobs and claims of scans nobody will come back for. */
module KubernetesReconciliation {
  import opened Wrappers
  import opened KubernetesCluster

  datatype Report = Report(deletedJobNames: seq<string>, deletedPvcNames: seq<string>)

  function Orphans(names: seq<string>, active: set<string>): (r: seq<string>)
    ensures forall name :: name in r <==> name in names && name !in active
    ensures (forall name | name in names :: name in active) ==> r == []
  {
    if names == [] then []
    else if names[0] in active then Orphans(names[1..], active)
    else [names[0]] + Orphans(names[1..], active)
  }

  lemma {:induction false} OrphansListed(names: seq<string>, all: set<string>, active: set<string>)
    requires IsListing(names, all)
    ensures IsListing(Orphans(names, active), all - active)
  {
    if names != [] {
      assert forall name :: name in names[1..] <==> name in all - {names[0]};
      OrphansListed(names[1..], all - {names[0]}, active);
    }
  }

  predicate OnlyDeletesOrphans(calls: seq<Call>, active: set<string>) {
    forall i | 0 <= i < |calls| :: (calls[i].DeleteJob? || calls[i].DeletePvc?) && calls[i].name !in active
  }

  function JobDeletes(names: seq<string>): seq<Call> {
    seq(|names|, i requires 0 <= i < |names| => DeleteJob(names[i], true))
  }

  function PvcDeletes(names: seq<string>): seq<Call> {
    seq(|names|, i requires 0 <= i < |names| => DeletePvc(names[i], true))
  }

  ghost predicate SomeRaised(calls: seq<Call>) { exists i :: 0 <= i < |calls| && Raised(calls[i]) }

  lemma NoneRaised(jobs: seq<string>, pvcs: seq<string>)
    ensures !SomeRaised(JobDeletes(jobs) + PvcDeletes(pvcs))
  {
  }

  lemma LastRaised(calls: seq<Call>)
    requires calls != [] && Raised(calls[|calls| - 1])
    ensures SomeRaised(calls)
  {
  }

  /** Delete each listed Job; raising leaves the rest. */
  method DeleteJobs(cluster: Cluster, names: seq<string>, active: set<string>) returns (ok: bool)
    requires cluster.own <= active && OnlyDeletesOrphans(cluster.calls, active)
    requires forall name | name in names :: name !in active
    modifies cluster`jobs, cluster`pvcs, cluster`calls
    ensures ok ==> cluster.calls == old(cluster.calls) + JobDeletes(names)
    ensures !ok ==> cluster.calls != [] && Raised(cluster.calls[|cluster.calls| - 1])
    ensures OnlyDeletesOrphans(cluster.calls, active)
    ensures cluster.jobs * cluster.own == old(cluster.jobs * cluster.own)
    ensures cluster.pvcs * cluster.own == old(cluster.pvcs * cluster.own)
    ensures !cluster.interfering && ok ==>
              cluster.jobs == old(cluster.jobs) - (set name | name in names) && cluster.pvcs == old(cluster.pvcs)
  {
    ghost var own := cluster.own;
    for i := 0 to |names|
      invariant OnlyDeletesOrphans(cluster.calls, active)
      invariant cluster.calls == old(cluster.calls) + JobDeletes(names[..i])
      invariant cluster.jobs * own == old(cluster.jobs * own) && cluster.pvcs * own == old(cluster.pvcs * own)
      invariant !cluster.interfering ==>
                  && cluster.jobs == old(cluster.jobs) - (set name | name in names[..i])
                  && cluster.pvcs == old(cluster.pvcs)
    {
      assert names[i] in names && names[i] !in own;
      ghost var before := cluster.jobs * own;
      ok := cluster.RemoveJob(names[i]);
      assert before - {names[i]} == before && cluster.jobs * own - {names[i]} == cluster.jobs * own;
      if !ok {
        assert cluster.calls == old(cluster.calls) + JobDeletes(names[..i]) + [DeleteJob(names[i], false)];
        return;
      }
      assert names[..i + 1] == names[..i] + [names[i]];
      assert JobDeletes(names[..i + 1]) == JobDeletes(names[..i]) + [DeleteJob(names[i], true)];
    }
    assert names[..|names|] == names;
    ok := true;
  }

  method DeletePvcs(cluster: Cluster, names: seq<string>, active: set<string>) returns (ok: bool)
    requires cluster.own <= active && OnlyDeletesOrphans(cluster.calls, active)
    requires forall name | name in names :: name !in active
    modifies cluster`jobs, cluster`pvcs, cluster`calls
    ensures ok ==> cluster.calls == old(cluster.calls) + PvcDeletes(names)
    ensures !ok ==> cluster.calls != [] && Raised(cluster.calls[|cluster.calls| - 1])
    ensures OnlyDeletesOrphans(cluster.calls, active)
    ensures cluster.jobs * cluster.own == old(cluster.jobs * cluster.own)
    ensures cluster.pvcs * cluster.own == old(cluster.pvcs * cluster.own)
    ensures !cluster.interfering && ok ==>
              cluster.pvcs == old(cluster.pvcs) - (set name | name in names) && cluster.jobs == old(cluster.jobs)
  {
    ghost var own := cluster.own;
    for i := 0 to |names|
      invariant OnlyDeletesOrphans(cluster.calls, active)
      invariant cluster.calls == old(cluster.calls) + PvcDeletes(names[..i])
      invariant cluster.jobs * own == old(cluster.jobs * own) && cluster.pvcs * own == old(cluster.pvcs * own)
      invariant !cluster.interfering ==>
                  && cluster.pvcs == old(cluster.pvcs) - (set name | name in names[..i])
                  && cluster.jobs == old(cluster.jobs)
    {
      assert names[i] in names && names[i] !in own;
      ghost var before := cluster.pvcs * own;
      ok := cluster.RemovePvc(names[i]);
      assert before - {names[i]} == before && cluster.pvcs * own - {names[i]} == cluster.pvcs * own;
      if !ok {
        assert cluster.calls == old(cluster.calls) + PvcDeletes(names[..i]) + [DeletePvc(names[i], false)];
        return;
      }
      assert names[..i + 1] == names[..i] + [names[i]];
      assert PvcDeletes(names[..i + 1]) == PvcDeletes(names[..i]) + [DeletePvc(names[i], true)];
    }
    assert names[..|names|] == names;
    ok := true;
  }

  lemma NothingDeletedYet(active: set<string>)
    ensures OnlyDeletesOrphans([], active)
  {
  }

  /** Taking the listed orphans away leaves the active names; without orphans there is nothing to take. */
  lemma OnlyActiveLeft(all: set<string>, orphans: seq<string>, active: set<string>)
    requires IsListing(orphans, all - active)
    ensures all - (set name | name in orphans) == all * active
    ensures all <= active ==> orphans == [] && all * active == all
  {
    assert orphans == [] || orphans[0] in orphans;
  }

  /**
    Whatever else happens in the namespace, the sweep deletes only inactive names, so it never
    takes anything from an execution whose names are all active. Left to itself it leaves
    exactly the active names, reports exactly what it removed, and finds nothing a second time.
    It answers no report exactly when a listing or a delete raised, and a report names exactly
    what was deleted, in that order.
  */
  method Reconcile(cluster: Cluster, active: set<string>) returns (report: Option<Report>)
    requires cluster.own <= active && cluster.calls == [] && cluster.listings == []
    modifies cluster
    ensures report.None? <==> false in cluster.listings || SomeRaised(cluster.calls)
    ensures report.Some? ==>
              && cluster.listings == [true, true]
              && cluster.calls == JobDeletes(report.value.deletedJobNames) + PvcDeletes(report.value.deletedPvcNames)
    ensures OnlyDeletesOrphans(cluster.calls, active)
    ensures cluster.jobs * cluster.own == old(cluster.jobs * cluster.own)
    ensures cluster.pvcs * cluster.own == old(cluster.pvcs * cluster.own)
    ensures !cluster.interfering && report.Some? ==>
              && cluster.jobs == old(cluster.jobs) * active && cluster.pvcs == old(cluster.pvcs) * active
              && IsListing(report.value.deletedJobNames, old(cluster.jobs) - active)
              && IsListing(report.value.deletedPvcNames, old(cluster.pvcs) - active)
    ensures !cluster.interfering && report.Some? && old(cluster.jobs) <= active && old(cluster.pvcs) <= active ==>
              report.value == Report([], []) && cluster.jobs == old(cluster.jobs) && cluster.pvcs == old(cluster.pvcs)
  {
    hide SomeRaised, JobDeletes, PvcDeletes, IsListing, Orphans, OnlyDeletesOrphans;
    NothingDeletedYet(active);
    var listedJobs := cluster.ListJobs();
    assert cluster.listings == [listedJobs.Some?];
    if listedJobs.None? { return None; }
    var deletedJobs := Orphans(listedJobs.value, active);
    OrphansListed(listedJobs.value, cluster.jobs, active);
    OnlyActiveLeft(cluster.jobs, deletedJobs, active);
    var ok := DeleteJobs(cluster, deletedJobs, active);
    if !ok {
      LastRaised(cluster.calls);
      return None;
    }
    var listedPvcs := cluster.ListPvcs();
    assert cluster.listings == [true, listedPvcs.Some?];
    if listedPvcs.None? { return None; }
    var deletedPvcs := Orphans(listedPvcs.value, active);
    OrphansListed(listedPvcs.value, cluster.pvcs, active);
    OnlyActiveLeft(cluster.pvcs, deletedPvcs, active);
    ok := DeletePvcs(cluster, deletedPvcs, active);
    if !ok {
      LastRaised(cluster.calls);
      return None;
    }
    NoneRaised(deletedJobs, deletedPvcs);
    assert cluster.calls == JobDeletes(deletedJobs) + PvcDeletes(deletedPvcs) && cluster.listings == [true, true];
    report := Some(Report(deletedJobs, deletedPvcs));
  }
}
