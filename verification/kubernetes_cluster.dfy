/**
  The part of a Kubernetes cluster a split scan uses: Jobs and volume claims by name, calls that
  may raise before or after taking effect, and everybody else working in the same namespace.
*/
module KubernetesCluster {
  import opened Wrappers

  datatype JobOutcome = JobOutcome(succeeded: bool, failed: bool, timedOut: bool, exitCode: Option<int>)

  /** One call of an execution and its answer; `None` or `ok == false` means that it raised. */
  datatype Call =
    | GetPvc(name: string, exists_: Option<bool>)
    | CreatePvc(name: string, existed: bool, ok: bool)
    | GetJob(name: string, exists_: Option<bool>)
    | CreateJob(name: string, existed: bool, ok: bool)
    | WaitForJob(name: string, outcome: Option<JobOutcome>)
    | GetJobLogs(name: string, log: Option<string>)
    | DeleteJob(name: string, ok: bool)
    | DeletePvc(name: string, ok: bool)

  predicate Raised(call: Call) {
    match call
    case GetPvc(_, answer) => answer.None?
    case GetJob(_, answer) => answer.None?
    case CreatePvc(_, _, ok) => !ok
    case CreateJob(_, _, ok) => !ok
    case WaitForJob(_, outcome) => outcome.None?
    case GetJobLogs(_, log) => log.None?
    case DeleteJob(_, ok) => !ok
    case DeletePvc(_, ok) => !ok
  }

  /**
    `own` are the names nobody else uses; `calls` is what the observed execution asked so far,
    and `listings` which of its listings returned.
  */
  class Cluster {
    const own: set<string>
    const interfering: bool
    var jobs: set<string>
    var pvcs: set<string>
    var calls: seq<Call>
    var listings: seq<bool>

    constructor (own: set<string>, interfering: bool, jobs: set<string>, pvcs: set<string>)
      ensures this.own == own && this.interfering == interfering && this.jobs == jobs && this.pvcs == pvcs
      ensures calls == [] && listings == []
    {
      this.own, this.interfering, this.jobs, this.pvcs, this.calls := own, interfering, jobs, pvcs, [];
      this.listings := [];
    }

    /** Everybody else's turn: any change, except to the protected names. */
    method Others()
      modifies this`jobs, this`pvcs
      ensures jobs * own == old(jobs) * own && pvcs * own == old(pvcs) * own
      ensures !interfering ==> jobs == old(jobs) && pvcs == old(pvcs)
    {
      if interfering {
        var foreignJobs: set<string> := *;
        var foreignPvcs: set<string> := *;
        jobs := (jobs * own) + (foreignJobs - own);
        pvcs := (pvcs * own) + (foreignPvcs - own);
      }
    }

    method HasPvc(name: string) returns (answer: Option<bool>)
      modifies this`jobs, this`pvcs, this`calls
      ensures calls == old(calls) + [GetPvc(name, answer)]
      ensures jobs * own == old(jobs) * own && pvcs * own == old(pvcs) * own
      ensures answer.Some? && name in own ==> answer.value == (name in pvcs)
    {
      Others();
      var raises := *;
      answer := if raises then None else Some(name in pvcs);
      calls := calls + [GetPvc(name, answer)];
    }

    /** A conflict counts as success; a call that raises may still have created the claim. */
    method AddPvc(name: string) returns (ok: bool)
      modifies this`jobs, this`pvcs, this`calls
      ensures calls == old(calls) + [CreatePvc(name, name in old(pvcs), ok)] || name !in own
      ensures |calls| == |old(calls)| + 1 && calls[..|old(calls)|] == old(calls)
      ensures jobs * own == old(jobs) * own && (pvcs * own) - {name} == (old(pvcs) * own) - {name}
      ensures ok ==> name in pvcs
    {
      Others();
      assert name in own ==> (name in pvcs * own <==> name in old(pvcs) * own);
      var existed := name in pvcs;
      ok := *;
      var applied := *;
      if ok || applied { pvcs := pvcs + {name}; }
      calls := calls + [CreatePvc(name, existed, ok)];
    }

    method HasJob(name: string) returns (answer: Option<bool>)
      modifies this`jobs, this`pvcs, this`calls
      ensures calls == old(calls) + [GetJob(name, answer)]
      ensures jobs * own == old(jobs) * own && pvcs * own == old(pvcs) * own
      ensures answer.Some? && name in own ==> answer.value == (name in jobs)
    {
      Others();
      var raises := *;
      answer := if raises then None else Some(name in jobs);
      calls := calls + [GetJob(name, answer)];
    }

    method AddJob(name: string) returns (ok: bool)
      modifies this`jobs, this`pvcs, this`calls
      ensures calls == old(calls) + [CreateJob(name, name in old(jobs), ok)] || name !in own
      ensures |calls| == |old(calls)| + 1 && calls[..|old(calls)|] == old(calls)
      ensures pvcs * own == old(pvcs) * own && (jobs * own) - {name} == (old(jobs) * own) - {name}
      ensures ok ==> name in jobs
    {
      Others();
      assert name in own ==> (name in jobs * own <==> name in old(jobs) * own);
      var existed := name in jobs;
      ok := *;
      var applied := *;
      if ok || applied { jobs := jobs + {name}; }
      calls := calls + [CreateJob(name, existed, ok)];
    }

    method Wait(name: string) returns (outcome: Option<JobOutcome>)
      modifies this`jobs, this`pvcs, this`calls
      ensures calls == old(calls) + [WaitForJob(name, outcome)]
      ensures jobs * own == old(jobs) * own && pvcs * own == old(pvcs) * own
    {
      Others();
      outcome := *;
      calls := calls + [WaitForJob(name, outcome)];
    }

    method Logs(name: string) returns (log: Option<string>)
      modifies this`jobs, this`pvcs, this`calls
      ensures calls == old(calls) + [GetJobLogs(name, log)]
      ensures jobs * own == old(jobs) * own && pvcs * own == old(pvcs) * own
    {
      Others();
      log := *;
      calls := calls + [GetJobLogs(name, log)];
    }

    /** Deleting what is already gone succeeds. */
    method RemoveJob(name: string) returns (ok: bool)
      modifies this`jobs, this`pvcs, this`calls
      ensures calls == old(calls) + [DeleteJob(name, ok)]
      ensures pvcs * own == old(pvcs) * own && (jobs * own) - {name} == (old(jobs) * own) - {name}
      ensures ok ==> name !in jobs
      ensures name !in old(jobs) && name in own ==> name !in jobs
      ensures !interfering && ok ==> jobs == old(jobs) - {name} && pvcs == old(pvcs)
    {
      Others();
      assert name in own ==> (name in jobs * own <==> name in old(jobs) * own);
      ok := *;
      var applied := *;
      if ok || applied { jobs := jobs - {name}; }
      calls := calls + [DeleteJob(name, ok)];
    }

    method RemovePvc(name: string) returns (ok: bool)
      modifies this`jobs, this`pvcs, this`calls
      ensures calls == old(calls) + [DeletePvc(name, ok)]
      ensures jobs * own == old(jobs) * own && (pvcs * own) - {name} == (old(pvcs) * own) - {name}
      ensures ok ==> name !in pvcs
      ensures name !in old(pvcs) && name in own ==> name !in pvcs
      ensures !interfering && ok ==> pvcs == old(pvcs) - {name} && jobs == old(jobs)
    {
      Others();
      assert name in own ==> (name in pvcs * own <==> name in old(pvcs) * own);
      ok := *;
      var applied := *;
      if ok || applied { pvcs := pvcs - {name}; }
      calls := calls + [DeletePvc(name, ok)];
    }

    /** The names of all Jobs, each once. */
    method ListJobs() returns (names: Option<seq<string>>)
      modifies this`jobs, this`pvcs, this`listings
      ensures listings == old(listings) + [names.Some?]
      ensures jobs * own == old(jobs) * own && pvcs * own == old(pvcs) * own
      ensures !interfering ==> jobs == old(jobs) && pvcs == old(pvcs)
      ensures names.Some? ==> IsListing(names.value, jobs)
    {
      Others();
      var raises := *;
      listings := listings + [!raises];
      if raises { return None; }
      var listed := Listing(jobs);
      return Some(listed);
    }

    method ListPvcs() returns (names: Option<seq<string>>)
      modifies this`jobs, this`pvcs, this`listings
      ensures listings == old(listings) + [names.Some?]
      ensures jobs * own == old(jobs) * own && pvcs * own == old(pvcs) * own
      ensures !interfering ==> jobs == old(jobs) && pvcs == old(pvcs)
      ensures names.Some? ==> IsListing(names.value, pvcs)
    {
      Others();
      var raises := *;
      listings := listings + [!raises];
      if raises { return None; }
      var listed := Listing(pvcs);
      return Some(listed);
    }
  }

  ghost predicate IsListing(names: seq<string>, all: set<string>) {
    && (forall name :: name in names <==> name in all)
    && forall i, j | 0 <= i < j < |names| :: names[i] != names[j]
  }

  method Listing(all: set<string>) returns (names: seq<string>)
    ensures IsListing(names, all)
  {
    names := [];
    var rest := all;
    while rest != {}
      invariant rest <= all && IsListing(names, all - rest)
      decreases rest
    {
      var name :| name in rest;
      names := names + [name];
      rest := rest - {name};
    }
    assert all - rest == all;
  }
}
