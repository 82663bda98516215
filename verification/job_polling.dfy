/** Waiting for a Job: one status read per poll interval against one deadline. */
module JobPolling {
  import opened Wrappers
  import opened KubernetesCluster

  datatype Condition = Condition(kind: string, status: string, reason: string)
  datatype JobStatus = JobStatus(succeeded: Option<int>, failed: Option<int>, conditions: seq<Condition>)

  predicate IsTrue(condition: Condition, kind: string) { condition.kind == kind && condition.status == "True" }

  /** The first condition of this kind that is true. */
  function TrueCondition(conditions: seq<Condition>, kind: string): (r: Option<Condition>)
    ensures r.None? <==> forall i | 0 <= i < |conditions| :: !IsTrue(conditions[i], kind)
    ensures r.Some? ==> exists i :: IsFirstTrue(conditions, kind, i) && r.value == conditions[i]
  {
    if conditions == [] then None
    else if IsTrue(conditions[0], kind) then assert IsFirstTrue(conditions, kind, 0); Some(conditions[0])
    else
      var rest := conditions[1..];
      var r := TrueCondition(rest, kind);
      assert forall i | 0 <= i < |rest| :: rest[i] == conditions[i + 1];
      assert r.Some? ==> exists i :: IsFirstTrue(conditions, kind, i) && r.value == conditions[i] by {
        if r.Some? {
          var i :| IsFirstTrue(rest, kind, i) && r.value == rest[i];
          assert forall j | 1 <= j < i + 1 :: conditions[j] == rest[j - 1];
          assert IsFirstTrue(conditions, kind, i + 1);
        }
      }
      assert r.None? ==> forall i | 1 <= i < |conditions| :: conditions[i] == rest[i - 1];
      r
  }

  predicate IsFirstTrue(conditions: seq<Condition>, kind: string, i: int) {
    0 <= i < |conditions| && IsTrue(conditions[i], kind) && forall j | 0 <= j < i :: !IsTrue(conditions[j], kind)
  }

  predicate AtLeastOne(count: Option<int>) { count.Some? && count.value >= 1 }

  /** `None` while the Job still runs; success is looked for before failure. */
  function JobOutcomeFromStatus(status: JobStatus): Option<JobOutcome> {
    var failed := TrueCondition(status.conditions, "Failed");
    if AtLeastOne(status.succeeded) || TrueCondition(status.conditions, "Complete").Some? then
      Some(JobOutcome(true, false, false, None))
    else if AtLeastOne(status.failed) || failed.Some? then
      Some(JobOutcome(false, true, failed.Some? && failed.value.reason == "DeadlineExceeded", None))
    else None
  }

  predicate HasCondition(status: JobStatus, kind: string) {
    exists i :: 0 <= i < |status.conditions| && IsTrue(status.conditions[i], kind)
  }

  /** The first true failure condition gives the deadline as its reason. */
  ghost predicate DeadlineExceeded(status: JobStatus) {
    exists i :: IsFirstTrue(status.conditions, "Failed", i) && status.conditions[i].reason == "DeadlineExceeded"
  }

  /**
    Exactly one of running, succeeded and failed; success wins; a timeout is a failure whose
    reason is the deadline.
  */
  lemma OutcomeExact(status: JobStatus)
    ensures var outcome := JobOutcomeFromStatus(status);
            && (outcome.None? <==> !AtLeastOne(status.succeeded) && !AtLeastOne(status.failed)
                                   && !HasCondition(status, "Complete") && !HasCondition(status, "Failed"))
            && (outcome.Some? ==>
                  (outcome.value.succeeded <==> AtLeastOne(status.succeeded) || HasCondition(status, "Complete")))
            && (outcome.Some? ==> (outcome.value.failed <==> !outcome.value.succeeded))
            && (outcome.Some? ==> (outcome.value.timedOut <==> outcome.value.failed && DeadlineExceeded(status)))
  {
    var failed := TrueCondition(status.conditions, "Failed");
    assert HasCondition(status, "Complete") <==> TrueCondition(status.conditions, "Complete").Some?;
    assert HasCondition(status, "Failed") <==> failed.Some?;
    assert DeadlineExceeded(status) <==> failed.Some? && failed.value.reason == "DeadlineExceeded" by {
      if i :| IsFirstTrue(status.conditions, "Failed", i) && status.conditions[i].reason == "DeadlineExceeded" {
        var k :| IsFirstTrue(status.conditions, "Failed", k) && failed.value == status.conditions[k];
        assert i == k;
      }
    }
  }

  // ------------------------------------------------------------------ the loop

  /** A monotonic clock that sleeping advances by at least the time slept; `sleeps` are all so far. */
  class Clock {
    var now: real
    var sleeps: seq<real>

    constructor ()
      ensures sleeps == []
    {
      now := 0.0;
      sleeps := [];
    }

    method Read() returns (t: real)
      modifies this`now
      ensures t == now >= old(now)
    {
      var passed: real := *;
      if passed > 0.0 { now := now + passed; }
      t := now;
    }

    method Sleep(seconds: real)
      requires seconds > 0.0
      modifies this
      ensures now >= old(now) + seconds && sleeps == old(sleeps) + [seconds]
    {
      now, sleeps := now + seconds, sleeps + [seconds];
      var _ := Read();
    }
  }

  function Pauses(n: nat, interval: real): seq<real> { seq(n, _ => interval) }

  function Ceiling(x: real): int { -((-x).Floor) }

  lemma Scaled(x: real, y: real, factor: real)
    requires factor > 0.0
    ensures x <= y <==> x * factor <= y * factor
    ensures x < y <==> x * factor < y * factor
  {
  }

  /** What that many sleeps take at least. */
  function Slept(sleeps: int, interval: real): real { sleeps as real * interval }

  /** The first read after which no time is left, when only the sleeps take time. */
  lemma LastPollIff(polls: int, timeout: nat, interval: real)
    requires interval > 0.0
    ensures Slept(polls - 1, interval) >= timeout as real <==> polls >= 1 + Ceiling(timeout as real / interval)
  {
    var ratio := timeout as real / interval;
    assert ratio * interval == timeout as real;
    Scaled(ratio, (polls - 1) as real, interval);
    assert polls - 1 >= Ceiling(ratio) <==> (polls - 1) as real >= ratio;
  }

  predicate StillRunning(read: Option<JobStatus>) { read.Some? && JobOutcomeFromStatus(read.value).None? }

  /** The API server: whatever it answers, and every answer it gave; `None` when the call raised. */
  class JobApi {
    var answers: seq<Option<JobStatus>>

    constructor ()
      ensures answers == []
    {
      answers := [];
    }

    method ReadStatus() returns (status: Option<JobStatus>)
      modifies this
      ensures answers == old(answers) + [status]
    {
      var raises := *;
      var succeeded: Option<int> := *;
      var failed: Option<int> := *;
      var conditions: seq<Condition> := *;
      status := if raises then None else Some(JobStatus(succeeded, failed, conditions));
      answers := answers + [status];
    }
  }

  /**
    `polls` are the status reads made. All but the last found the Job running; the wait times
    out by its own deadline exactly when the last one did too, and between two reads it sleeps
    once, for the interval; it makes at most one read more than intervals fit into the timeout.
  */
  method WaitForJob(api: JobApi, clock: Clock, timeout: nat, interval: real)
    returns (answer: Option<JobOutcome>, ghost polls: seq<Option<JobStatus>>)
    requires interval > 0.0
    modifies api, clock
    ensures api.answers == old(api.answers) + polls
    ensures polls != [] && clock.sleeps == old(clock.sleeps) + Pauses(|polls| - 1, interval)
    ensures polls != [] && forall i | 0 <= i < |polls| - 1 :: StillRunning(polls[i])
    ensures answer.None? <==> polls[|polls| - 1].None?
    ensures StillRunning(polls[|polls| - 1]) ==>
              && answer.Some? && answer.value.failed && answer.value.timedOut && !answer.value.succeeded
              && clock.now >= old(clock.now) + timeout as real
    ensures answer.Some? && !StillRunning(polls[|polls| - 1]) ==>
              answer.value.(exitCode := None) == JobOutcomeFromStatus(polls[|polls| - 1].value).value
    ensures |polls| >= 2 ==> Slept(|polls| - 2, interval) < timeout as real
    ensures |polls| <= 1 + Ceiling(timeout as real / interval) || |polls| == 1
  {
    hide JobOutcomeFromStatus, Ceiling, Slept;
    SleptStep(0, interval);
    var start := clock.Read();
    var deadline := start + timeout as real;
    polls := [];
    ghost var bound := 1 + Ceiling(timeout as real / interval);
    while true
      invariant clock.now >= start + Slept(|polls|, interval)
      invariant api.answers == old(api.answers) + polls
      invariant clock.sleeps == old(clock.sleeps) + Pauses(|polls|, interval)
      invariant forall i | 0 <= i < |polls| :: StillRunning(polls[i])
      invariant |polls| >= 1 ==> Slept(|polls| - 1, interval) < timeout as real
      decreases (if bound < 1 then 1 else bound) - |polls|
    {
      LastPollIff(|polls|, timeout, interval);
      var status := api.ReadStatus();
      polls := polls + [status];
      if status.None? { return None, polls; }
      var outcome := JobOutcomeFromStatus(status.value);
      NoExitCodeYet(status.value);
      if outcome.Some? {
        var exitCode: Option<int> := *;
        return Some(outcome.value.(exitCode := exitCode)), polls;
      }
      var t := clock.Read();
      if t >= deadline {
        var exitCode: Option<int> := *;
        return Some(JobOutcome(false, true, true, exitCode)), polls;
      }
      clock.Sleep(interval);
      assert Pauses(|polls|, interval) == Pauses(|polls| - 1, interval) + [interval];
      SleptStep(|polls|, interval);
    }
  }

  lemma SleptStep(sleeps: nat, interval: real)
    ensures Slept(sleeps, interval) == Slept(sleeps - 1, interval) + interval
    ensures Slept(0, interval) == 0.0
  {
  }

  lemma NoExitCodeYet(status: JobStatus)
    ensures JobOutcomeFromStatus(status).Some? ==> JobOutcomeFromStatus(status).value.exitCode.None?
  {
  }
}
