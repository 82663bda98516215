/**
  The split execution of one scan: a volume claim, a checkout Job, optionally a rev-parse Job,
  and a scanner Job, all removed again before returning or raising.
*/
module KubernetesExecution {
  import opened Wrappers
  import opened KubernetesCluster

  // ------------------------------------------------------------------ names

  const NAME_HEX_LEN: nat := 20

  type TaskHex = h: string | |h| == 32 witness seq(32, i => '0')

  function BoundedName(taskHex: TaskHex, suffix: string): string {
    "scan-" + taskHex[..NAME_HEX_LEN] + "-" + suffix
  }

  datatype Role = Checkout | Revparse | Scanner

  function Suffix(role: Role): string {
    match role
    case Checkout => "checkout"
    case Revparse => "revparse"
    case Scanner => "scanner"
  }

  function PvcName(taskHex: TaskHex): string { BoundedName(taskHex, "pvc") }

  function JobName(taskHex: TaskHex, role: Role): string { BoundedName(taskHex, Suffix(role)) }

  /** Everything one task may ever create. */
  function OwnNames(taskHex: TaskHex): set<string> {
    {PvcName(taskHex), JobName(taskHex, Checkout), JobName(taskHex, Revparse), JobName(taskHex, Scanner)}
  }

  lemma BoundedNamesEqualIff(a: TaskHex, s: string, b: TaskHex, t: string)
    ensures BoundedName(a, s) == BoundedName(b, t) <==> a[..NAME_HEX_LEN] == b[..NAME_HEX_LEN] && s == t
  {
    var x, y := BoundedName(a, s), BoundedName(b, t);
    assert x[5..25] == a[..20] && x[26..] == s;
    assert y[5..25] == b[..20] && y[26..] == t;
  }

  /**
    Two tasks share a name exactly when the twenty digits kept of their identifiers agree, and
    then they share all of them; every name fits a 63-character label.
  */
  lemma OwnNamesDisjointIff(a: TaskHex, b: TaskHex)
    ensures (OwnNames(a) !! OwnNames(b)) <==> a[..NAME_HEX_LEN] != b[..NAME_HEX_LEN]
    ensures !(OwnNames(a) !! OwnNames(b)) <==> OwnNames(a) == OwnNames(b)
    ensures forall name | name in OwnNames(a) :: |name| <= 63
    ensures |OwnNames(a)| == 4
  {
    var suffixes := {"pvc", "checkout", "revparse", "scanner"};
    forall s, t | s in suffixes && t in suffixes
      ensures BoundedName(a, s) == BoundedName(b, t) <==> a[..NAME_HEX_LEN] == b[..NAME_HEX_LEN] && s == t
      ensures BoundedName(a, s) == BoundedName(a, t) <==> s == t
    {
      BoundedNamesEqualIff(a, s, b, t);
      BoundedNamesEqualIff(a, s, a, t);
    }
    assert |"checkout"| == |"revparse"| == 8 && |"scanner"| == 7;
    assert "pvc" != "checkout" && "checkout"[0] != "revparse"[0];
    assert PvcName(a) in OwnNames(a) && PvcName(b) in OwnNames(b);
  }

  // ------------------------------------------------------------------ what a run of calls means

  datatype ExecError = PrivateRepository | WorkloadFailed(role: Role) | Transient(role: Role) | ClusterError

  /** Clean success; or, for the scanner when its exit codes are data, any failure but a timeout. */
  predicate Acceptable(role: Role, exitCodesAreData: bool, outcome: JobOutcome) {
    || (outcome.succeeded && !outcome.failed && !outcome.timedOut)
    || (role.Scanner? && exitCodesAreData && outcome.failed && !outcome.timedOut)
  }

  function RoleOf(taskHex: TaskHex, name: string): Role {
    if name == JobName(taskHex, Checkout) then Checkout
    else if name == JobName(taskHex, Revparse) then Revparse
    else Scanner
  }

  /** A Job that ended badly is reported only once its log has been fetched. */
  function ErrorAt(taskHex: TaskHex, exitCodesAreData: bool, calls: seq<Call>, k: nat): Option<ExecError>
    requires k < |calls|
  {
    var call := calls[k];
    match call
    case GetJob(name, _) => if Raised(call) then Some(Transient(RoleOf(taskHex, name))) else None
    case CreateJob(name, _, _) => if Raised(call) then Some(Transient(RoleOf(taskHex, name))) else None
    case WaitForJob(name, _) => if Raised(call) then Some(Transient(RoleOf(taskHex, name))) else None
    case GetJobLogs(name, _) =>
      var role := RoleOf(taskHex, name);
      if Raised(call) then Some(Transient(role))
      else if k > 0 && calls[k - 1].WaitForJob? && calls[k - 1].outcome.Some?
              && !Acceptable(role, exitCodesAreData, calls[k - 1].outcome.value)
      then Some(WorkloadFailed(role))
      else None
    case _ => if Raised(call) then Some(ClusterError) else None
  }

  function FirstError(taskHex: TaskHex, exitCodesAreData: bool, calls: seq<Call>): Option<ExecError> {
    if calls == [] then None
    else
      var earlier := FirstError(taskHex, exitCodesAreData, calls[..|calls| - 1]);
      if earlier.Some? then earlier else ErrorAt(taskHex, exitCodesAreData, calls, |calls| - 1)
  }

  /** A delete that raised ended the cleanup, and replaced whatever the run had come to. */
  predicate CleanupFailed(calls: seq<Call>) {
    calls != [] && Raised(calls[|calls| - 1]) && (calls[|calls| - 1].DeleteJob? || calls[|calls| - 1].DeletePvc?)
  }

  function Verdict(taskHex: TaskHex, exitCodesAreData: bool, calls: seq<Call>): Option<ExecError> {
    if CleanupFailed(calls) then Some(ClusterError) else FirstError(taskHex, exitCodesAreData, calls)
  }

  lemma FirstErrorAppend(taskHex: TaskHex, exitCodesAreData: bool, calls: seq<Call>, call: Call)
    ensures FirstError(taskHex, exitCodesAreData, calls + [call])
         == if FirstError(taskHex, exitCodesAreData, calls).Some? then FirstError(taskHex, exitCodesAreData, calls)
            else ErrorAt(taskHex, exitCodesAreData, calls + [call], |calls|)
  {
    assert (calls + [call])[..|calls|] == calls;
  }

  // ------------------------------------------------------------------ which calls are allowed when

  predicate IsCleanSuccess(call: Call, name: string) {
    && call.WaitForJob? && call.name == name && call.outcome.Some?
    && call.outcome.value.succeeded && !call.outcome.value.failed && !call.outcome.value.timedOut
  }

  predicate IsReadLog(call: Call, name: string) { call.GetJobLogs? && call.name == name && call.log.Some? }

  /** The Job ended in clean success and its log was read, before call `k`. */
  ghost predicate SucceededBefore(calls: seq<Call>, k: nat, name: string)
    requires k <= |calls|
  {
    exists i :: 0 <= i < k - 1 && IsCleanSuccess(calls[i], name) && IsReadLog(calls[i + 1], name)
  }

  ghost predicate ClaimedBefore(calls: seq<Call>, k: nat, name: string)
    requires k <= |calls|
  {
    exists i ::
      && 0 <= i < k
      && (calls[i] == GetPvc(name, Some(true)) || (calls[i].CreatePvc? && calls[i].name == name && calls[i].ok))
  }

  ghost predicate Ready(taskHex: TaskHex, exitCodesAreData: bool, role: Role, calls: seq<Call>, k: nat)
    requires k <= |calls|
  {
    && ClaimedBefore(calls, k, PvcName(taskHex))
    && (role != Checkout ==> SucceededBefore(calls, k, JobName(taskHex, Checkout)))
    && (role == Scanner && exitCodesAreData ==> SucceededBefore(calls, k, JobName(taskHex, Revparse)))
    && (role == Revparse ==> exitCodesAreData)
  }

  function Request(call: Call): (nat, string) {
    match call
    case GetPvc(name, _) => (0, name)
    case CreatePvc(name, _, _) => (1, name)
    case GetJob(name, _) => (2, name)
    case CreateJob(name, _, _) => (3, name)
    case WaitForJob(name, _) => (4, name)
    case GetJobLogs(name, _) => (5, name)
    case DeleteJob(name, _) => (6, name)
    case DeletePvc(name, _) => (7, name)
  }

  /** The names this execution may touch: rev-parse only when it runs one. */
  function TouchedNames(taskHex: TaskHex, exitCodesAreData: bool): set<string> {
    JobNames(taskHex, exitCodesAreData) + {PvcName(taskHex)}
  }

  function JobNames(taskHex: TaskHex, exitCodesAreData: bool): set<string> {
    {JobName(taskHex, Checkout), JobName(taskHex, Scanner)}
    + if exitCodesAreData then {JobName(taskHex, Revparse)} else {}
  }

  /**
    Only its own names; no request twice; nothing created that exists; and each Job only when
    what it needs is there: the claim, then a successful checkout, then a successful rev-parse.
  */
  ghost predicate AllowedAt(taskHex: TaskHex, exitCodesAreData: bool, calls: seq<Call>, k: nat)
    requires k < |calls|
  {
    && calls[k].name in TouchedNames(taskHex, exitCodesAreData)
    && (forall i | 0 <= i < k :: Request(calls[i]) != Request(calls[k]))
    && (calls[k].CreatePvc? || calls[k].CreateJob? ==> !calls[k].existed)
    && (calls[k].CreateJob? ==>
          exists role :: calls[k].name == JobName(taskHex, role) && Ready(taskHex, exitCodesAreData, role, calls, k))
  }

  ghost predicate Allowed(taskHex: TaskHex, exitCodesAreData: bool, calls: seq<Call>) {
    forall k | 0 <= k < |calls| :: AllowedAt(taskHex, exitCodesAreData, calls, k)
  }

  lemma ReadyStays(taskHex: TaskHex, exitCodesAreData: bool, role: Role, calls: seq<Call>, k: nat, more: seq<Call>,
                   m: nat)
    requires k <= |calls| && |calls| <= |more| && more[..|calls|] == calls && k <= m <= |more|
    requires Ready(taskHex, exitCodesAreData, role, calls, k)
    ensures Ready(taskHex, exitCodesAreData, role, more, m)
  {
    forall i | 0 <= i < |calls| ensures more[i] == calls[i] { assert more[..|calls|][i] == more[i]; }
  }

  lemma AllowedAppend(taskHex: TaskHex, exitCodesAreData: bool, calls: seq<Call>, call: Call)
    requires Allowed(taskHex, exitCodesAreData, calls)
    requires AllowedAt(taskHex, exitCodesAreData, calls + [call], |calls|)
    ensures Allowed(taskHex, exitCodesAreData, calls + [call])
  {
    var more := calls + [call];
    hide Ready;
    forall k | 0 <= k < |calls| ensures AllowedAt(taskHex, exitCodesAreData, more, k) {
      assert AllowedAt(taskHex, exitCodesAreData, calls, k);
      if calls[k].CreateJob? {
        var role :| calls[k].name == JobName(taskHex, role) && Ready(taskHex, exitCodesAreData, role, calls, k);
        ReadyStays(taskHex, exitCodesAreData, role, calls, k, more, k);
      }
    }
  }

  /** Nothing has been asked about this name yet. */
  predicate Untouched(calls: seq<Call>, name: string) { forall i | 0 <= i < |calls| :: calls[i].name != name }

  predicate NothingDeleted(calls: seq<Call>)
  {
    forall i | 0 <= i < |calls| :: !calls[i].DeleteJob? && !calls[i].DeletePvc?
  }

  // ------------------------------------------------------------------ what the answer means

  /** The Job is there: found, or created because it was not. */
  predicate Submitted(asked: seq<Call>, name: string) {
    asked == [GetJob(name, Some(true))] || asked == [GetJob(name, Some(false)), CreateJob(name, false, true)]
  }

  /** A Job hit its deadline, did not succeed, or failed where its exit code is no data. */
  predicate EndedBadly(role: Role, exitCodesAreData: bool, outcome: JobOutcome) {
    || outcome.timedOut
    || (!outcome.succeeded && !outcome.failed)
    || (outcome.failed && !(role == Scanner && exitCodesAreData))
  }

  /** The Job was there, ended somehow, and its log was read. */
  predicate Ended(asked: seq<Call>, name: string) {
    var n := |asked| - 2;
    && n >= 0 && Submitted(asked[..n], name)
    && asked[n].WaitForJob? && asked[n].name == name && asked[n].outcome.Some?
    && asked[n + 1].GetJobLogs? && asked[n + 1].name == name && asked[n + 1].log.Some?
  }

  /** Looking the Job up, creating it, waiting for it or reading its log raised, after the calls before it. */
  predicate Stalled(asked: seq<Call>, name: string) {
    || asked == [GetJob(name, None)]
    || asked == [GetJob(name, Some(false)), CreateJob(name, false, false)]
    || (var n := |asked| - 1; n >= 0 && Submitted(asked[..n], name) && asked[n] == WaitForJob(name, None))
    || (var n := |asked| - 2;
        && n >= 0 && Submitted(asked[..n], name)
        && asked[n].WaitForJob? && asked[n].name == name && asked[n].outcome.Some?
        && asked[n + 1] == GetJobLogs(name, None))
  }

  /** The calls made for one Job, and the answer that goes with them. */
  predicate RanAs(asked: seq<Call>, name: string, role: Role, exitCodesAreData: bool,
                  result: Result<(string, Option<int>), ExecError>) {
    var n := |asked| - 2;
    match result
    case Ok(answer) =>
      && Ended(asked, name) && !EndedBadly(role, exitCodesAreData, asked[n].outcome.value)
      && answer == (asked[n + 1].log.value, asked[n].outcome.value.exitCode)
    case Err(error) =>
      || (error == Transient(role) && Stalled(asked, name))
      || (error == WorkloadFailed(role) && Ended(asked, name)
          && EndedBadly(role, exitCodesAreData, asked[n].outcome.value))
  }

  /** At this place a Job of the role ended badly and its log was read. */
  predicate BadEndAt(taskHex: TaskHex, exitCodesAreData: bool, calls: seq<Call>, role: Role, i: int) {
    && 0 <= i < |calls| - 1 && calls[i].WaitForJob? && calls[i].name == JobName(taskHex, role) && calls[i].outcome.Some?
    && EndedBadly(role, exitCodesAreData, calls[i].outcome.value)
    && calls[i + 1].GetJobLogs? && calls[i + 1].name == calls[i].name && calls[i + 1].log.Some?
  }

  /** At this place a call about the role's Job raised, other than a delete. */
  predicate RaisedAt(taskHex: TaskHex, calls: seq<Call>, role: Role, i: int) {
    0 <= i < |calls| && calls[i].name == JobName(taskHex, role) && !calls[i].DeleteJob? && Raised(calls[i])
  }

  predicate ClaimRaisedAt(calls: seq<Call>, i: int) {
    0 <= i < |calls| && (calls[i].GetPvc? || calls[i].CreatePvc?) && Raised(calls[i])
  }

  ghost predicate EndsBadly(taskHex: TaskHex, exitCodesAreData: bool, calls: seq<Call>, role: Role) {
    exists i :: BadEndAt(taskHex, exitCodesAreData, calls, role, i)
  }

  ghost predicate Raises(taskHex: TaskHex, calls: seq<Call>, role: Role) {
    exists i :: RaisedAt(taskHex, calls, role, i)
  }

  ghost predicate ClaimRaises(calls: seq<Call>) { exists i :: ClaimRaisedAt(calls, i) }

  predicate FineWait(taskHex: TaskHex, exitCodesAreData: bool, call: Call, role: Role) {
    call.WaitForJob? && call.name == JobName(taskHex, role) ==>
      call.outcome.Some? && !EndedBadly(role, exitCodesAreData, call.outcome.value)
  }

  /**
    An error names a role exactly when a Job of that role ended badly, or a call about it raised;
    without an error every Job waited for ended well.
  */
  ghost predicate Explained(taskHex: TaskHex, exitCodesAreData: bool, calls: seq<Call>, error: Option<ExecError>) {
    && (forall role :: error == Some(WorkloadFailed(role)) <==> EndsBadly(taskHex, exitCodesAreData, calls, role))
    && (forall role :: error == Some(Transient(role)) <==> Raises(taskHex, calls, role))
    && (error == Some(ClusterError) <==> ClaimRaises(calls))
    && (error.None? ==> forall i, role | 0 <= i < |calls| :: FineWait(taskHex, exitCodesAreData, calls[i], role))
  }

  /** A Job is waited for only once it is there, and its log read only once it has ended. */
  predicate InOrder(calls: seq<Call>) { forall i | 0 <= i < |calls| :: OrderedAt(calls, i) }

  predicate OrderedAt(calls: seq<Call>, i: int)
    requires 0 <= i < |calls|
  {
    && (calls[i].WaitForJob? ==>
          i > 0 && (calls[i - 1] == GetJob(calls[i].name, Some(true))
                    || calls[i - 1] == CreateJob(calls[i].name, false, true)))
    && (calls[i].GetJobLogs? ==>
          i > 0 && calls[i - 1].WaitForJob? && calls[i - 1].name == calls[i].name && calls[i - 1].outcome.Some?)
  }

  lemma JobInOrder(asked: seq<Call>, name: string)
    requires Ended(asked, name) || Stalled(asked, name)
    ensures InOrder(asked) && asked != [] && asked[0].GetJob?
  {
    var n := |asked|;
    if n >= 2 && Submitted(asked[..n - 2], name) {
      assert asked[..n - 2][n - 3] == asked[n - 3] && asked[..n - 2][0] == asked[0];
    } else if n >= 1 && Submitted(asked[..n - 1], name) {
      assert asked[..n - 1][n - 2] == asked[n - 2] && asked[..n - 1][0] == asked[0];
    }
  }

  lemma InOrderConcat(a: seq<Call>, b: seq<Call>)
    requires InOrder(a) && InOrder(b)
    ensures InOrder(a + b)
  {
    forall i | 0 <= i < |a + b| ensures OrderedAt(a + b, i) {
      if i < |a| { assert OrderedAt(a, i); } else { assert OrderedAt(b, i - |a|); }
    }
  }

  lemma SubmittedExplained(taskHex: TaskHex, exitCodesAreData: bool, role: Role, asked: seq<Call>)
    requires Submitted(asked, JobName(taskHex, role))
    ensures Explained(taskHex, exitCodesAreData, asked, None)
  {
    hide JobName, EndedBadly;
  }

  lemma StallExplained(taskHex: TaskHex, exitCodesAreData: bool, role: Role, asked: seq<Call>)
    requires 1 <= |asked| <= 2 && Raised(asked[|asked| - 1])
    requires forall i | 0 <= i < |asked| :: asked[i].name == JobName(taskHex, role)
    requires forall i | 0 <= i < |asked| ::
               asked[i].GetJob? || asked[i].CreateJob? || asked[i].WaitForJob? || asked[i].GetJobLogs?
    requires |asked| == 2 ==> !Raised(asked[0])
    ensures Explained(taskHex, exitCodesAreData, asked, Some(Transient(role)))
  {
    forall other ensures JobName(taskHex, other) == JobName(taskHex, role) <==> other == role {
      JobNamesDistinct(taskHex, other, role);
    }
    hide JobName, EndedBadly;
    assert RaisedAt(taskHex, asked, role, |asked| - 1);
  }

  lemma EndExplained(taskHex: TaskHex, exitCodesAreData: bool, role: Role, outcome: JobOutcome, log: string)
    ensures var name := JobName(taskHex, role);
            Explained(taskHex, exitCodesAreData, [WaitForJob(name, Some(outcome)), GetJobLogs(name, Some(log))],
                      if EndedBadly(role, exitCodesAreData, outcome) then Some(WorkloadFailed(role)) else None)
  {
    var name := JobName(taskHex, role);
    forall other ensures JobName(taskHex, other) == name <==> other == role { JobNamesDistinct(taskHex, other, role); }
    var asked := [WaitForJob(name, Some(outcome)), GetJobLogs(name, Some(log))];
    hide JobName, EndedBadly;
    assert BadEndAt(taskHex, exitCodesAreData, asked, role, 0) <==> EndedBadly(role, exitCodesAreData, outcome);
  }

  /** What one Job's calls explain by themselves. */
  lemma JobExplained(taskHex: TaskHex, exitCodesAreData: bool, role: Role, asked: seq<Call>,
                     result: Result<(string, Option<int>), ExecError>)
    requires RanAs(asked, JobName(taskHex, role), role, exitCodesAreData, result)
    ensures Explained(taskHex, exitCodesAreData, asked, if result.Ok? then None else Some(result.error))
  {
    hide JobName, EndedBadly, Explained;
    var n, name := |asked|, JobName(taskHex, role);
    if n >= 2 && Submitted(asked[..n - 2], name) {
      assert asked == asked[..n - 2] + asked[n - 2..];
      assert asked[..n - 2][0] == asked[0] && asked[..n - 2][n - 3] == asked[n - 3];
      assert asked[..n - 1][0] == asked[0] && asked[..n - 1][n - 2] == asked[n - 2];
      SubmittedExplained(taskHex, exitCodesAreData, role, asked[..n - 2]);
      if asked[n - 1].log.None? {
        StallExplained(taskHex, exitCodesAreData, role, asked[n - 2..]);
      } else {
        var outcome, log := asked[n - 2].outcome.value, asked[n - 1].log.value;
        assert asked[n - 2..] == [WaitForJob(name, Some(outcome)), GetJobLogs(name, Some(log))];
        EndExplained(taskHex, exitCodesAreData, role, outcome, log);
      }
      ExplainedConcat(taskHex, exitCodesAreData, asked[..n - 2], asked[n - 2..], None,
                      if result.Ok? then None else Some(result.error));
    } else if n >= 1 && Submitted(asked[..n - 1], name) {
      assert asked == asked[..n - 1] + asked[n - 1..];
      SubmittedExplained(taskHex, exitCodesAreData, role, asked[..n - 1]);
      StallExplained(taskHex, exitCodesAreData, role, asked[n - 1..]);
      ExplainedConcat(taskHex, exitCodesAreData, asked[..n - 1], asked[n - 1..], None, Some(Transient(role)));
    } else {
      StallExplained(taskHex, exitCodesAreData, role, asked);
    }
  }

  lemma EndsBadlyConcat(taskHex: TaskHex, exitCodesAreData: bool, a: seq<Call>, b: seq<Call>, role: Role)
    requires b != [] ==> !b[0].GetJobLogs?
    ensures EndsBadly(taskHex, exitCodesAreData, a + b, role)
       <==> EndsBadly(taskHex, exitCodesAreData, a, role) || EndsBadly(taskHex, exitCodesAreData, b, role)
  {
    hide JobName, EndedBadly;
    var all := a + b;
    forall i | BadEndAt(taskHex, exitCodesAreData, a, role, i)
      ensures BadEndAt(taskHex, exitCodesAreData, all, role, i) { }
    forall i | BadEndAt(taskHex, exitCodesAreData, b, role, i)
      ensures BadEndAt(taskHex, exitCodesAreData, all, role, i + |a|) { }
    forall i | BadEndAt(taskHex, exitCodesAreData, all, role, i)
      ensures BadEndAt(taskHex, exitCodesAreData, a, role, i)
              || BadEndAt(taskHex, exitCodesAreData, b, role, i - |a|) { }
  }

  lemma RaisesConcat(taskHex: TaskHex, a: seq<Call>, b: seq<Call>, role: Role)
    ensures Raises(taskHex, a + b, role) <==> Raises(taskHex, a, role) || Raises(taskHex, b, role)
    ensures ClaimRaises(a + b) <==> ClaimRaises(a) || ClaimRaises(b)
  {
    hide JobName, Raised;
    var all := a + b;
    forall i | RaisedAt(taskHex, a, role, i) ensures RaisedAt(taskHex, all, role, i) { }
    forall i | RaisedAt(taskHex, b, role, i) ensures RaisedAt(taskHex, all, role, i + |a|) { }
    forall i | RaisedAt(taskHex, all, role, i)
      ensures RaisedAt(taskHex, a, role, i) || RaisedAt(taskHex, b, role, i - |a|) { }
    forall i | ClaimRaisedAt(a, i) ensures ClaimRaisedAt(all, i) { }
    forall i | ClaimRaisedAt(b, i) ensures ClaimRaisedAt(all, i + |a|) { }
    forall i | ClaimRaisedAt(all, i) ensures ClaimRaisedAt(a, i) || ClaimRaisedAt(b, i - |a|) { }
  }

  /** Two stretches of calls, at most one of which failed. */
  lemma ExplainedConcat(taskHex: TaskHex, exitCodesAreData: bool, a: seq<Call>, b: seq<Call>,
                        first: Option<ExecError>, second: Option<ExecError>)
    requires Explained(taskHex, exitCodesAreData, a, first) && Explained(taskHex, exitCodesAreData, b, second)
    requires (first.None? || second.None?) && (b != [] ==> !b[0].GetJobLogs?)
    ensures Explained(taskHex, exitCodesAreData, a + b, if first.Some? then first else second)
  {
    hide FineWait, EndsBadly, Raises, ClaimRaises;
    var all := a + b;
    RaisesConcat(taskHex, a, b, Checkout);
    forall role
      ensures EndsBadly(taskHex, exitCodesAreData, all, role)
         <==> EndsBadly(taskHex, exitCodesAreData, a, role) || EndsBadly(taskHex, exitCodesAreData, b, role)
      ensures Raises(taskHex, all, role) <==> Raises(taskHex, a, role) || Raises(taskHex, b, role)
    {
      EndsBadlyConcat(taskHex, exitCodesAreData, a, b, role);
      RaisesConcat(taskHex, a, b, role);
    }
    if first.None? && second.None? {
      forall i, role | 0 <= i < |all| ensures FineWait(taskHex, exitCodesAreData, all[i], role) {
        if i < |a| { assert FineWait(taskHex, exitCodesAreData, a[i], role); }
        else { assert FineWait(taskHex, exitCodesAreData, b[i - |a|], role); }
      }
    }
  }

  lemma DeletesExplained(taskHex: TaskHex, exitCodesAreData: bool, asked: seq<Call>)
    requires forall i | 0 <= i < |asked| :: asked[i].DeleteJob? || asked[i].DeletePvc?
    requires forall role :: PvcName(taskHex) != JobName(taskHex, role)
    requires forall i | 0 <= i < |asked| && asked[i].DeletePvc? :: asked[i].name == PvcName(taskHex)
    ensures Explained(taskHex, exitCodesAreData, asked, None) && InOrder(asked)
  {
    hide JobName, PvcName, EndedBadly;
  }

  // ------------------------------------------------------------------ the execution

  /** What a Job contributed: an accepted outcome, and the log read right after it. */
  ghost predicate JobReported(calls: seq<Call>, name: string, role: Role, exitCodesAreData: bool, log: string,
                              exitCode: Option<int>) {
    exists i, outcome ::
      && 0 <= i < |calls| - 1 && calls[i] == WaitForJob(name, Some(outcome))
      && calls[i + 1] == GetJobLogs(name, Some(log))
      && Acceptable(role, exitCodesAreData, outcome) && outcome.exitCode == exitCode
  }

  lemma JobNamesDistinct(taskHex: TaskHex, a: Role, b: Role)
    ensures JobName(taskHex, a) == JobName(taskHex, b) <==> a == b
    ensures PvcName(taskHex) != JobName(taskHex, a)
    ensures RoleOf(taskHex, JobName(taskHex, a)) == a
  {
    BoundedNamesEqualIff(taskHex, Suffix(a), taskHex, Suffix(b));
    BoundedNamesEqualIff(taskHex, "pvc", taskHex, Suffix(a));
    BoundedNamesEqualIff(taskHex, Suffix(a), taskHex, Suffix(Checkout));
    BoundedNamesEqualIff(taskHex, Suffix(a), taskHex, Suffix(Revparse));
    assert |"checkout"| == |"revparse"| == 8 && |"scanner"| == 7 && |"pvc"| == 3 && "checkout"[0] != "revparse"[0];
  }

  /** A request made for the first time, about one of our own names, creating nothing that exists. */
  lemma Asks(taskHex: TaskHex, exitCodesAreData: bool, calls: seq<Call>, call: Call)
    requires Allowed(taskHex, exitCodesAreData, calls)
    requires call.name in TouchedNames(taskHex, exitCodesAreData)
    requires forall i | 0 <= i < |calls| :: Request(calls[i]) != Request(call)
    requires call.CreatePvc? || call.CreateJob? ==> !call.existed
    requires call.CreateJob? ==>
               exists role ::
                 call.name == JobName(taskHex, role) && Ready(taskHex, exitCodesAreData, role, calls, |calls|)
    ensures Allowed(taskHex, exitCodesAreData, calls + [call])
    ensures FirstError(taskHex, exitCodesAreData, calls + [call])
         == if FirstError(taskHex, exitCodesAreData, calls).Some? then FirstError(taskHex, exitCodesAreData, calls)
            else ErrorAt(taskHex, exitCodesAreData, calls + [call], |calls|)
  {
    hide Ready, FirstError, ErrorAt, TouchedNames;
    var more := calls + [call];
    if call.CreateJob? {
      var role :| call.name == JobName(taskHex, role) && Ready(taskHex, exitCodesAreData, role, calls, |calls|);
      assert more[..|calls|] == calls;
      ReadyStays(taskHex, exitCodesAreData, role, calls, |calls|, more, |calls|);
    }
    AllowedAppend(taskHex, exitCodesAreData, calls, call);
    FirstErrorAppend(taskHex, exitCodesAreData, calls, call);
  }

  lemma ClaimExplained(taskHex: TaskHex, exitCodesAreData: bool, calls: seq<Call>)
    requires 1 <= |calls| <= 2 && (|calls| == 2 ==> !Raised(calls[0]))
    requires forall i | 0 <= i < |calls| ::
               (calls[i].GetPvc? || calls[i].CreatePvc?) && calls[i].name == PvcName(taskHex)
    ensures Explained(taskHex, exitCodesAreData, calls, if Raised(calls[|calls| - 1]) then Some(ClusterError) else None)
    ensures InOrder(calls)
  {
    forall role ensures JobName(taskHex, role) != PvcName(taskHex) { JobNamesDistinct(taskHex, role, role); }
    hide JobName, PvcName, EndedBadly;
    assert ClaimRaisedAt(calls, |calls| - 1) <==> Raised(calls[|calls| - 1]);
  }

  method EnsurePvc(cluster: Cluster, taskHex: TaskHex, exitCodesAreData: bool) returns (raised: bool)
    requires cluster.own == OwnNames(taskHex) && cluster.calls == []
    modifies cluster
    ensures Allowed(taskHex, exitCodesAreData, cluster.calls) && NothingDeleted(cluster.calls)
    ensures raised ==> FirstError(taskHex, exitCodesAreData, cluster.calls) == Some(ClusterError)
    ensures !raised ==> FirstError(taskHex, exitCodesAreData, cluster.calls).None?
                        && ClaimedBefore(cluster.calls, |cluster.calls|, PvcName(taskHex))
    ensures forall role :: Untouched(cluster.calls, JobName(taskHex, role))
    ensures Explained(taskHex, exitCodesAreData, cluster.calls, if raised then Some(ClusterError) else None)
    ensures InOrder(cluster.calls)
    ensures cluster.jobs * cluster.own == old(cluster.jobs * cluster.own)
  {
    hide Allowed, FirstError, TouchedNames, Explained, InOrder;
    var name := PvcName(taskHex);
    EmptyCalls(taskHex, exitCodesAreData);
    forall role ensures JobName(taskHex, role) != name { JobNamesDistinct(taskHex, role, role); }
    var found := cluster.HasPvc(name);
    ClaimExplained(taskHex, exitCodesAreData, cluster.calls);
    Asks(taskHex, exitCodesAreData, [], GetPvc(name, found));
    if found.None? { return true; }
    if found.value {
      assert cluster.calls[0] == GetPvc(name, Some(true));
      return false;
    }
    ghost var before := cluster.calls;
    var ok := cluster.AddPvc(name);
    assert cluster.calls == before + [CreatePvc(name, false, ok)];
    ClaimExplained(taskHex, exitCodesAreData, cluster.calls);
    Asks(taskHex, exitCodesAreData, before, CreatePvc(name, false, ok));
    assert cluster.calls[1] == CreatePvc(name, false, ok);
    return !ok;
  }

  lemma EmptyCalls(taskHex: TaskHex, exitCodesAreData: bool)
    ensures Allowed(taskHex, exitCodesAreData, []) && FirstError(taskHex, exitCodesAreData, []).None?
    ensures PvcName(taskHex) in TouchedNames(taskHex, exitCodesAreData)
  {
  }

  lemma NewRequest(calls: seq<Call>, call: Call)
    requires Untouched(calls, call.name)
    ensures forall i | 0 <= i < |calls| :: Request(calls[i]) != Request(call)
  {
    forall i | 0 <= i < |calls| ensures Request(calls[i]) != Request(call) { assert calls[i].name != call.name; }
  }

  /** The same, for the next request about the Job currently being run. */
  lemma AsksNext(taskHex: TaskHex, exitCodesAreData: bool, before: seq<Call>, own: seq<Call>, call: Call, role: Role)
    requires Allowed(taskHex, exitCodesAreData, before + own) && Untouched(before, call.name)
    requires call.name == JobName(taskHex, role) && (role == Revparse ==> exitCodesAreData)
    requires forall i | 0 <= i < |own| :: Request(own[i]) != Request(call)
    requires call.CreateJob? ==> !call.existed && Ready(taskHex, exitCodesAreData, role, before, |before|)
    requires !call.CreatePvc?
    ensures Allowed(taskHex, exitCodesAreData, before + own + [call])
    ensures FirstError(taskHex, exitCodesAreData, before + own + [call])
         == if FirstError(taskHex, exitCodesAreData, before + own).Some?
            then FirstError(taskHex, exitCodesAreData, before + own)
            else ErrorAt(taskHex, exitCodesAreData, before + own + [call], |before + own|)
  {
    assert call.name in TouchedNames(taskHex, exitCodesAreData);
    hide Ready, FirstError, ErrorAt, Allowed, TouchedNames;
    NewRequest(before, call);
    if call.CreateJob? {
      assert (before + own)[..|before|] == before;
      ReadyStays(taskHex, exitCodesAreData, role, before, |before|, before + own, |before + own|);
    }
    Asks(taskHex, exitCodesAreData, before + own, call);
  }

  lemma JobNameOwn(taskHex: TaskHex, role: Role)
    ensures JobName(taskHex, role) in OwnNames(taskHex)
  {
  }

  lemma LastReported(calls: seq<Call>, name: string, role: Role, exitCodesAreData: bool, outcome: JobOutcome,
                     log: string)
    requires |calls| >= 2 && calls[|calls| - 2] == WaitForJob(name, Some(outcome))
    requires calls[|calls| - 1] == GetJobLogs(name, Some(log))
    requires Acceptable(role, exitCodesAreData, outcome)
    ensures JobReported(calls, name, role, exitCodesAreData, log, outcome.exitCode)
    ensures role != Scanner ==> SucceededBefore(calls, |calls|, name)
  {
    var i := |calls| - 2;
    assert calls[i] == WaitForJob(name, Some(outcome)) && calls[i + 1] == GetJobLogs(name, Some(log));
  }

  /** Only the Job of this name may have come or gone. */
  ghost predicate OthersKept(before: set<string>, after: set<string>, name: string)
  {
    after - {name} == before - {name}
  }

  /** The calls about one Job so far, after everything asked before it. */
  ghost predicate Asked(cluster: Cluster, taskHex: TaskHex, role: Role, exitCodesAreData: bool, before: seq<Call>,
                        own: seq<Call>)
    reads cluster
  {
    && cluster.own == OwnNames(taskHex) && cluster.calls == before + own
    && Untouched(before, JobName(taskHex, role)) && NothingDeleted(before) && (role == Revparse ==> exitCodesAreData)
    && Allowed(taskHex, exitCodesAreData, before + own)
    && forall i | 0 <= i < |own| :: own[i].name == JobName(taskHex, role) && (own[i].GetJob? || own[i].CreateJob?)
  }

  /** Discover the Job, or submit it when there is none. */
  method SubmitJob(cluster: Cluster, taskHex: TaskHex, role: Role, exitCodesAreData: bool)
    returns (raised: bool, ghost own: seq<Call>)
    requires Asked(cluster, taskHex, role, exitCodesAreData, cluster.calls, [])
    requires FirstError(taskHex, exitCodesAreData, cluster.calls).None?
    requires Ready(taskHex, exitCodesAreData, role, cluster.calls, |cluster.calls|)
    modifies cluster
    ensures Asked(cluster, taskHex, role, exitCodesAreData, old(cluster.calls), own)
    ensures FirstError(taskHex, exitCodesAreData, cluster.calls) == if raised then Some(Transient(role)) else None
    ensures if raised then Stalled(own, JobName(taskHex, role)) else Submitted(own, JobName(taskHex, role))
    ensures OthersKept(old(cluster.jobs * cluster.own), cluster.jobs * cluster.own, JobName(taskHex, role))
  {
    hide Allowed, FirstError, Ready, JobName, OwnNames, TouchedNames, RoleOf, Untouched, NothingDeleted;
    JobNamesDistinct(taskHex, role, role);
    JobNameOwn(taskHex, role);
    var name := JobName(taskHex, role);
    ghost var before := cluster.calls;
    own := [];
    assert before + own == before;
    var found := cluster.HasJob(name);
    AsksNext(taskHex, exitCodesAreData, before, own, GetJob(name, found), role);
    own := [GetJob(name, found)];
    assert cluster.calls == before + own;
    if found.None? { return true, own; }
    if found.value { return false, own; }
    var ok := cluster.AddJob(name);
    AsksNext(taskHex, exitCodesAreData, before, own, CreateJob(name, false, ok), role);
    own := own + [CreateJob(name, false, ok)];
    assert cluster.calls == before + own;
    return !ok, own;
  }

  /** Wait for the Job and read its log, whatever it came to. */
  method AwaitJob(cluster: Cluster, taskHex: TaskHex, role: Role, exitCodesAreData: bool, ghost before: seq<Call>,
                  ghost own: seq<Call>)
    returns (answer: Option<(JobOutcome, string)>, ghost asked: seq<Call>)
    requires Asked(cluster, taskHex, role, exitCodesAreData, before, own) && Submitted(own, JobName(taskHex, role))
    requires FirstError(taskHex, exitCodesAreData, cluster.calls).None?
    modifies cluster
    ensures cluster.calls == before + asked && Allowed(taskHex, exitCodesAreData, cluster.calls)
    ensures forall i | 0 <= i < |asked| ::
              asked[i].name == JobName(taskHex, role) && !asked[i].DeleteJob? && !asked[i].DeletePvc?
    ensures answer.None? ==> FirstError(taskHex, exitCodesAreData, cluster.calls) == Some(Transient(role))
    ensures if answer.None? then Stalled(asked, JobName(taskHex, role)) else Ended(asked, JobName(taskHex, role))
    ensures answer.Some? ==>
              && FirstError(taskHex, exitCodesAreData, cluster.calls)
                 == (if Acceptable(role, exitCodesAreData, answer.value.0) then None else Some(WorkloadFailed(role)))
              && |asked| >= 2 && asked[|asked| - 2] == WaitForJob(JobName(taskHex, role), Some(answer.value.0))
              && asked[|asked| - 1] == GetJobLogs(JobName(taskHex, role), Some(answer.value.1))
    ensures cluster.jobs * cluster.own == old(cluster.jobs * cluster.own)
  {
    hide Allowed, FirstError, JobName, OwnNames, TouchedNames, RoleOf, Untouched, NothingDeleted, Acceptable;
    JobNamesDistinct(taskHex, role, role);
    var name := JobName(taskHex, role);
    var outcome := cluster.Wait(name);
    AsksNext(taskHex, exitCodesAreData, before, own, WaitForJob(name, outcome), role);
    asked := own + [WaitForJob(name, outcome)];
    assert cluster.calls == before + asked;
    assert asked[..|own|] == own;
    if outcome.None? { return None, asked; }
    var log := cluster.Logs(name);
    AsksNext(taskHex, exitCodesAreData, before, asked, GetJobLogs(name, log), role);
    asked := asked + [GetJobLogs(name, log)];
    assert cluster.calls == before + asked;
    assert cluster.calls[|cluster.calls| - 2] == WaitForJob(name, outcome);
    assert asked[..|own|] == own && |asked| == |own| + 2;
    return if log.None? then None else Some((outcome.value, log.value)), asked;
  }

  /** One more Job after calls that all went well. */
  lemma JobAfter(taskHex: TaskHex, exitCodesAreData: bool, role: Role, before: seq<Call>, after: seq<Call>,
                 result: Result<(string, Option<int>), ExecError>)
    requires |before| <= |after| && after[..|before|] == before
    requires Explained(taskHex, exitCodesAreData, before, None) && InOrder(before)
    requires RanAs(after[|before|..], JobName(taskHex, role), role, exitCodesAreData, result)
    ensures Explained(taskHex, exitCodesAreData, after, if result.Ok? then None else Some(result.error))
    ensures InOrder(after)
  {
    hide Explained, InOrder, Ended, Stalled, EndedBadly;
    var asked := after[|before|..];
    assert after == before + asked;
    JobInOrder(asked, JobName(taskHex, role));
    JobExplained(taskHex, exitCodesAreData, role, asked, result);
    InOrderConcat(before, asked);
    ExplainedConcat(taskHex, exitCodesAreData, before, asked, None, if result.Ok? then None else Some(result.error));
  }

  /** Submit or discover one Job, wait for it and read its log. */
  method RunJob(cluster: Cluster, taskHex: TaskHex, role: Role, exitCodesAreData: bool)
    returns (result: Result<(string, Option<int>), ExecError>)
    requires cluster.own == OwnNames(taskHex)
    requires Allowed(taskHex, exitCodesAreData, cluster.calls)
    requires FirstError(taskHex, exitCodesAreData, cluster.calls).None?
    requires Untouched(cluster.calls, JobName(taskHex, role)) && NothingDeleted(cluster.calls)
    requires Ready(taskHex, exitCodesAreData, role, cluster.calls, |cluster.calls|)
    requires (role == Revparse ==> exitCodesAreData)
    modifies cluster
    ensures |old(cluster.calls)| <= |cluster.calls| && cluster.calls[..|old(cluster.calls)|] == old(cluster.calls)
    ensures forall i | |old(cluster.calls)| <= i < |cluster.calls| :: cluster.calls[i].name == JobName(taskHex, role)
    ensures Allowed(taskHex, exitCodesAreData, cluster.calls) && NothingDeleted(cluster.calls)
    ensures RanAs(cluster.calls[|old(cluster.calls)|..], JobName(taskHex, role), role, exitCodesAreData, result)
    ensures FirstError(taskHex, exitCodesAreData, cluster.calls) == if result.Ok? then None else Some(result.error)
    ensures result.Ok? ==>
              && JobReported(cluster.calls, JobName(taskHex, role), role, exitCodesAreData, result.value.0,
                             result.value.1)
              && (role != Scanner ==> SucceededBefore(cluster.calls, |cluster.calls|, JobName(taskHex, role)))
    ensures OthersKept(old(cluster.jobs * cluster.own), cluster.jobs * cluster.own, JobName(taskHex, role))
  {
    hide Allowed, FirstError, Ready, JobName, OwnNames, JobReported, SucceededBefore, Untouched;
    ghost var before := cluster.calls;
    assert before + [] == before;
    var raised, own := SubmitJob(cluster, taskHex, role, exitCodesAreData);
    assert cluster.calls[|before|..] == own;
    if raised { return Err(Transient(role)); }
    var answer, asked := AwaitJob(cluster, taskHex, role, exitCodesAreData, before, own);
    assert cluster.calls[|before|..] == asked;
    if answer.None? { return Err(Transient(role)); }
    var (outcome, log) := answer.value;
    var nonZeroExitIsData := role == Scanner && exitCodesAreData && outcome.failed && !outcome.timedOut;
    if !nonZeroExitIsData && (outcome.timedOut || outcome.failed || !outcome.succeeded) {
      return Err(WorkloadFailed(role));
    }
    LastReported(cluster.calls, JobName(taskHex, role), role, exitCodesAreData, outcome, log);
    return Ok((log, outcome.exitCode));
  }

  /** What a delete that returned has removed is not there. */
  predicate AsDeleted(call: Call, jobs: set<string>, pvcs: set<string>) {
    && (call.DeleteJob? && call.ok ==> call.name !in jobs)
    && (call.DeletePvc? && call.ok ==> call.name !in pvcs)
  }

  /** What a cleanup that has not raised yet has done: these Jobs were deleted and are gone. */
  ghost predicate Cleaning(cluster: Cluster, taskHex: TaskHex, exitCodesAreData: bool, start: seq<Call>,
                           asked: seq<Call>)
    reads cluster
  {
    && cluster.own == OwnNames(taskHex) && NothingDeleted(start) && cluster.calls == start + asked
    && Allowed(taskHex, exitCodesAreData, cluster.calls)
    && FirstError(taskHex, exitCodesAreData, cluster.calls) == FirstError(taskHex, exitCodesAreData, start)
    && AllGone(asked, cluster.jobs * cluster.own, cluster.own)
  }

  /** `left` are the Jobs of our own names that are still there. */
  predicate AllGone(asked: seq<Call>, left: set<string>, own: set<string>) {
    forall i | 0 <= i < |asked| :: asked[i].DeleteJob? && asked[i].ok && asked[i].name in own && asked[i].name !in left
  }

  /** Since `start` there were only deletes, each as good as its answer, and the last one raised or none did. */
  ghost predicate Cleaned(taskHex: TaskHex, start: seq<Call>, calls: seq<Call>, jobs: set<string>, pvcs: set<string>,
                          raised: bool) {
    && |start| <= |calls| && calls[..|start|] == start && (CleanupFailed(calls) <==> raised)
    && forall i | |start| <= i < |calls| ::
         && (calls[i].DeleteJob? || (calls[i].DeletePvc? && calls[i].name == PvcName(taskHex)))
         && AsDeleted(calls[i], jobs, pvcs)
  }

  method DeleteOwnJob(cluster: Cluster, taskHex: TaskHex, role: Role, exitCodesAreData: bool,
                      ghost start: seq<Call>, ghost asked: seq<Call>) returns (ok: bool)
    requires Cleaning(cluster, taskHex, exitCodesAreData, start, asked)
    requires (role == Revparse ==> exitCodesAreData)
    requires forall i | 0 <= i < |asked| :: asked[i].name != JobName(taskHex, role)
    modifies cluster
    ensures cluster.calls == start + asked + [DeleteJob(JobName(taskHex, role), ok)]
    ensures ok ==>
              Cleaning(cluster, taskHex, exitCodesAreData, start, asked + [DeleteJob(JobName(taskHex, role), true)])
    ensures Allowed(taskHex, exitCodesAreData, cluster.calls)
    ensures Cleaned(taskHex, start, cluster.calls, cluster.jobs, cluster.pvcs, !ok)
    ensures OthersKept(old(cluster.jobs * cluster.own), cluster.jobs * cluster.own, JobName(taskHex, role))
  {
    hide Allowed, FirstError, JobName, NothingDeleted, OwnNames, TouchedNames, RoleOf;
    var name := JobName(taskHex, role);
    JobNameTouched(taskHex, role, exitCodesAreData);
    ghost var jobsBefore := cluster.jobs * cluster.own;
    ok := cluster.RemoveJob(name);
    CleanupAsks(taskHex, exitCodesAreData, start, asked, DeleteJob(name, ok));
    assert start + (asked + [DeleteJob(name, ok)]) == start + asked + [DeleteJob(name, ok)];
    forall i | 0 <= i < |asked| ensures asked[i].name !in cluster.jobs * cluster.own {
      KeptApart(jobsBefore, cluster.jobs * cluster.own, name, asked[i].name);
    }
    CleanedSoFar(taskHex, start, asked, DeleteJob(name, ok), cluster);
  }

  lemma JobNameTouched(taskHex: TaskHex, role: Role, exitCodesAreData: bool)
    requires role == Revparse ==> exitCodesAreData
    ensures JobName(taskHex, role) in TouchedNames(taskHex, exitCodesAreData)
    ensures JobName(taskHex, role) in OwnNames(taskHex)
  {
  }

  method DeleteOwnJobs(cluster: Cluster, taskHex: TaskHex, exitCodesAreData: bool)
    returns (ok: bool, ghost asked: seq<Call>)
    requires Cleaning(cluster, taskHex, exitCodesAreData, cluster.calls, [])
    modifies cluster
    ensures Allowed(taskHex, exitCodesAreData, cluster.calls)
    ensures Cleaned(taskHex, old(cluster.calls), cluster.calls, cluster.jobs, cluster.pvcs, !ok)
    ensures ok ==>
              && Cleaning(cluster, taskHex, exitCodesAreData, old(cluster.calls), asked)
              && DeleteJob(JobName(taskHex, Checkout), true) in asked
              && DeleteJob(JobName(taskHex, Scanner), true) in asked
              && (exitCodesAreData ==> DeleteJob(JobName(taskHex, Revparse), true) in asked)
    ensures !exitCodesAreData ==>
              (JobName(taskHex, Revparse) in cluster.jobs * cluster.own
               <==> JobName(taskHex, Revparse) in old(cluster.jobs * cluster.own))
  {
    hide Allowed, FirstError, JobName, PvcName, NothingDeleted, OwnNames, AsDeleted, CleanupFailed, Cleaned, Cleaning,
         AllGone, OthersKept;
    ghost var start := cluster.calls;
    forall a, b ensures JobName(taskHex, a) == JobName(taskHex, b) <==> a == b { JobNamesDistinct(taskHex, a, b); }
    ghost var before := cluster.jobs * cluster.own;
    ok := DeleteOwnJob(cluster, taskHex, Checkout, exitCodesAreData, start, []);
    RevparseKept(before, cluster.jobs * cluster.own, taskHex, Checkout);
    asked := [] + [DeleteJob(JobName(taskHex, Checkout), true)];
    if !ok { return; }
    if exitCodesAreData {
      ok := DeleteOwnJob(cluster, taskHex, Revparse, exitCodesAreData, start, asked);
      if !ok { return; }
      asked := asked + [DeleteJob(JobName(taskHex, Revparse), true)];
    }
    before := cluster.jobs * cluster.own;
    ok := DeleteOwnJob(cluster, taskHex, Scanner, exitCodesAreData, start, asked);
    RevparseKept(before, cluster.jobs * cluster.own, taskHex, Scanner);
    asked := asked + [DeleteJob(JobName(taskHex, Scanner), true)];
  }

  lemma RevparseKept(before: set<string>, after: set<string>, taskHex: TaskHex, role: Role)
    requires OthersKept(before, after, JobName(taskHex, role)) && role != Revparse
    ensures JobName(taskHex, Revparse) in after <==> JobName(taskHex, Revparse) in before
  {
    JobNamesDistinct(taskHex, Revparse, role);
    KeptApart(before, after, JobName(taskHex, role), JobName(taskHex, Revparse));
  }

  /** Delete the Jobs, then the claim; a delete that raises skips the rest. */
  method Cleanup(cluster: Cluster, taskHex: TaskHex, exitCodesAreData: bool) returns (raised: bool)
    requires cluster.own == OwnNames(taskHex)
    requires Allowed(taskHex, exitCodesAreData, cluster.calls) && NothingDeleted(cluster.calls)
    modifies cluster
    ensures |old(cluster.calls)| <= |cluster.calls| && cluster.calls[..|old(cluster.calls)|] == old(cluster.calls)
    ensures Allowed(taskHex, exitCodesAreData, cluster.calls)
    ensures forall i | |old(cluster.calls)| <= i < |cluster.calls| ::
              cluster.calls[i].DeleteJob? || (cluster.calls[i].DeletePvc? && cluster.calls[i].name == PvcName(taskHex))
    ensures raised <==> CleanupFailed(cluster.calls)
    ensures !raised ==>
              FirstError(taskHex, exitCodesAreData, cluster.calls)
              == FirstError(taskHex, exitCodesAreData, old(cluster.calls))
    ensures !raised ==> cluster.jobs * JobNames(taskHex, exitCodesAreData) == {} && PvcName(taskHex) !in cluster.pvcs
    ensures forall i | |old(cluster.calls)| <= i < |cluster.calls| ::
              AsDeleted(cluster.calls[i], cluster.jobs, cluster.pvcs)
    ensures !exitCodesAreData ==>
              (JobName(taskHex, Revparse) in cluster.jobs * cluster.own
               <==> JobName(taskHex, Revparse) in old(cluster.jobs * cluster.own))
  {
    hide Allowed, FirstError, JobName, PvcName, NothingDeleted, OwnNames, TouchedNames, AsDeleted, CleanupFailed;
    ghost var start := cluster.calls;
    var ok: bool;
    ghost var asked: seq<Call>;
    assert start + [] == start;
    ok, asked := DeleteOwnJobs(cluster, taskHex, exitCodesAreData);
    if !ok { return true; }
    GoneOnceDeleted(taskHex, exitCodesAreData, asked, cluster.jobs);
    ok := cluster.RemovePvc(PvcName(taskHex));
    ClaimTouched(taskHex, exitCodesAreData);
    CleanupAsks(taskHex, exitCodesAreData, start, asked, DeletePvc(PvcName(taskHex), ok));
    CleanedSoFar(taskHex, start, asked, DeletePvc(PvcName(taskHex), ok), cluster);
    AllJobsGone(taskHex, exitCodesAreData, cluster.jobs);
    return !ok;
  }

  lemma ClaimTouched(taskHex: TaskHex, exitCodesAreData: bool)
    ensures PvcName(taskHex) in TouchedNames(taskHex, exitCodesAreData)
  {
  }

  lemma GoneOnceDeleted(taskHex: TaskHex, exitCodesAreData: bool, asked: seq<Call>, jobs: set<string>)
    requires AllGone(asked, jobs * OwnNames(taskHex), OwnNames(taskHex))
    requires DeleteJob(JobName(taskHex, Checkout), true) in asked && DeleteJob(JobName(taskHex, Scanner), true) in asked
    requires exitCodesAreData ==> DeleteJob(JobName(taskHex, Revparse), true) in asked
    ensures JobName(taskHex, Checkout) !in jobs * OwnNames(taskHex)
    ensures JobName(taskHex, Scanner) !in jobs * OwnNames(taskHex)
    ensures exitCodesAreData ==> JobName(taskHex, Revparse) !in jobs * OwnNames(taskHex)
  {
    hide JobName, OwnNames;
  }

  /** Everything the cleanup has deleted is gone, whether or not its latest call raised. */
  lemma CleanedSoFar(taskHex: TaskHex, start: seq<Call>, asked: seq<Call>, call: Call, cluster: Cluster)
    requires AllGone(asked, cluster.jobs * cluster.own, cluster.own)
    requires cluster.calls == start + asked + [call]
    requires (call.DeleteJob? && (call.ok ==> call.name !in cluster.jobs))
             || (call.DeletePvc? && call.name == PvcName(taskHex) && (call.ok ==> call.name !in cluster.pvcs))
    ensures Cleaned(taskHex, start, cluster.calls, cluster.jobs, cluster.pvcs, !call.ok)
  {
    hide OwnNames, PvcName;
    forall i | |start| <= i < |cluster.calls| - 1 ensures cluster.calls[i] == asked[i - |start|] { }
  }

  lemma AllJobsGone(taskHex: TaskHex, exitCodesAreData: bool, jobs: set<string>)
    requires JobName(taskHex, Checkout) !in jobs * OwnNames(taskHex)
    requires JobName(taskHex, Scanner) !in jobs * OwnNames(taskHex)
    requires exitCodesAreData ==> JobName(taskHex, Revparse) !in jobs * OwnNames(taskHex)
    ensures jobs * JobNames(taskHex, exitCodesAreData) == {}
  {
    hide JobName;
  }

  lemma CleanupAsks(taskHex: TaskHex, exitCodesAreData: bool, start: seq<Call>, asked: seq<Call>, call: Call)
    requires Allowed(taskHex, exitCodesAreData, start + asked) && NothingDeleted(start)
    requires call.DeleteJob? || call.DeletePvc?
    requires call.name in TouchedNames(taskHex, exitCodesAreData)
    requires forall i | 0 <= i < |asked| :: Request(asked[i]) != Request(call)
    ensures Allowed(taskHex, exitCodesAreData, start + asked + [call])
    ensures !Raised(call) ==>
              FirstError(taskHex, exitCodesAreData, start + asked + [call])
              == FirstError(taskHex, exitCodesAreData, start + asked)
  {
    hide Allowed, FirstError, TouchedNames;
    forall i | 0 <= i < |start| ensures Request(start[i]) != Request(call) {
      assert !start[i].DeleteJob? && !start[i].DeletePvc?;
    }
    Asks(taskHex, exitCodesAreData, start + asked, call);
  }

  // ------------------------------------------------------------------ the whole execution

  /** White space as Python's `str.strip` takes it: controls, separators and the Unicode spaces. */
  predicate IsSpace(c: char) {
    || '\t' <= c <= '\r' || '\U{001C}' <= c <= ' ' || c == '\U{0085}' || c == '\U{00A0}' || c == '\U{1680}'
    || '\U{2000}' <= c <= '\U{200A}'
    || c in {'\U{2028}', '\U{2029}', '\U{202F}', '\U{205F}', '\U{3000}'}
  }

  function Strip(text: string): (r: string)
    ensures |r| <= |text|
    ensures r != [] ==> !IsSpace(r[0]) && !IsSpace(r[|r| - 1])
    decreases |text|
  {
    if text == [] then []
    else if IsSpace(text[0]) then Strip(text[1..])
    else if IsSpace(text[|text| - 1]) then Strip(text[..|text| - 1])
    else text
  }

  predicate AllSpace(text: string) { forall i | 0 <= i < |text| :: IsSpace(text[i]) }

  /** Only white space is removed, and only from the two ends. */
  lemma {:induction false} StripExact(text: string) returns (before: string, after: string)
    ensures text == before + Strip(text) + after && AllSpace(before) && AllSpace(after)
    decreases |text|
  {
    hide IsSpace;
    if text == [] || (!IsSpace(text[0]) && !IsSpace(text[|text| - 1])) {
      before, after := [], [];
    } else if IsSpace(text[0]) {
      before, after := StripExact(text[1..]);
      Prepend(text, before, Strip(text[1..]), after);
      before := [text[0]] + before;
    } else {
      before, after := StripExact(text[..|text| - 1]);
      Append(text, before, Strip(text[..|text| - 1]), after);
      after := after + [text[|text| - 1]];
    }
  }

  lemma Prepend(text: string, before: string, core: string, after: string)
    requires text != [] && text[1..] == before + core + after
    ensures text == [text[0]] + before + core + after
  {
    assert text == [text[0]] + text[1..];
  }

  lemma Append(text: string, before: string, core: string, after: string)
    requires text != [] && text[..|text| - 1] == before + core + after
    ensures text == before + core + (after + [text[|text| - 1]])
  {
    assert text == text[..|text| - 1] + [text[|text| - 1]];
  }

  datatype ScanResult = ScanResult(checkoutLog: string, scannerLog: string, headSha: string,
                                   scannerExitCode: Option<int>)

  /** The result is made of what the Jobs reported: their logs, the commit, the scanner's exit code. */
  ghost predicate ResultOfCalls(taskHex: TaskHex, exitCodesAreData: bool, calls: seq<Call>, result: ScanResult) {
    && (exists code :: JobReported(calls, JobName(taskHex, Checkout), Checkout, exitCodesAreData, result.checkoutLog,
                                   code))
    && JobReported(calls, JobName(taskHex, Scanner), Scanner, exitCodesAreData, result.scannerLog,
                   result.scannerExitCode)
    && (if exitCodesAreData
        then exists log, code :: JobReported(calls, JobName(taskHex, Revparse), Revparse, exitCodesAreData, log, code)
                                 && result.headSha == Strip(log)
        else result.headSha == "")
  }

  /**
    One split execution, from any leftovers and with any call raising: a credential stops it
    before the first call; otherwise every call is allowed, the result is the verdict on them,
    and unless a delete raised nothing of it is left behind. Whatever a delete that returned
    named is gone even when a later one raised; and an execution without a rev-parse Job neither
    makes one nor removes the one a former attempt may have left.
  */
  method Execute(cluster: Cluster, taskHex: TaskHex, hasCredential: bool, exitCodesAreData: bool)
    returns (result: Result<ScanResult, ExecError>)
    requires cluster.own == OwnNames(taskHex) && cluster.calls == []
    modifies cluster
    ensures hasCredential ==>
              result == Err(PrivateRepository) && cluster.calls == []
              && cluster.jobs == old(cluster.jobs) && cluster.pvcs == old(cluster.pvcs)
    ensures !hasCredential ==> Allowed(taskHex, exitCodesAreData, cluster.calls)
    ensures !hasCredential ==>
              Verdict(taskHex, exitCodesAreData, cluster.calls) == if result.Ok? then None else Some(result.error)
    ensures result.Ok? ==> ResultOfCalls(taskHex, exitCodesAreData, cluster.calls, result.value)
    ensures InOrder(cluster.calls) && (CleanupFailed(cluster.calls) ==> result == Err(ClusterError))
    ensures !hasCredential && !CleanupFailed(cluster.calls) ==>
              Explained(taskHex, exitCodesAreData, cluster.calls, if result.Ok? then None else Some(result.error))
    ensures !hasCredential && !CleanupFailed(cluster.calls) ==>
              cluster.jobs * JobNames(taskHex, exitCodesAreData) == {} && PvcName(taskHex) !in cluster.pvcs
    ensures forall i | 0 <= i < |cluster.calls| :: AsDeleted(cluster.calls[i], cluster.jobs, cluster.pvcs)
    ensures !exitCodesAreData ==>
              (JobName(taskHex, Revparse) in cluster.jobs <==> JobName(taskHex, Revparse) in old(cluster.jobs))
    ensures !hasCredential && !CleanupFailed(cluster.calls) ==>
              (cluster.jobs * JobNames(taskHex, true) == {}
               <==> exitCodesAreData || JobName(taskHex, Revparse) !in old(cluster.jobs))
  {
    if hasCredential { return Err(PrivateRepository); }
    hide Allowed, FirstError, ResultOfCalls, JobReported, OwnNames, JobName, PvcName, JobNames, AsDeleted,
         NothingDeleted, Explained, InOrder;
    JobNameOwn(taskHex, Revparse);
    result := RunAll(cluster, taskHex, exitCodesAreData);
    ghost var ran := cluster.calls;
    var raised := Cleanup(cluster, taskHex, exitCodesAreData);
    AllAsDeleted(ran, cluster.calls, cluster.jobs, cluster.pvcs);
    CleanupExplains(taskHex, exitCodesAreData, ran, cluster.calls, if result.Ok? then None else Some(result.error));
    if result.Ok? { ResultStays(taskHex, exitCodesAreData, ran, cluster.calls, result.value); }
    WhatIsLeft(taskHex, exitCodesAreData, cluster.jobs);
    if raised { result := Err(ClusterError); }
  }

  lemma CleanupExplains(taskHex: TaskHex, exitCodesAreData: bool, ran: seq<Call>, calls: seq<Call>,
                        error: Option<ExecError>)
    requires |ran| <= |calls| && calls[..|ran|] == ran
    requires Explained(taskHex, exitCodesAreData, ran, error) && InOrder(ran)
    requires forall i | |ran| <= i < |calls| ::
               calls[i].DeleteJob? || (calls[i].DeletePvc? && calls[i].name == PvcName(taskHex))
    ensures Explained(taskHex, exitCodesAreData, calls, error) && InOrder(calls)
  {
    hide Explained, InOrder;
    var asked := calls[|ran|..];
    assert calls == ran + asked;
    forall i | 0 <= i < |asked| ensures asked[i] == calls[i + |ran|] { }
    forall role ensures PvcName(taskHex) != JobName(taskHex, role) { JobNamesDistinct(taskHex, role, role); }
    DeletesExplained(taskHex, exitCodesAreData, asked);
    InOrderConcat(ran, asked);
    ExplainedConcat(taskHex, exitCodesAreData, ran, asked, error, None);
  }

  lemma WhatIsLeft(taskHex: TaskHex, exitCodesAreData: bool, jobs: set<string>)
    ensures jobs * JobNames(taskHex, exitCodesAreData) == {} ==>
              (jobs * JobNames(taskHex, true) == {} <==> exitCodesAreData || JobName(taskHex, Revparse) !in jobs)
  {
    hide JobName;
  }

  lemma AllAsDeleted(ran: seq<Call>, calls: seq<Call>, jobs: set<string>, pvcs: set<string>)
    requires NothingDeleted(ran) && |ran| <= |calls| && calls[..|ran|] == ran
    requires forall i | |ran| <= i < |calls| :: AsDeleted(calls[i], jobs, pvcs)
    ensures forall i | 0 <= i < |calls| :: AsDeleted(calls[i], jobs, pvcs)
  {
    forall i | 0 <= i < |ran| ensures AsDeleted(calls[i], jobs, pvcs) { assert calls[i] == calls[..|ran|][i]; }
  }

  lemma ReportStays(calls: seq<Call>, more: seq<Call>, name: string, role: Role, exitCodesAreData: bool, log: string,
                    exitCode: Option<int>)
    requires |calls| <= |more| && more[..|calls|] == calls
    requires JobReported(calls, name, role, exitCodesAreData, log, exitCode)
    ensures JobReported(more, name, role, exitCodesAreData, log, exitCode)
  {
    var i, outcome :|
      && 0 <= i < |calls| - 1 && calls[i] == WaitForJob(name, Some(outcome))
      && calls[i + 1] == GetJobLogs(name, Some(log))
      && Acceptable(role, exitCodesAreData, outcome) && outcome.exitCode == exitCode;
    assert more[i] == more[..|calls|][i] && more[i + 1] == more[..|calls|][i + 1];
  }

  lemma ResultStays(taskHex: TaskHex, exitCodesAreData: bool, calls: seq<Call>, more: seq<Call>, result: ScanResult)
    requires |calls| <= |more| && more[..|calls|] == calls
    requires ResultOfCalls(taskHex, exitCodesAreData, calls, result)
    ensures ResultOfCalls(taskHex, exitCodesAreData, more, result)
  {
    hide JobReported;
    var code :| JobReported(calls, JobName(taskHex, Checkout), Checkout, exitCodesAreData, result.checkoutLog, code);
    ReportStays(calls, more, JobName(taskHex, Checkout), Checkout, exitCodesAreData, result.checkoutLog, code);
    ReportStays(calls, more, JobName(taskHex, Scanner), Scanner, exitCodesAreData, result.scannerLog,
                result.scannerExitCode);
    if exitCodesAreData {
      var log, revparseCode :| JobReported(calls, JobName(taskHex, Revparse), Revparse, exitCodesAreData, log,
                                           revparseCode)
                               && result.headSha == Strip(log);
      ReportStays(calls, more, JobName(taskHex, Revparse), Revparse, exitCodesAreData, log, revparseCode);
    }
  }

  lemma UntouchedAfter(calls: seq<Call>, more: seq<Call>, taskHex: TaskHex, ran: Role, next: Role)
    requires Untouched(calls, JobName(taskHex, next)) && ran != next
    requires |calls| <= |more| && more[..|calls|] == calls
    requires forall i | |calls| <= i < |more| :: more[i].name == JobName(taskHex, ran)
    ensures Untouched(more, JobName(taskHex, next))
  {
    JobNamesDistinct(taskHex, ran, next);
    forall i | 0 <= i < |more| ensures more[i].name != JobName(taskHex, next) {
      if i < |calls| { assert more[i] == more[..|calls|][i]; }
    }
  }

  lemma KeptApart(before: set<string>, after: set<string>, name: string, other: string)
    requires OthersKept(before, after, name) && other != name
    ensures other in after <==> other in before
  {
    assert other in after - {name} <==> other in before - {name};
  }

  lemma RevparseApart(taskHex: TaskHex)
    ensures JobName(taskHex, Revparse) != JobName(taskHex, Checkout)
    ensures JobName(taskHex, Revparse) != JobName(taskHex, Scanner)
    ensures JobName(taskHex, Revparse) in OwnNames(taskHex)
  {
    JobNamesDistinct(taskHex, Revparse, Checkout);
    JobNamesDistinct(taskHex, Revparse, Scanner);
  }

  /** The guarded part: claim, checkout, rev-parse, scanner. */
  method RunAll(cluster: Cluster, taskHex: TaskHex, exitCodesAreData: bool)
    returns (result: Result<ScanResult, ExecError>)
    requires cluster.own == OwnNames(taskHex) && cluster.calls == []
    modifies cluster
    ensures Allowed(taskHex, exitCodesAreData, cluster.calls) && NothingDeleted(cluster.calls)
    ensures FirstError(taskHex, exitCodesAreData, cluster.calls) == if result.Ok? then None else Some(result.error)
    ensures result.Ok? ==> ResultOfCalls(taskHex, exitCodesAreData, cluster.calls, result.value)
    ensures InOrder(cluster.calls)
    ensures Explained(taskHex, exitCodesAreData, cluster.calls, if result.Ok? then None else Some(result.error))
    ensures !exitCodesAreData ==>
              (JobName(taskHex, Revparse) in cluster.jobs * cluster.own
               <==> JobName(taskHex, Revparse) in old(cluster.jobs * cluster.own))
  {
    RevparseApart(taskHex);
    hide Allowed, FirstError, JobReported, SucceededBefore, ClaimedBefore, Untouched, Explained, InOrder, RanAs;
    var raised := EnsurePvc(cluster, taskHex, exitCodesAreData);
    if raised { return Err(ClusterError); }
    ghost var claimed := cluster.calls;
    ghost var leftover := cluster.jobs * cluster.own;
    var checkout := RunJob(cluster, taskHex, Checkout, exitCodesAreData);
    KeptApart(leftover, cluster.jobs * cluster.own, JobName(taskHex, Checkout), JobName(taskHex, Revparse));
    JobAfter(taskHex, exitCodesAreData, Checkout, claimed, cluster.calls, checkout);
    if checkout.Err? { return Err(checkout.error); }
    ghost var checkedOut := cluster.calls;
    UntouchedAfter(claimed, checkedOut, taskHex, Checkout, Revparse);
    UntouchedAfter(claimed, checkedOut, taskHex, Checkout, Scanner);
    ClaimStays(claimed, checkedOut, taskHex);
    var headSha := "";
    if exitCodesAreData {
      var revparse := RunJob(cluster, taskHex, Revparse, exitCodesAreData);
      JobAfter(taskHex, exitCodesAreData, Revparse, checkedOut, cluster.calls, revparse);
      if revparse.Err? { return Err(revparse.error); }
      UntouchedAfter(checkedOut, cluster.calls, taskHex, Revparse, Scanner);
      ReportStays(checkedOut, cluster.calls, JobName(taskHex, Checkout), Checkout, exitCodesAreData, checkout.value.0,
                  checkout.value.1);
      ClaimStays(checkedOut, cluster.calls, taskHex);
      SuccessStays(checkedOut, cluster.calls, JobName(taskHex, Checkout));
      headSha := Strip(revparse.value.0);
      ghost var parsed := cluster.calls;
      var scanner := RunJob(cluster, taskHex, Scanner, exitCodesAreData);
      JobAfter(taskHex, exitCodesAreData, Scanner, parsed, cluster.calls, scanner);
      if scanner.Err? { return Err(scanner.error); }
      ReportStays(parsed, cluster.calls, JobName(taskHex, Checkout), Checkout, exitCodesAreData, checkout.value.0,
                  checkout.value.1);
      ReportStays(parsed, cluster.calls, JobName(taskHex, Revparse), Revparse, exitCodesAreData, revparse.value.0,
                  revparse.value.1);
      return Ok(ScanResult(checkout.value.0, scanner.value.0, headSha, scanner.value.1));
    }
    leftover := cluster.jobs * cluster.own;
    var scanner := RunJob(cluster, taskHex, Scanner, exitCodesAreData);
    KeptApart(leftover, cluster.jobs * cluster.own, JobName(taskHex, Scanner), JobName(taskHex, Revparse));
    JobAfter(taskHex, exitCodesAreData, Scanner, checkedOut, cluster.calls, scanner);
    if scanner.Err? { return Err(scanner.error); }
    ReportStays(checkedOut, cluster.calls, JobName(taskHex, Checkout), Checkout, exitCodesAreData, checkout.value.0,
                checkout.value.1);
    return Ok(ScanResult(checkout.value.0, scanner.value.0, headSha, scanner.value.1));
  }

  lemma ClaimStays(calls: seq<Call>, more: seq<Call>, taskHex: TaskHex)
    requires |calls| <= |more| && more[..|calls|] == calls && ClaimedBefore(calls, |calls|, PvcName(taskHex))
    ensures ClaimedBefore(more, |more|, PvcName(taskHex))
  {
    forall i | 0 <= i < |calls| ensures more[i] == calls[i] { assert more[..|calls|][i] == more[i]; }
  }

  lemma SuccessStays(calls: seq<Call>, more: seq<Call>, name: string)
    requires |calls| <= |more| && more[..|calls|] == calls && SucceededBefore(calls, |calls|, name)
    ensures SucceededBefore(more, |more|, name)
  {
    forall i | 0 <= i < |calls| ensures more[i] == calls[i] { assert more[..|calls|][i] == more[i]; }
  }

  /** Nothing is ever asked about a task whose identifier keeps different digits. */
  lemma OtherTasksUntouched(taskHex: TaskHex, exitCodesAreData: bool, calls: seq<Call>, other: TaskHex)
    requires Allowed(taskHex, exitCodesAreData, calls) && taskHex[..NAME_HEX_LEN] != other[..NAME_HEX_LEN]
    ensures forall i | 0 <= i < |calls| :: calls[i].name !in OwnNames(other)
  {
    OwnNamesDisjointIff(taskHex, other);
    forall i | 0 <= i < |calls| ensures calls[i].name in OwnNames(taskHex) {
      assert AllowedAt(taskHex, exitCodesAreData, calls, i);
    }
  }
}
