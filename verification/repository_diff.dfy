/**
  The queries over the findings table: the diff of a repository's two latest scans, the counts
  by run, and the trend. Each is pure id-equality on the compact index; here it is compared
  with what the full history of scans says.
*/
module RepositoryDiff {
  import opened Wrappers
  import opened FindingIndex

  datatype DiffSets = DiffSets(added: set<Key>, resolved: set<Key>, carried: set<Key>)

  function DiffBetweenRuns(index: Index, repositoryId: nat, latestRunId: nat, baselineRunId: nat): DiffSets {
    DiffSets(
      set key | key in index && key.subject == Repository(repositoryId) && index[key].firstSeen == latestRunId,
      set key | key in index && key.subject == Repository(repositoryId) && index[key].lastSeen == baselineRunId,
      set key | key in index && key.subject == Repository(repositoryId)
                && index[key].lastSeen == latestRunId && index[key].firstSeen != latestRunId)
  }

  // ------------------------------------------------------------------ exactness

  ghost predicate OccursElsewhere(scans: seq<Scan>, l: int, fingerprint: string) {
    exists j :: j != l && Occurs(scans, j, fingerprint)
  }

  /**
    What a diff of scan `l` against scan `b` should be: added is what only scan `l` reported,
    carried is what it shares with any other scan, resolved is what `b` had and `l` has not.
  */
  ghost predicate DiffExact(diff: DiffSets, scans: seq<Scan>, repositoryId: nat, l: int, b: int) {
    && (forall key | key in diff.added + diff.resolved + diff.carried :: key.subject == Repository(repositoryId))
    && forall f: string :: DiffExactFor(diff, scans, Key(Repository(repositoryId), f), l, b)
  }

  ghost predicate DiffExactFor(diff: DiffSets, scans: seq<Scan>, key: Key, l: int, b: int) {
    var f := key.fingerprint;
    && (key in diff.added <==> Occurs(scans, l, f) && !OccursElsewhere(scans, l, f))
    && (key in diff.carried <==> Occurs(scans, l, f) && OccursElsewhere(scans, l, f))
    && (key in diff.resolved <==> Occurs(scans, b, f) && !Occurs(scans, l, f))
  }

  /** An exact diff is a partition: disjoint sets, and added plus carried is the latest scan. */
  lemma ExactDiffIsPartition(diff: DiffSets, scans: seq<Scan>, repositoryId: nat, l: int, b: int)
    requires DiffExact(diff, scans, repositoryId, l, b)
    ensures diff.added !! diff.resolved !! diff.carried
    ensures forall f: string :: Key(Repository(repositoryId), f) in diff.added + diff.carried <==> Occurs(scans, l, f)
  {
    hide OccursElsewhere, Occurs;
    forall key: Key
      ensures !(key in diff.added && key in diff.resolved) && !(key in diff.added && key in diff.carried)
              && !(key in diff.resolved && key in diff.carried)
    {
      if key in diff.added + diff.resolved + diff.carried {
        assert DiffExactFor(diff, scans, Key(Repository(repositoryId), key.fingerprint), l, b);
      }
    }
    forall f: string
      ensures Key(Repository(repositoryId), f) in diff.added + diff.carried <==> Occurs(scans, l, f)
    {
      assert DiffExactFor(diff, scans, Key(Repository(repositoryId), f), l, b);
    }
  }

  predicate DistinctRuns(scans: seq<Scan>) {
    forall i, j | 0 <= i < j < |scans| :: scans[i].runId != scans[j].runId
  }

  lemma DiffExactWhenLastTwo(index: Index, scans: seq<Scan>, repositoryId: nat)
    requires |scans| >= 2 && DistinctRuns(scans)
    requires forall f: string :: RowTellsHistory(index, scans, Key(Repository(repositoryId), f))
    ensures var n := |scans|;
            DiffExact(DiffBetweenRuns(index, repositoryId, scans[n - 1].runId, scans[n - 2].runId),
                      scans, repositoryId, n - 1, n - 2)
  {
    var n := |scans|;
    var diff := DiffBetweenRuns(index, repositoryId, scans[n - 1].runId, scans[n - 2].runId);
    forall f: string ensures DiffExactFor(diff, scans, Key(Repository(repositoryId), f), n - 1, n - 2) {
      LastTwoExactFor(index, scans, Key(Repository(repositoryId), f), repositoryId);
    }
  }

  lemma LastTwoExactFor(index: Index, scans: seq<Scan>, key: Key, repositoryId: nat)
    requires |scans| >= 2 && DistinctRuns(scans) && key.subject == Repository(repositoryId)
    requires RowTellsHistory(index, scans, key)
    ensures var n := |scans|;
            DiffExactFor(DiffBetweenRuns(index, repositoryId, scans[n - 1].runId, scans[n - 2].runId), scans, key,
                         n - 1, n - 2)
  {
    var n, f := |scans|, key.fingerprint;
    if key in index {
      var first :| FirstOccurs(scans, first, f) && index[key].firstSeen == scans[first].runId;
      var last :| LastOccurs(scans, last, f) && index[key].lastSeen == scans[last].runId;
      assert first == n - 1 <==> index[key].firstSeen == scans[n - 1].runId;
      assert last == n - 1 <==> index[key].lastSeen == scans[n - 1].runId;
      assert last == n - 2 <==> index[key].lastSeen == scans[n - 2].runId;
      assert Occurs(scans, n - 1, f) <==> last == n - 1;
      if first == n - 1 {
        assert !OccursElsewhere(scans, n - 1, f);
      } else {
        assert OccursElsewhere(scans, n - 1, f);
      }
    } else {
      assert !Occurs(scans, n - 1, f) && !Occurs(scans, n - 2, f);
    }
  }

  // ------------------------------------------------------------------ exactly when

  const PROBE: Finding := Finding("probe", Medium, 0, "")

  /** A history with the given completion order in which exactly the chosen scans report one finding. */
  function ProbeScans(subject: Subject, order: seq<nat>, reporting: set<int>): seq<Scan> {
    seq(|order|, i requires 0 <= i < |order| => Scan(subject, order[i], if i in reporting then [PROBE] else []))
  }

  function Indices(n: nat): (r: set<int>)
    ensures forall i :: i in r <==> 0 <= i < n
  {
    if n == 0 then {} else Indices(n - 1) + {n - 1}
  }

  function HistoryOf(scans: seq<Scan>): seq<Change> {
    seq(|scans|, i requires 0 <= i < |scans| => Completed(scans[i]))
  }

  lemma {:induction false} ScansOfHistory(scans: seq<Scan>, subject: Subject)
    requires forall i | 0 <= i < |scans| :: scans[i].subject == subject
    ensures ScansOf(HistoryOf(scans), subject) == scans
  {
    if scans != [] {
      var n := |scans| - 1;
      ScansOfHistory(scans[..n], subject);
      assert HistoryOf(scans)[..n] == HistoryOf(scans[..n]);
    }
  }

  /** These scans completed in this order, with whatever findings. */
  ghost predicate CompletedInOrder(scans: seq<Scan>, subject: Subject, order: seq<nat>) {
    && |scans| == |order|
    && forall i | 0 <= i < |scans| ::
         scans[i].subject == subject && scans[i].runId == order[i] && DistinctFingerprints(scans[i].batch)
  }

  predicate DistinctIds(order: seq<nat>) {
    forall i, j | 0 <= i < j < |order| :: order[i] != order[j]
  }

  /** The index after exactly these scans. */
  function IndexAfter(scans: seq<Scan>): Index { IndexOf(HistoryOf(scans)) }

  ghost predicate ExactFor(scans: seq<Scan>, repositoryId: nat, order: seq<nat>, l: nat, b: nat)
    requires l < |order| && b < |order|
  {
    DiffExact(DiffBetweenRuns(IndexAfter(scans), repositoryId, order[l], order[b]), scans, repositoryId, l, b)
  }

  lemma ScansTellIndex(scans: seq<Scan>, repositoryId: nat, order: seq<nat>, key: Key)
    requires CompletedInOrder(scans, Repository(repositoryId), order) && DistinctIds(order)
    requires key.subject == Repository(repositoryId)
    ensures ValidHistory(HistoryOf(scans)) && RowTellsHistory(IndexAfter(scans), scans, key)
  {
    ScansOfHistory(scans, Repository(repositoryId));
    RowRefinesHistory(HistoryOf(scans), key);
  }

  /** One finding in the chosen scans: its row names the first and the last of them. */
  lemma ProbeRow(repositoryId: nat, order: seq<nat>, reporting: set<int>, first: nat, last: nat)
    requires DistinctIds(order) && first <= last < |order|
    requires first in reporting && last in reporting
    requires forall i | i in reporting :: first <= i <= last
    ensures var scans := ProbeScans(Repository(repositoryId), order, reporting);
            var key := Key(Repository(repositoryId), "probe");
            && CompletedInOrder(scans, Repository(repositoryId), order)
            && (forall i :: Occurs(scans, i, "probe") <==> 0 <= i < |order| && i in reporting)
            && key in IndexAfter(scans)
            && IndexAfter(scans)[key].firstSeen == order[first]
            && IndexAfter(scans)[key].lastSeen == order[last]
  {
    var scans, key := ProbeScans(Repository(repositoryId), order, reporting), Key(Repository(repositoryId), "probe");
    forall i ensures Occurs(scans, i, "probe") <==> 0 <= i < |order| && i in reporting {
      if 0 <= i < |order| && i in reporting { assert scans[i].batch[0].fingerprint == "probe"; }
    }
    ScansTellIndex(scans, repositoryId, order, key);
    assert Occurs(scans, first, "probe");
    assert FirstOccurs(scans, first, "probe") && LastOccurs(scans, last, "probe");
  }

  /** If the newer run did not complete last, a finding present in every scan is misreported. */
  lemma InexactUnlessLatestLast(repositoryId: nat, order: seq<nat>, l: nat, b: nat)
    requires DistinctIds(order) && l < |order| && b < |order| && l != b && l != |order| - 1
    ensures !ExactFor(ProbeScans(Repository(repositoryId), order, Indices(|order|)), repositoryId, order, l, b)
  {
    var n := |order|;
    var all := Indices(n);
    var scans, key := ProbeScans(Repository(repositoryId), order, all), Key(Repository(repositoryId), "probe");
    ProbeRow(repositoryId, order, all, 0, n - 1);
    assert order[n - 1] != order[l];
    var diff := DiffBetweenRuns(IndexAfter(scans), repositoryId, order[l], order[b]);
    assert key !in diff.carried;
    assert Occurs(scans, l, "probe") && Occurs(scans, b, "probe");
    assert OccursElsewhere(scans, l, "probe");
    assert !DiffExactFor(diff, scans, key, l, b);
  }

  /** If another scan completed between the two, what it shares with the baseline is lost. */
  lemma InexactUnlessBaselineSecondLast(repositoryId: nat, order: seq<nat>, b: nat)
    requires DistinctIds(order) && |order| >= 2 && b < |order| - 2
    ensures var n := |order|;
            !ExactFor(ProbeScans(Repository(repositoryId), order, {b, n - 2}), repositoryId, order, n - 1, b)
  {
    var n := |order|;
    var scans, key := ProbeScans(Repository(repositoryId), order, {b, n - 2}), Key(Repository(repositoryId), "probe");
    ProbeRow(repositoryId, order, {b, n - 2}, b, n - 2);
    var diff := DiffBetweenRuns(IndexAfter(scans), repositoryId, order[n - 1], order[b]);
    assert order[b] != order[n - 2];
    assert key !in diff.resolved && Occurs(scans, b, "probe") && !Occurs(scans, n - 1, "probe");
    assert !DiffExactFor(diff, scans, key, n - 1, b);
  }

  lemma ExactForLastTwo(scans: seq<Scan>, repositoryId: nat, order: seq<nat>)
    requires DistinctIds(order) && |order| >= 2 && CompletedInOrder(scans, Repository(repositoryId), order)
    ensures ExactFor(scans, repositoryId, order, |order| - 1, |order| - 2)
  {
    forall f: string ensures RowTellsHistory(IndexAfter(scans), scans, Key(Repository(repositoryId), f)) {
      ScansTellIndex(scans, repositoryId, order, Key(Repository(repositoryId), f));
    }
    DiffExactWhenLastTwo(IndexAfter(scans), scans, repositoryId);
  }

  /**
    The id-equality diff of run `l` against run `b` is right for every possible content of the
    scans exactly when `l` completed last and `b` completed immediately before it.
  */
  lemma DiffExactIffLastTwoCompleted(repositoryId: nat, order: seq<nat>, l: nat, b: nat)
    requires DistinctIds(order) && l < |order| && b < |order| && l != b
    ensures (forall scans | CompletedInOrder(scans, Repository(repositoryId), order) ::
               ExactFor(scans, repositoryId, order, l, b))
       <==> l == |order| - 1 && b == |order| - 2
  {
    hide ExactFor, DistinctIds, CompletedInOrder, IndexAfter, Occurs;
    var n := |order|;
    if l == n - 1 && b == n - 2 {
      forall scans | CompletedInOrder(scans, Repository(repositoryId), order)
        ensures ExactFor(scans, repositoryId, order, l, b)
      {
        ExactForLastTwo(scans, repositoryId, order);
      }
    } else if l != n - 1 {
      ProbeRow(repositoryId, order, Indices(n), 0, n - 1);
      InexactUnlessLatestLast(repositoryId, order, l, b);
    } else {
      ProbeRow(repositoryId, order, {b, n - 2}, b, n - 2);
      InexactUnlessBaselineSecondLast(repositoryId, order, b);
    }
  }

  // ------------------------------------------------------------------ disjoint exactly when

  predicate Disjoint(diff: DiffSets) { diff.added !! diff.resolved !! diff.carried }

  /** First seen in `l` and last seen in `b` is impossible once `b` completed earlier. */
  lemma DisjointWhenLatestLater(index: Index, scans: seq<Scan>, repositoryId: nat, l: nat, b: nat)
    requires DistinctRuns(scans) && b < l < |scans|
    requires forall f: string :: RowTellsHistory(index, scans, Key(Repository(repositoryId), f))
    ensures Disjoint(DiffBetweenRuns(index, repositoryId, scans[l].runId, scans[b].runId))
  {
    var diff := DiffBetweenRuns(index, repositoryId, scans[l].runId, scans[b].runId);
    forall key | key in diff.added ensures key !in diff.resolved {
      assert key == Key(Repository(repositoryId), key.fingerprint);
      assert RowTellsHistory(index, scans, Key(Repository(repositoryId), key.fingerprint));
      var first :| FirstOccurs(scans, first, key.fingerprint) && index[key].firstSeen == scans[first].runId;
      var last :| LastOccurs(scans, last, key.fingerprint) && index[key].lastSeen == scans[last].runId;
      assert first <= last && first == l;
    }
    assert scans[b].runId != scans[l].runId;
  }

  ghost predicate DisjointFor(scans: seq<Scan>, repositoryId: nat, order: seq<nat>, l: nat, b: nat)
    requires l < |order| && b < |order|
  {
    Disjoint(DiffBetweenRuns(IndexAfter(scans), repositoryId, order[l], order[b]))
  }

  /** The latest run completed before the baseline: what both report is both added and resolved. */
  lemma NotDisjointUnlessLatestLater(repositoryId: nat, order: seq<nat>, l: nat, b: nat)
    requires DistinctIds(order) && l < b < |order|
    ensures var scans := ProbeScans(Repository(repositoryId), order, {l, b});
            CompletedInOrder(scans, Repository(repositoryId), order) && !DisjointFor(scans, repositoryId, order, l, b)
  {
    var scans := ProbeScans(Repository(repositoryId), order, {l, b});
    ProbeRow(repositoryId, order, {l, b}, l, b);
    var diff := DiffBetweenRuns(IndexAfter(scans), repositoryId, order[l], order[b]);
    assert Key(Repository(repositoryId), "probe") in diff.added * diff.resolved;
  }

  /**
    The three sets are disjoint for every possible content of the scans exactly when the latest
    run completed after the baseline; other scans may have completed in between or afterwards.
  */
  lemma DiffDisjointIffLatestLater(repositoryId: nat, order: seq<nat>, l: nat, b: nat)
    requires DistinctIds(order) && l < |order| && b < |order| && l != b
    ensures (forall scans | CompletedInOrder(scans, Repository(repositoryId), order) ::
               DisjointFor(scans, repositoryId, order, l, b))
       <==> b < l
  {
    hide Disjoint, DiffBetweenRuns, IndexAfter, RowTellsHistory, ProbeScans;
    if b < l {
      forall scans | CompletedInOrder(scans, Repository(repositoryId), order)
        ensures DisjointFor(scans, repositoryId, order, l, b)
      {
        forall f: string ensures RowTellsHistory(IndexAfter(scans), scans, Key(Repository(repositoryId), f)) {
          ScansTellIndex(scans, repositoryId, order, Key(Repository(repositoryId), f));
        }
        DisjointWhenLatestLater(IndexAfter(scans), scans, repositoryId, l, b);
      }
    } else {
      NotDisjointUnlessLatestLater(repositoryId, order, l, b);
    }
  }

  // ------------------------------------------------------------------ the use case

  datatype CompletedRun = CompletedRun(id: nat, createdAt: real)

  predicate Newer(a: CompletedRun, b: CompletedRun) {
    a.createdAt > b.createdAt || (a.createdAt == b.createdAt && a.id > b.id)
  }

  /** `ORDER BY created_at DESC, id DESC LIMIT n` over a repository's completed runs. */
  predicate IsRecentCompleted(runs: seq<CompletedRun>, limit: nat, recent: seq<CompletedRun>) {
    && |recent| == (if |runs| < limit then |runs| else limit)
    && (forall i | 0 <= i < |recent| :: recent[i] in runs)
    && (forall i, j | 0 <= i < j < |recent| :: Newer(recent[i], recent[j]))
    && (forall run, i | run in runs && run !in recent && 0 <= i < |recent| :: Newer(recent[i], run))
  }

  datatype RepositoryDiffRead = RepositoryDiffRead(latestRun: Option<nat>, baselineRun: Option<nat>, sets: DiffSets)
  datatype DiffError = RepositoryNotFound

  /** `freshId` matches no run, so a sole run is diffed against nothing. */
  function GetRepositoryDiff(repositoryIsActive: bool, index: Index, repositoryId: nat, recent: seq<CompletedRun>,
                             freshId: nat)
    : (r: Result<RepositoryDiffRead, DiffError>)
    ensures r.Err? <==> !repositoryIsActive
  {
    if !repositoryIsActive then Err(RepositoryNotFound)
    else if recent == [] then Ok(RepositoryDiffRead(None, None, DiffSets({}, {}, {})))
    else if |recent| == 1 then
      var diff := DiffBetweenRuns(index, repositoryId, recent[0].id, freshId);
      Ok(RepositoryDiffRead(Some(recent[0].id), None, DiffSets(diff.added, {}, {})))
    else
      Ok(RepositoryDiffRead(Some(recent[0].id), Some(recent[1].id),
                            DiffBetweenRuns(index, repositoryId, recent[0].id, recent[1].id)))
  }

  function RunIds(runs: seq<CompletedRun>): seq<nat> {
    seq(|runs|, i requires 0 <= i < |runs| => runs[i].id)
  }

  /** The completed runs of a repository, in the order they completed. */
  predicate RunsMatchScans(runs: seq<CompletedRun>, scans: seq<Scan>) {
    && |runs| == |scans|
    && forall i | 0 <= i < |runs| :: runs[i].id == scans[i].runId
  }

  /** A history, of whatever content, in which these were the repository's completed runs. */
  ghost predicate CompletedAs(history: seq<Change>, repositoryId: nat, runs: seq<CompletedRun>) {
    ValidHistory(history) && RunsMatchScans(runs, ScansOf(history, Repository(repositoryId)))
  }

  /** The two runs the query picks as newest are `l` and `b` in the order of completion. */
  predicate PicksRuns(runs: seq<CompletedRun>, recent: seq<CompletedRun>, l: nat, b: nat) {
    && IsRecentCompleted(runs, 2, recent) && DistinctIds(RunIds(runs))
    && l < |runs| && b < |runs| && |recent| == 2 && runs[l] == recent[0] && runs[b] == recent[1]
  }

  function AnsweredSets(history: seq<Change>, repositoryId: nat, recent: seq<CompletedRun>, freshId: nat): DiffSets {
    GetRepositoryDiff(true, IndexOf(history), repositoryId, recent, freshId).value.sets
  }

  lemma RowsTellHistory(history: seq<Change>, subject: Subject)
    requires ValidHistory(history)
    ensures DistinctRuns(ScansOf(history, subject))
    ensures forall f: string :: RowTellsHistory(IndexOf(history), ScansOf(history, subject), Key(subject, f))
  {
    hide RowTellsHistory, IndexOf;
    ScansOfDistinct(history, subject);
    forall f: string ensures RowTellsHistory(IndexOf(history), ScansOf(history, subject), Key(subject, f)) {
      RowRefinesHistory(history, Key(subject, f));
    }
  }

  /** Any scans can be the whole history of a repository. */
  lemma ScansAsHistory(scans: seq<Scan>, repositoryId: nat, runs: seq<CompletedRun>)
    requires DistinctIds(RunIds(runs)) && CompletedInOrder(scans, Repository(repositoryId), RunIds(runs))
    ensures CompletedAs(HistoryOf(scans), repositoryId, runs)
    ensures ScansOf(HistoryOf(scans), Repository(repositoryId)) == scans
  {
    ScansOfHistory(scans, Repository(repositoryId));
    ScansTellIndex(scans, repositoryId, RunIds(runs), Key(Repository(repositoryId), ""));
  }

  /**
    The answer of the use case is exact for every history of the repository exactly when the
    newest completed run by creation completed last and the next newest just before it.
  */
  lemma RepositoryDiffExactIff(repositoryId: nat, runs: seq<CompletedRun>, recent: seq<CompletedRun>, freshId: nat,
                               l: nat, b: nat)
    requires PicksRuns(runs, recent, l, b)
    ensures (forall history | CompletedAs(history, repositoryId, runs) ::
               DiffExact(AnsweredSets(history, repositoryId, recent, freshId),
                         ScansOf(history, Repository(repositoryId)), repositoryId, l, b))
       <==> recent[0] == runs[|runs| - 1] && recent[1] == runs[|runs| - 2]
  {
    var n, order := |runs|, RunIds(runs);
    PickedPositions(runs, recent, l, b);
    hide DiffExact, DiffBetweenRuns, ValidHistory, RowTellsHistory, CompletedInOrder, DistinctIds, IsRecentCompleted,
         HistoryOf;
    if l == n - 1 && b == n - 2 {
      forall history | CompletedAs(history, repositoryId, runs)
        ensures DiffExact(AnsweredSets(history, repositoryId, recent, freshId),
                          ScansOf(history, Repository(repositoryId)), repositoryId, l, b)
      {
        RowsTellHistory(history, Repository(repositoryId));
        DiffExactWhenLastTwo(IndexOf(history), ScansOf(history, Repository(repositoryId)), repositoryId);
      }
    }
    if forall history | CompletedAs(history, repositoryId, runs) ::
         DiffExact(AnsweredSets(history, repositoryId, recent, freshId),
                   ScansOf(history, Repository(repositoryId)), repositoryId, l, b)
    {
      forall scans | CompletedInOrder(scans, Repository(repositoryId), order)
        ensures ExactFor(scans, repositoryId, order, l, b)
      {
        ScansAsHistory(scans, repositoryId, runs);
      }
      DiffExactIffLastTwoCompleted(repositoryId, order, l, b);
    }
  }

  lemma PickedPositions(runs: seq<CompletedRun>, recent: seq<CompletedRun>, l: nat, b: nat)
    requires PicksRuns(runs, recent, l, b)
    ensures l != b && |runs| >= 2
    ensures recent[0] == runs[|runs| - 1] <==> l == |runs| - 1
    ensures recent[1] == runs[|runs| - 2] <==> b == |runs| - 2
  {
    assert Newer(recent[0], recent[1]);
    forall i, j | 0 <= i < j < |runs| ensures runs[i] != runs[j] { assert RunIds(runs)[i] != RunIds(runs)[j]; }
  }

  /** And its three sets are disjoint for every history exactly when the newest completed after the next newest. */
  lemma RepositoryDiffDisjointIff(repositoryId: nat, runs: seq<CompletedRun>, recent: seq<CompletedRun>, freshId: nat,
                                  l: nat, b: nat)
    requires PicksRuns(runs, recent, l, b)
    ensures (forall history | CompletedAs(history, repositoryId, runs) ::
               Disjoint(AnsweredSets(history, repositoryId, recent, freshId)))
       <==> b < l
  {
    var order := RunIds(runs);
    PickedPositions(runs, recent, l, b);
    hide Disjoint, DiffBetweenRuns, ValidHistory, RowTellsHistory, CompletedInOrder, DistinctIds, IsRecentCompleted,
         HistoryOf;
    if b < l {
      forall history | CompletedAs(history, repositoryId, runs)
        ensures Disjoint(AnsweredSets(history, repositoryId, recent, freshId))
      {
        RowsTellHistory(history, Repository(repositoryId));
        DisjointWhenLatestLater(IndexOf(history), ScansOf(history, Repository(repositoryId)), repositoryId, l, b);
      }
    }
    if forall history | CompletedAs(history, repositoryId, runs) ::
         Disjoint(AnsweredSets(history, repositoryId, recent, freshId))
    {
      forall scans | CompletedInOrder(scans, Repository(repositoryId), order)
        ensures DisjointFor(scans, repositoryId, order, l, b)
      {
        ScansAsHistory(scans, repositoryId, runs);
      }
      DiffDisjointIffLatestLater(repositoryId, order, l, b);
    }
  }

  /**
    A run created later but completed first: the query still picks it as latest, and a finding
    that both runs report is answered as both added and resolved.
  */
  lemma OutOfOrderAddedAndResolved(repositoryId: nat, older: CompletedRun, newer: CompletedRun, freshId: nat)
    requires older.id != newer.id && Newer(newer, older)
    ensures var runs := [newer, older];
            && IsRecentCompleted(runs, 2, [newer, older])
            && exists history ::
                 && CompletedAs(history, repositoryId, runs)
                 && var sets := AnsweredSets(history, repositoryId, [newer, older], freshId);
                    Key(Repository(repositoryId), "probe") in sets.added * sets.resolved
  {
    var runs := [newer, older];
    var scans := ProbeScans(Repository(repositoryId), RunIds(runs), {0, 1});
    assert RunIds(runs) == [newer.id, older.id];
    ProbeRow(repositoryId, RunIds(runs), {0, 1}, 0, 1);
    ScansAsHistory(scans, repositoryId, runs);
    var sets := AnsweredSets(HistoryOf(scans), repositoryId, runs, freshId);
    assert Key(Repository(repositoryId), "probe") in sets.added * sets.resolved;
  }

  /** With one completed run everything it reported is added; with none all sets are empty. */
  lemma FewRunsDiff(history: seq<Change>, repositoryId: nat, runs: seq<CompletedRun>, recent: seq<CompletedRun>,
                    freshId: nat)
    requires CompletedAs(history, repositoryId, runs) && IsRecentCompleted(runs, 2, recent) && |runs| <= 1
    ensures var answer := GetRepositoryDiff(true, IndexOf(history), repositoryId, recent, freshId);
            && answer.Ok? && answer.value.baselineRun.None?
            && answer.value.latestRun == (if |runs| == 1 then Some(runs[0].id) else None)
            && answer.value.sets.resolved == {} == answer.value.sets.carried
            && forall f: string :: Key(Repository(repositoryId), f) in answer.value.sets.added
                                   <==> |runs| == 1 && Occurs(ScansOf(history, Repository(repositoryId)), 0, f)
  {
    hide DiffBetweenRuns, RowTellsHistory, Occurs, Newer, IndexOf, ValidHistory, ScansOf;
    RowsTellHistory(history, Repository(repositoryId));
    if |runs| == 1 {
      assert recent[0] in runs;
      SoleRunAddsAll(IndexOf(history), ScansOf(history, Repository(repositoryId)), repositoryId);
    }
  }

  /** Scans that complete in the order they were created are always diffed exactly. */
  lemma RepositoryDiffExact(history: seq<Change>, repositoryId: nat, runs: seq<CompletedRun>, recent: seq<CompletedRun>,
                            freshId: nat)
    requires CompletedAs(history, repositoryId, runs) && IsRecentCompleted(runs, 2, recent) && |runs| >= 2
    requires forall i, j | 0 <= i < j < |runs| :: Newer(runs[j], runs[i])
    ensures var n, answer := |runs|, GetRepositoryDiff(true, IndexOf(history), repositoryId, recent, freshId);
            && answer.Ok?
            && answer.value.latestRun == Some(runs[n - 1].id) && answer.value.baselineRun == Some(runs[n - 2].id)
            && DiffExact(answer.value.sets, ScansOf(history, Repository(repositoryId)), repositoryId, n - 1, n - 2)
  {
    hide DiffExact, DiffBetweenRuns, ValidHistory, RowTellsHistory, Newer, IsRecentCompleted, IndexOf, ScansOf;
    RecentAreLastCompleted(runs, recent);
    RowsTellHistory(history, Repository(repositoryId));
    DiffExactWhenLastTwo(IndexOf(history), ScansOf(history, Repository(repositoryId)), repositoryId);
  }

  lemma RecentAreLastCompleted(runs: seq<CompletedRun>, recent: seq<CompletedRun>)
    requires forall i, j | 0 <= i < j < |runs| :: Newer(runs[j], runs[i])
    requires IsRecentCompleted(runs, 2, recent) && |runs| >= 2
    ensures |recent| == 2 && recent[0] == runs[|runs| - 1] && recent[1] == runs[|runs| - 2]
  {
    var n := |runs|;
    var i :| 0 <= i < n && runs[i] == recent[0];
    var j :| 0 <= j < n && runs[j] == recent[1];
    assert runs[n - 1] in runs && runs[n - 2] in runs;
    forall k | 0 <= k < n - 1 ensures Newer(runs[n - 1], runs[k]) { }
    forall k | 0 <= k < n - 2 ensures Newer(runs[n - 2], runs[k]) { }
    assert i == n - 1;
  }

  lemma SoleRunAddsAll(index: Index, scans: seq<Scan>, repositoryId: nat)
    requires |scans| == 1
    requires forall f: string :: RowTellsHistory(index, scans, Key(Repository(repositoryId), f))
    ensures forall f: string, freshId: nat ::
              Key(Repository(repositoryId), f) in DiffBetweenRuns(index, repositoryId, scans[0].runId, freshId).added
              <==> Occurs(scans, 0, f)
  {
    forall f: string, freshId: nat
      ensures Key(Repository(repositoryId), f) in DiffBetweenRuns(index, repositoryId, scans[0].runId, freshId).added
              <==> Occurs(scans, 0, f)
    {
      assert RowTellsHistory(index, scans, Key(Repository(repositoryId), f));
    }
  }
}
