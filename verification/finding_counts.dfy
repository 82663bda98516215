/** Counting findings by the run that last or first saw them: nothing is lost or counted twice. */
module FindingCounts {
  import opened Wrappers
  import opened FindingIndex
  import opened RepositoryDiff
  import opened SetSizes

  // ------------------------------------------------------------------ by last-seen run

  function LastSeenIn(index: Index, runId: nat): set<Key> {
    set key | key in index && index[key].lastSeen == runId
  }

  function CountByLastSeenScanRun(index: Index, runId: nat): nat { |LastSeenIn(index, runId)| }

  /** Scans of different subjects are different runs. */
  lemma RunNamesItsSubject(history: seq<Change>, a: Subject, b: Subject, i: nat, j: nat)
    requires ValidHistory(history)
    requires i < |ScansOf(history, a)| && j < |ScansOf(history, b)|
    requires ScansOf(history, a)[i].runId == ScansOf(history, b)[j].runId
    ensures a == b && i == j
  {
    ScansOfDistinct(history, a);
    ScansOfDistinct(history, b);
    var k :| 0 <= k < |history| && history[k] == Completed(ScansOf(history, a)[i]);
    var m :| 0 <= m < |history| && history[m] == Completed(ScansOf(history, b)[j]);
    assert k == m;
  }

  /** A run is charged with exactly the findings it reported that no later scan of its subject did. */
  lemma LastSeenExact(history: seq<Change>, subject: Subject, i: nat, key: Key)
    requires ValidHistory(history) && i < |ScansOf(history, subject)|
    ensures key in LastSeenIn(IndexOf(history), ScansOf(history, subject)[i].runId)
       <==> key.subject == subject && LastOccurs(ScansOf(history, subject), i, key.fingerprint)
  {
    RowRefinesHistory(history, key);
    var index, scans := IndexOf(history), ScansOf(history, key.subject);
    if key in index {
      var last :| LastOccurs(scans, last, key.fingerprint) && index[key].lastSeen == scans[last].runId;
      if index[key].lastSeen == ScansOf(history, subject)[i].runId {
        RunNamesItsSubject(history, key.subject, subject, last, i);
      }
    }
  }

  /** The fingerprints a scan reported that no later scan of its subject did. */
  function LastReported(scans: seq<Scan>, i: nat): set<string>
    requires i < |scans|
  {
    set k | 0 <= k < |scans[i].batch| && LastOccurs(scans, i, scans[i].batch[k].fingerprint) ::
      scans[i].batch[k].fingerprint
  }

  /** The count of a run is the number of those fingerprints. */
  lemma LastSeenCountExact(history: seq<Change>, subject: Subject, i: nat)
    requires ValidHistory(history) && i < |ScansOf(history, subject)|
    ensures CountByLastSeenScanRun(IndexOf(history), ScansOf(history, subject)[i].runId)
         == |LastReported(ScansOf(history, subject), i)|
  {
    var scans := ScansOf(history, subject);
    var keys, texts := LastSeenIn(IndexOf(history), scans[i].runId), LastReported(scans, i);
    forall text ensures Key(subject, text) in keys <==> text in texts {
      LastSeenExact(history, subject, i, Key(subject, text));
    }
    forall key | key in keys ensures key.subject == subject { LastSeenExact(history, subject, i, key); }
    SameSize(subject, keys, texts);
  }

  lemma {:induction false} SameSize(subject: Subject, keys: set<Key>, texts: set<string>)
    requires forall text :: Key(subject, text) in keys <==> text in texts
    requires forall key | key in keys :: key.subject == subject
    ensures |keys| == |texts|
    decreases keys
  {
    if key :| key in keys {
      assert key == Key(subject, key.fingerprint);
      SameSize(subject, keys - {key}, texts - {key.fingerprint});
    } else {
      forall text ensures text !in texts { assert Key(subject, text) !in keys; }
      assert texts == {};
    }
  }

  // ------------------------------------------------------------------ by first-seen run

  /** The scanner filter: the tasks of the wanted scanner, or none when every scanner is. */
  predicate Passes(finding: Finding, filter: Option<set<nat>>) {
    filter.Some? ==> finding.scanTaskId in filter.value
  }

  function FirstSeenIn(index: Index, filter: Option<set<nat>>, runId: nat): set<Key> {
    set key | key in index && index[key].firstSeen == runId && Passes(index[key].finding, filter)
  }

  function Introduced(index: Index, filter: Option<set<nat>>, runId: nat, severity: Severity): set<Key> {
    set key | key in FirstSeenIn(index, filter, runId) && index[key].finding.severity == severity
  }

  const SEVERITIES: seq<Severity> := [Critical, High, Medium, Low, Info]

  /** One bucket per run; a run that introduced nothing keeps its empty bucket. */
  datatype Bucket = Bucket(runId: nat, severityCounts: map<Severity, nat>)

  function BucketOf(index: Index, filter: Option<set<nat>>, runId: nat): Bucket {
    Bucket(runId, map severity | severity in SEVERITIES && Introduced(index, filter, runId, severity) != {} ::
                    |Introduced(index, filter, runId, severity)|)
  }

  function TrendCountsByFirstSeenRun(index: Index, filter: Option<set<nat>>, runs: seq<nat>): seq<Bucket> {
    seq(|runs|, i requires 0 <= i < |runs| => BucketOf(index, filter, runs[i]))
  }

  function CountIn(bucket: Bucket, severity: Severity): nat {
    if severity in bucket.severityCounts then bucket.severityCounts[severity] else 0
  }

  function BucketTotal(bucket: Bucket): nat {
    CountIn(bucket, Critical) + CountIn(bucket, High) + CountIn(bucket, Medium)
    + CountIn(bucket, Low) + CountIn(bucket, Info)
  }

  function Total(buckets: seq<Bucket>): nat {
    if buckets == [] then 0 else Total(buckets[..|buckets| - 1]) + BucketTotal(buckets[|buckets| - 1])
  }

  /** A bucket counts per severity the rows of that severity first seen in its run by the wanted scanner. */
  lemma BucketCountsRows(index: Index, filter: Option<set<nat>>, runId: nat, severity: Severity)
    ensures CountIn(BucketOf(index, filter, runId), severity)
         == |set key | && key in index && index[key].firstSeen == runId && index[key].finding.severity == severity
                       && (filter.None? || index[key].finding.scanTaskId in filter.value)|
    ensures severity in BucketOf(index, filter, runId).severityCounts
       <==> CountIn(BucketOf(index, filter, runId), severity) > 0
  {
    CountedOnce(index, filter, runId, severity);
    var rows := set key | && key in index && index[key].firstSeen == runId && index[key].finding.severity == severity
                          && (filter.None? || index[key].finding.scanTaskId in filter.value);
    assert Introduced(index, filter, runId, severity) == rows;
    if rows != {} {
      var key :| key in rows;
      assert |rows| == |rows - {key}| + 1;
    }
  }

  lemma CountedOnce(index: Index, filter: Option<set<nat>>, runId: nat, severity: Severity)
    ensures CountIn(BucketOf(index, filter, runId), severity) == |Introduced(index, filter, runId, severity)|
  {
    assert severity == SEVERITIES[if severity == Critical then 0 else if severity == High then 1 else
                                  if severity == Medium then 2 else if severity == Low then 3 else 4];
  }

  lemma DisjointSizes(a: set<Key>, b: set<Key>)
    requires a !! b
    ensures |a + b| == |a| + |b|
  {
  }

  lemma SeveritiesPartition(index: Index, filter: Option<set<nat>>, runId: nat)
    ensures FirstSeenIn(index, filter, runId)
         == Introduced(index, filter, runId, Critical) + Introduced(index, filter, runId, High)
            + Introduced(index, filter, runId, Medium) + Introduced(index, filter, runId, Low)
            + Introduced(index, filter, runId, Info)
  {
  }

  lemma SeveritiesDisjoint(index: Index, filter: Option<set<nat>>, runId: nat, a: Severity, b: Severity)
    requires a != b
    ensures Introduced(index, filter, runId, a) !! Introduced(index, filter, runId, b)
  {
  }

  lemma BucketTotalExact(index: Index, filter: Option<set<nat>>, runId: nat)
    ensures BucketTotal(BucketOf(index, filter, runId)) == |FirstSeenIn(index, filter, runId)|
  {
    var c, h := Introduced(index, filter, runId, Critical), Introduced(index, filter, runId, High);
    var m := Introduced(index, filter, runId, Medium);
    var l, i := Introduced(index, filter, runId, Low), Introduced(index, filter, runId, Info);
    hide Introduced, FirstSeenIn, BucketOf, CountIn;
    SeveritiesPartition(index, filter, runId);
    forall a, b | a != b ensures Introduced(index, filter, runId, a) !! Introduced(index, filter, runId, b) {
      SeveritiesDisjoint(index, filter, runId, a, b);
    }
    CountedOnce(index, filter, runId, Critical);
    CountedOnce(index, filter, runId, High);
    CountedOnce(index, filter, runId, Medium);
    CountedOnce(index, filter, runId, Low);
    CountedOnce(index, filter, runId, Info);
    DisjointSizes(c, h);
    DisjointSizes(c + h, m);
    DisjointSizes(c + h + m, l);
    DisjointSizes(c + h + m + l, i);
  }

  function FirstSeenAmong(index: Index, filter: Option<set<nat>>, runs: seq<nat>): set<Key> {
    set key | key in index && index[key].firstSeen in runs && Passes(index[key].finding, filter)
  }

  /** Conservation: the buckets add up to the rows first seen in the listed runs. */
  lemma {:induction false} TrendTotalExact(index: Index, filter: Option<set<nat>>, runs: seq<nat>)
    requires DistinctIds(runs)
    ensures Total(TrendCountsByFirstSeenRun(index, filter, runs)) == |FirstSeenAmong(index, filter, runs)|
  {
    hide FirstSeenAmong, FirstSeenIn, BucketTotal, BucketOf, TrendCountsByFirstSeenRun;
    if runs == [] {
      NoneAmongNoRuns(index, filter);
    } else {
      var n := |runs| - 1;
      TrendTotalExact(index, filter, runs[..n]);
      TotalStep(index, filter, runs);
      BucketTotalExact(index, filter, runs[n]);
      AmongStep(index, filter, runs);
      DisjointSizes(FirstSeenAmong(index, filter, runs[..n]), FirstSeenIn(index, filter, runs[n]));
    }
  }

  /**
    The filter never drops a run's bucket, and disjoint sets of tasks split the counts: nothing
    is lost or counted twice between scanners.
  */
  lemma FilterSplitsTrend(index: Index, a: set<nat>, b: set<nat>, runs: seq<nat>)
    requires DistinctIds(runs) && a !! b
    ensures |TrendCountsByFirstSeenRun(index, Some(a), runs)| == |runs|
    ensures forall i | 0 <= i < |runs| :: TrendCountsByFirstSeenRun(index, Some(a), runs)[i].runId == runs[i]
    ensures Total(TrendCountsByFirstSeenRun(index, Some(a), runs))
            + Total(TrendCountsByFirstSeenRun(index, Some(b), runs))
         == Total(TrendCountsByFirstSeenRun(index, Some(a + b), runs))
    ensures (forall key | key in index :: index[key].finding.scanTaskId in a + b) ==>
              Total(TrendCountsByFirstSeenRun(index, Some(a + b), runs))
              == Total(TrendCountsByFirstSeenRun(index, None, runs))
  {
    TrendTotalExact(index, Some(a), runs);
    TrendTotalExact(index, Some(b), runs);
    TrendTotalExact(index, Some(a + b), runs);
    TrendTotalExact(index, None, runs);
    hide Total, BucketOf;
    var inA, inB := FirstSeenAmong(index, Some(a), runs), FirstSeenAmong(index, Some(b), runs);
    assert FirstSeenAmong(index, Some(a + b), runs) == inA + inB;
    DisjointSizes(inA, inB);
    if forall key | key in index :: index[key].finding.scanTaskId in a + b {
      assert FirstSeenAmong(index, Some(a + b), runs) == FirstSeenAmong(index, None, runs);
    }
  }

  lemma NoneAmongNoRuns(index: Index, filter: Option<set<nat>>)
    ensures FirstSeenAmong(index, filter, []) == {} && Total(TrendCountsByFirstSeenRun(index, filter, [])) == 0
  {
  }

  lemma TotalStep(index: Index, filter: Option<set<nat>>, runs: seq<nat>)
    requires runs != []
    ensures Total(TrendCountsByFirstSeenRun(index, filter, runs))
         == Total(TrendCountsByFirstSeenRun(index, filter, runs[..|runs| - 1]))
            + BucketTotal(BucketOf(index, filter, runs[|runs| - 1]))
  {
    hide BucketTotal, BucketOf;
    var n := |runs| - 1;
    assert TrendCountsByFirstSeenRun(index, filter, runs)[..n] == TrendCountsByFirstSeenRun(index, filter, runs[..n]);
  }

  lemma AmongStep(index: Index, filter: Option<set<nat>>, runs: seq<nat>)
    requires runs != [] && DistinctIds(runs)
    ensures var earlier := FirstSeenAmong(index, filter, runs[..|runs| - 1]);
            var here := FirstSeenIn(index, filter, runs[|runs| - 1]);
            FirstSeenAmong(index, filter, runs) == earlier + here && earlier !! here
  {
    var n := |runs| - 1;
    assert runs[n] !in runs[..n];
    assert runs == runs[..n] + [runs[n]];
  }

  function RowsOf(index: Index, filter: Option<set<nat>>, subject: Subject): set<Key> {
    set key | key in index && key.subject == subject && Passes(index[key].finding, filter)
  }

  /** `ORDER BY created_at, id LIMIT n` within a date range: the limit keeps the oldest runs. */
  predicate IsTrendSelection(runs: seq<CompletedRun>, dateFrom: Option<real>, dateTo: Option<real>, limit: nat,
                             selected: seq<CompletedRun>) {
    && |selected| <= limit
    && (forall i | 0 <= i < |selected| :: selected[i] in runs && InDateRange(selected[i], dateFrom, dateTo))
    && (forall i, j | 0 <= i < j < |selected| :: Newer(selected[j], selected[i]))
    && (forall run | run in runs && InDateRange(run, dateFrom, dateTo) && run !in selected ::
          |selected| == limit && forall i | 0 <= i < |selected| :: Newer(run, selected[i]))
  }

  predicate InDateRange(run: CompletedRun, dateFrom: Option<real>, dateTo: Option<real>) {
    && (dateFrom.Some? ==> run.createdAt >= dateFrom.value)
    && (dateTo.Some? ==> run.createdAt <= dateTo.value)
  }

  lemma SelectedIdsDistinct(runs: seq<CompletedRun>, scans: seq<Scan>, dateFrom: Option<real>, dateTo: Option<real>,
                            limit: nat, selected: seq<CompletedRun>)
    requires RunsMatchScans(runs, scans) && DistinctRuns(scans)
    requires IsTrendSelection(runs, dateFrom, dateTo, limit, selected)
    ensures DistinctIds(RunIds(selected))
  {
    forall i, j | 0 <= i < j < |selected| ensures selected[i].id != selected[j].id {
      var k :| 0 <= k < |runs| && runs[k] == selected[i];
      var m :| 0 <= m < |runs| && runs[m] == selected[j];
      if k == m { assert Newer(selected[j], selected[i]); }
    }
  }

  lemma FirstSeenInOwnRuns(history: seq<Change>, filter: Option<set<nat>>, subject: Subject, runs: seq<CompletedRun>,
                           selected: seq<CompletedRun>, key: Key)
    requires ValidHistory(history) && RunsMatchScans(runs, ScansOf(history, subject))
    requires forall i | 0 <= i < |selected| :: selected[i] in runs
    requires key in FirstSeenAmong(IndexOf(history), filter, RunIds(selected))
    ensures key.subject == subject
  {
    RowRefinesHistory(history, key);
    var index, scans := IndexOf(history), ScansOf(history, key.subject);
    var first :| FirstOccurs(scans, first, key.fingerprint) && index[key].firstSeen == scans[first].runId;
    var i :| 0 <= i < |selected| && RunIds(selected)[i] == index[key].firstSeen;
    var k :| 0 <= k < |runs| && runs[k] == selected[i];
    RunNamesItsSubject(history, key.subject, subject, first, k);
  }

  /**
    With or without a scanner filter the trend never counts more than the repository's matching
    rows, and counts them all exactly when every one was first seen in a selected run; without
    a limit and a date range it always does.
  */
  lemma TrendSumsToRowCount(history: seq<Change>, filter: Option<set<nat>>, repositoryId: nat, runs: seq<CompletedRun>,
                            dateFrom: Option<real>, dateTo: Option<real>, limit: nat, selected: seq<CompletedRun>)
    requires ValidHistory(history) && RunsMatchScans(runs, ScansOf(history, Repository(repositoryId)))
    requires IsTrendSelection(runs, dateFrom, dateTo, limit, selected)
    ensures var index := IndexOf(history);
            var total := Total(TrendCountsByFirstSeenRun(index, filter, RunIds(selected)));
            var rows := RowsOf(index, filter, Repository(repositoryId));
            && total <= |rows|
            && (total == |rows| <==> forall key | key in rows :: index[key].firstSeen in RunIds(selected))
            && (dateFrom.None? && dateTo.None? && |runs| <= limit ==> total == |rows|)
  {
    var index, subject := IndexOf(history), Repository(repositoryId);
    ScansOfDistinct(history, subject);
    SelectedIdsDistinct(runs, ScansOf(history, subject), dateFrom, dateTo, limit, selected);
    TrendTotalExact(index, filter, RunIds(selected));
    var among, rows := FirstSeenAmong(index, filter, RunIds(selected)), RowsOf(index, filter, subject);
    forall key | key in among ensures key in rows {
      FirstSeenInOwnRuns(history, filter, subject, runs, selected, key);
    }
    SubsetSize(among, rows);
    if dateFrom.None? && dateTo.None? && |runs| <= limit {
      forall key | key in rows ensures index[key].firstSeen in RunIds(selected) {
        UnlimitedSelectionHasFirstSeen(history, filter, subject, runs, limit, selected, key);
      }
    }
  }

  lemma UnlimitedSelectionHasFirstSeen(history: seq<Change>, filter: Option<set<nat>>, subject: Subject,
                                       runs: seq<CompletedRun>, limit: nat, selected: seq<CompletedRun>, key: Key)
    requires ValidHistory(history) && RunsMatchScans(runs, ScansOf(history, subject))
    requires IsTrendSelection(runs, None, None, limit, selected) && |runs| <= limit
    requires key in RowsOf(IndexOf(history), filter, subject)
    ensures IndexOf(history)[key].firstSeen in RunIds(selected)
  {
    RowRefinesHistory(history, key);
    ScansOfDistinct(history, subject);
    var index, scans := IndexOf(history), ScansOf(history, subject);
    var first :| FirstOccurs(scans, first, key.fingerprint) && index[key].firstSeen == scans[first].runId;
    assert runs[first] in runs;
    if runs[first] !in selected {
      SelectedIdsDistinct(runs, scans, None, None, limit, selected);
      TooManySelected(runs, selected, runs[first]);
    }
    var i :| 0 <= i < |selected| && selected[i] == runs[first];
    assert RunIds(selected)[i] == runs[first].id;
  }

  /** Distinct members of a sequence that miss one of its members are fewer than it is long. */
  lemma TooManySelected(runs: seq<CompletedRun>, selected: seq<CompletedRun>, missing: CompletedRun)
    requires forall i | 0 <= i < |selected| :: selected[i] in runs
    requires DistinctIds(RunIds(selected))
    requires missing in runs && missing !in selected
    ensures |selected| < |runs|
  {
    var chosen := set i | 0 <= i < |selected| :: selected[i];
    DistinctSize(selected, chosen);
    var all := set i | 0 <= i < |runs| :: runs[i];
    SequenceSize(runs, all);
    assert chosen <= all - {missing};
    SubsetSize(chosen, all - {missing});
  }

  lemma {:induction false} DistinctSize(items: seq<CompletedRun>, members: set<CompletedRun>)
    requires DistinctIds(RunIds(items)) && members == set i | 0 <= i < |items| :: items[i]
    ensures |members| == |items|
  {
    if items != [] {
      var n := |items| - 1;
      var rest := set i | 0 <= i < |items[..n]| :: items[..n][i];
      forall i, j | 0 <= i < j < n ensures RunIds(items[..n])[i] != RunIds(items[..n])[j] {
        assert RunIds(items)[i] != RunIds(items)[j];
      }
      DistinctSize(items[..n], rest);
      forall i | 0 <= i < n ensures items[i] != items[n] { assert RunIds(items)[i] != RunIds(items)[n]; }
      assert members == rest + {items[n]};
    }
  }

  lemma {:induction false} SequenceSize(items: seq<CompletedRun>, members: set<CompletedRun>)
    requires members == set i | 0 <= i < |items| :: items[i]
    ensures |members| <= |items|
  {
    if items != [] {
      var n := |items| - 1;
      var rest := set i | 0 <= i < |items[..n]| :: items[..n][i];
      SequenceSize(items[..n], rest);
      assert members == rest + {items[n]};
    }
  }
}
