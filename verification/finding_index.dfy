/**
  The findings table keeps, per subject and fingerprint, one row with only the first and the
  last scan run that reported it. This module relates that compact index to the full history
  of completed scans, and the diff, count and trend queries to what the history says.
*/
module FindingIndex {
  import opened Wrappers

  datatype Subject = Repository(id: nat) | ScanTarget(id: nat)
  datatype Severity = Critical | High | Medium | Low | Info
  datatype FindingStatus = Open | Resolved | Suppressed | FalsePositive

  datatype Finding = Finding(fingerprint: string, severity: Severity, scanTaskId: nat, title: string)

  datatype Key = Key(subject: Subject, fingerprint: string)
  datatype Stored = Stored(finding: Finding, status: FindingStatus, firstSeen: nat, lastSeen: nat)
  type Index = map<Key, Stored>

  // ------------------------------------------------------------------ the upsert

  predicate DistinctFingerprints(batch: seq<Finding>) {
    forall i, j | 0 <= i < j < |batch| :: batch[i].fingerprint != batch[j].fingerprint
  }

  predicate Reports(batch: seq<Finding>, fingerprint: string) {
    exists i :: 0 <= i < |batch| && batch[i].fingerprint == fingerprint
  }

  /** Insert a new row, or move only the last-seen run of the existing one. */
  function UpsertOne(index: Index, subject: Subject, runId: nat, finding: Finding): Index {
    var key := Key(subject, finding.fingerprint);
    if key in index then index[key := index[key].(lastSeen := runId)]
    else index[key := Stored(finding, Open, runId, runId)]
  }

  function UpsertAll(index: Index, subject: Subject, runId: nat, batch: seq<Finding>): Index {
    if batch == [] then index
    else UpsertOne(UpsertAll(index, subject, runId, batch[..|batch| - 1]), subject, runId, batch[|batch| - 1])
  }

  /** Row by row: what one scan does to every key, whatever the order inside its batch. */
  lemma {:induction false} UpsertAllRow(index: Index, subject: Subject, runId: nat, batch: seq<Finding>, key: Key)
    requires DistinctFingerprints(batch)
    ensures var after := UpsertAll(index, subject, runId, batch);
            if key.subject == subject && Reports(batch, key.fingerprint) then
              && key in after && after[key].lastSeen == runId
              && (if key in index then after[key] == index[key].(lastSeen := runId)
                  else after[key].firstSeen == runId && after[key].status == Open
                       && after[key].finding in batch && after[key].finding.fingerprint == key.fingerprint)
            else (key in after <==> key in index) && (key in index ==> after[key] == index[key])
  {
    if batch != [] {
      var n := |batch| - 1;
      UpsertAllRow(index, subject, runId, batch[..n], key);
      assert Reports(batch, key.fingerprint) <==>
        Reports(batch[..n], key.fingerprint) || batch[n].fingerprint == key.fingerprint by {
        if Reports(batch[..n], key.fingerprint) {
          var i :| 0 <= i < n && batch[..n][i].fingerprint == key.fingerprint;
          assert batch[i].fingerprint == key.fingerprint;
        }
        if i :| 0 <= i < n && batch[i].fingerprint == key.fingerprint {
          assert batch[..n][i].fingerprint == key.fingerprint;
        }
      }
      if Reports(batch[..n], key.fingerprint) {
        var i :| 0 <= i < n && batch[..n][i].fingerprint == key.fingerprint;
        assert batch[i].fingerprint != batch[n].fingerprint;
      }
    }
  }

  lemma EmptyReport()
    ensures FirstOccurrences([]) == [] && DistinctFingerprints([]) && forall f :: !Reports([], f)
  {
  }

  lemma ExtendedReports(all: seq<Finding>, finding: Finding)
    ensures forall f :: Reports(all + [finding], f) <==> Reports(all, f) || f == finding.fingerprint
  {
    forall f ensures Reports(all + [finding], f) <==> Reports(all, f) || f == finding.fingerprint {
      if Reports(all, f) {
        var j :| 0 <= j < |all| && all[j].fingerprint == f;
        assert (all + [finding])[j].fingerprint == f;
      }
      if f == finding.fingerprint { assert (all + [finding])[|all|].fingerprint == f; }
    }
  }

  lemma ExtendedDistinct(all: seq<Finding>, finding: Finding)
    requires DistinctFingerprints(all)
    ensures DistinctFingerprints(all + [finding]) <==> !Reports(all, finding.fingerprint)
  {
    if Reports(all, finding.fingerprint) {
      var j :| 0 <= j < |all| && all[j].fingerprint == finding.fingerprint;
      assert (all + [finding])[j].fingerprint == (all + [finding])[|all|].fingerprint;
    }
  }

  lemma PrefixDistinct(batch: seq<Finding>, n: nat)
    requires n <= |batch| && !DistinctFingerprints(batch[..n])
    ensures !DistinctFingerprints(batch)
  {
  }

  class FindingTable {
    var rows: Index

    constructor ()
      ensures rows == map[]
    {
      rows := map[];
    }

    /**
      One INSERT ... ON CONFLICT statement. The database refuses a batch that names the same
      key twice, and then nothing is written; an empty batch writes nothing either.
    */
    method BulkUpsertFindings(subject: Subject, runId: nat, batch: seq<Finding>) returns (ok: bool)
      modifies this
      ensures ok <==> DistinctFingerprints(batch)
      ensures rows == if ok then UpsertAll(old(rows), subject, runId, batch) else old(rows)
    {
      hide Reports, DistinctFingerprints, UpsertOne;
      EmptyReport();
      var updated := rows;
      var seen: set<string> := {};
      for i := 0 to |batch|
        invariant rows == old(rows) && updated == UpsertAll(rows, subject, runId, batch[..i])
        invariant DistinctFingerprints(batch[..i])
        invariant forall f :: f in seen <==> Reports(batch[..i], f)
      {
        assert batch[..i + 1] == batch[..i] + [batch[i]];
        ExtendedReports(batch[..i], batch[i]);
        ExtendedDistinct(batch[..i], batch[i]);
        if batch[i].fingerprint in seen {
          PrefixDistinct(batch, i + 1);
          return false;
        }
        updated := UpsertOne(updated, subject, runId, batch[i]);
        seen := seen + {batch[i].fingerprint};
      }
      assert batch[..|batch|] == batch;
      rows := updated;
      return true;
    }
  }

  // ------------------------------------------------------------------ distinct batches

  /** Position `i` is the first of its fingerprint. */
  predicate FirstOfItsKind(all: seq<Finding>, i: nat)
    requires i < |all|
  {
    forall j | 0 <= j < i :: all[j].fingerprint != all[i].fingerprint
  }

  function FirstOccurrences(all: seq<Finding>): seq<Finding> {
    if all == [] then []
    else
      var n := |all| - 1;
      FirstOccurrences(all[..n]) + if FirstOfItsKind(all, n) then [all[n]] else []
  }

  function Flatten(dependencies: seq<seq<Finding>>): seq<Finding> {
    if dependencies == [] then []
    else Flatten(dependencies[..|dependencies| - 1]) + dependencies[|dependencies| - 1]
  }

  lemma {:induction false} FirstOccurrencesReport(all: seq<Finding>, fingerprint: string)
    ensures Reports(FirstOccurrences(all), fingerprint) <==> Reports(all, fingerprint)
  {
    if all != [] {
      var n := |all| - 1;
      FirstOccurrencesReport(all[..n], fingerprint);
      var firsts := FirstOccurrences(all[..n]);
      if Reports(all, fingerprint) {
        var i :| 0 <= i < |all| && all[i].fingerprint == fingerprint;
        if i < n {
          assert all[..n][i].fingerprint == fingerprint;
        } else if !FirstOfItsKind(all, n) {
          var j :| 0 <= j < n && all[j].fingerprint == fingerprint;
          assert all[..n][j].fingerprint == fingerprint;
        } else {
          assert FirstOccurrences(all)[|firsts|].fingerprint == fingerprint;
        }
        if Reports(firsts, fingerprint) {
          var k :| 0 <= k < |firsts| && firsts[k].fingerprint == fingerprint;
          assert FirstOccurrences(all)[k].fingerprint == fingerprint;
        }
      }
      if Reports(FirstOccurrences(all), fingerprint) {
        var k :| 0 <= k < |FirstOccurrences(all)| && FirstOccurrences(all)[k].fingerprint == fingerprint;
        if k < |firsts| {
          assert firsts[k].fingerprint == fingerprint;
          var i :| 0 <= i < n && all[..n][i].fingerprint == fingerprint;
          assert all[i].fingerprint == fingerprint;
        } else {
          assert all[n].fingerprint == fingerprint;
        }
      }
    }
  }

  /** Keeping first occurrences yields a batch the upsert accepts, losing no fingerprint. */
  lemma {:induction false} FirstOccurrencesDistinct(all: seq<Finding>)
    ensures DistinctFingerprints(FirstOccurrences(all))
  {
    if all != [] {
      var n := |all| - 1;
      FirstOccurrencesDistinct(all[..n]);
      if FirstOfItsKind(all, n) {
        FirstOccurrencesReport(all[..n], all[n].fingerprint);
        assert !Reports(all[..n], all[n].fingerprint);
      }
    }
  }

  lemma ExtendedFirstOccurrences(all: seq<Finding>, finding: Finding)
    ensures FirstOccurrences(all + [finding])
         == FirstOccurrences(all) + if Reports(all, finding.fingerprint) then [] else [finding]
  {
    var more := all + [finding];
    assert more[..|all|] == all;
    assert FirstOfItsKind(more, |all|) <==> !Reports(all, finding.fingerprint) by {
      forall j | 0 <= j < |all| ensures more[j] == all[j] { }
    }
  }

  /** The nested loop of the dependency-audit parser: keep the first of each fingerprint. */
  method ParseDependencyReport(dependencies: seq<seq<Finding>>) returns (findings: seq<Finding>)
    ensures findings == FirstOccurrences(Flatten(dependencies))
    ensures DistinctFingerprints(findings)
  {
    hide FirstOccurrences, Reports, DistinctFingerprints;
    EmptyReport();
    findings := [];
    var seenFingerprints: set<string> := {};
    ghost var all: seq<Finding> := [];
    for d := 0 to |dependencies|
      invariant all == Flatten(dependencies[..d])
      invariant findings == FirstOccurrences(all)
      invariant forall f :: f in seenFingerprints <==> Reports(all, f)
    {
      ghost var before := all;
      for v := 0 to |dependencies[d]|
        invariant all == before + dependencies[d][..v]
        invariant findings == FirstOccurrences(all)
        invariant forall f :: f in seenFingerprints <==> Reports(all, f)
      {
        var finding := dependencies[d][v];
        ExtendedFirstOccurrences(all, finding);
        ExtendedReports(all, finding);
        if finding.fingerprint !in seenFingerprints {
          seenFingerprints := seenFingerprints + {finding.fingerprint};
          findings := findings + [finding];
        }
        all := all + [finding];
      }
      assert dependencies[d][..|dependencies[d]|] == dependencies[d];
      assert dependencies[..d + 1][..d] == dependencies[..d];
    }
    assert dependencies[..|dependencies|] == dependencies;
    FirstOccurrencesDistinct(all);
  }

  // ------------------------------------------------------------------ triage

  datatype Triage = Suppress | Unsuppress

  /** A status the two transitions do not manage is an error and changes nothing. */
  function Transition(current: FindingStatus, triage: Triage): Result<FindingStatus, FindingStatus> {
    if current != Open && current != Suppressed then Err(current)
    else Ok(if triage.Suppress? then Suppressed else Open)
  }

  function Triaged(index: Index, key: Key, triage: Triage): Index {
    if key !in index then index
    else
      match Transition(index[key].status, triage)
      case Ok(status) => index[key := index[key].(status := status)]
      case Err(_) => index
  }

  // ------------------------------------------------------------------ history

  datatype Scan = Scan(subject: Subject, runId: nat, batch: seq<Finding>)

  /** Everything that ever changes the table: a scan completing, or a user's triage. */
  datatype Change = Completed(scan: Scan) | TriagedBy(key: Key, triage: Triage)

  predicate ValidHistory(history: seq<Change>) {
    && (forall i | 0 <= i < |history| && history[i].Completed? :: DistinctFingerprints(history[i].scan.batch))
    && (forall i, j | 0 <= i < j < |history| && history[i].Completed? && history[j].Completed? ::
          history[i].scan.runId != history[j].scan.runId)
  }

  function Apply(index: Index, change: Change): Index {
    match change
    case Completed(scan) => UpsertAll(index, scan.subject, scan.runId, scan.batch)
    case TriagedBy(key, triage) => Triaged(index, key, triage)
  }

  function IndexOf(history: seq<Change>): Index {
    if history == [] then map[] else Apply(IndexOf(history[..|history| - 1]), history[|history| - 1])
  }

  /** The completed scans of one subject, in the order they completed. */
  function ScansOf(history: seq<Change>, subject: Subject): seq<Scan> {
    if history == [] then []
    else
      var n := |history| - 1;
      ScansOf(history[..n], subject)
      + if history[n].Completed? && history[n].scan.subject == subject then [history[n].scan] else []
  }

  /** The `i`-th scan reported the fingerprint. */
  predicate Occurs(scans: seq<Scan>, i: int, fingerprint: string) {
    0 <= i < |scans| && Reports(scans[i].batch, fingerprint)
  }

  predicate FirstOccurs(scans: seq<Scan>, i: int, fingerprint: string) {
    Occurs(scans, i, fingerprint) && forall j | 0 <= j < i :: !Occurs(scans, j, fingerprint)
  }

  predicate LastOccurs(scans: seq<Scan>, i: int, fingerprint: string) {
    Occurs(scans, i, fingerprint) && forall j | i < j < |scans| :: !Occurs(scans, j, fingerprint)
  }

  /** One row against all scans of its subject: presence, earliest scan and latest scan. */
  ghost predicate RowTellsHistory(index: Index, scans: seq<Scan>, key: Key) {
    && (key in index <==> exists i :: Occurs(scans, i, key.fingerprint))
    && (key in index ==>
          && (exists i :: FirstOccurs(scans, i, key.fingerprint) && index[key].firstSeen == scans[i].runId)
          && (exists i :: LastOccurs(scans, i, key.fingerprint) && index[key].lastSeen == scans[i].runId))
  }

  /** What one more scan of the subject does to one row. */
  predicate RowMoves(before: Index, after: Index, scan: Scan, key: Key) {
    if Reports(scan.batch, key.fingerprint) then
      && key in after && after[key].lastSeen == scan.runId
      && after[key].firstSeen == if key in before then before[key].firstSeen else scan.runId
    else
      RowStays(before, after, key)
  }

  predicate RowStays(before: Index, after: Index, key: Key) {
    && (key in after <==> key in before)
    && (key in before ==>
          after[key].firstSeen == before[key].firstSeen && after[key].lastSeen == before[key].lastSeen)
  }

  lemma MovedRowTellsHistory(before: Index, after: Index, scans: seq<Scan>, scan: Scan, key: Key)
    requires RowMoves(before, after, scan, key) && RowTellsHistory(before, scans, key)
    ensures RowTellsHistory(after, scans + [scan], key)
  {
    var n, f, longer := |scans|, key.fingerprint, scans + [scan];
    forall i | i < n ensures Occurs(longer, i, f) <==> Occurs(scans, i, f) { }
    if key in before {
      var first :| FirstOccurs(scans, first, f) && before[key].firstSeen == scans[first].runId;
      var last :| LastOccurs(scans, last, f) && before[key].lastSeen == scans[last].runId;
      assert FirstOccurs(longer, first, f);
      assert LastOccurs(longer, if Occurs(longer, n, f) then n else last, f);
    } else if Occurs(longer, n, f) {
      assert FirstOccurs(longer, n, f) && LastOccurs(longer, n, f);
    } else {
      forall i ensures !Occurs(longer, i, f) { if 0 <= i < n { assert !Occurs(scans, i, f); } }
    }
  }

  lemma StillRowTellsHistory(before: Index, after: Index, scans: seq<Scan>, key: Key)
    requires RowStays(before, after, key) && RowTellsHistory(before, scans, key)
    ensures RowTellsHistory(after, scans, key)
  {
  }

  lemma {:induction false} RowRefinesHistory(history: seq<Change>, key: Key)
    requires ValidHistory(history)
    ensures RowTellsHistory(IndexOf(history), ScansOf(history, key.subject), key)
  {
    if history != [] {
      var n := |history| - 1;
      assert ValidHistory(history[..n]);
      RowRefinesHistory(history[..n], key);
      var before, after, scans := IndexOf(history[..n]), IndexOf(history), ScansOf(history[..n], key.subject);
      ChangeMovesRow(before, history[n], key);
      hide RowTellsHistory, RowMoves, RowStays, Apply;
      if history[n].Completed? && history[n].scan.subject == key.subject {
        MovedRowTellsHistory(before, after, scans, history[n].scan, key);
      } else {
        StillRowTellsHistory(before, after, scans, key);
        assert ScansOf(history, key.subject) == scans;
      }
    }
  }

  lemma ChangeMovesRow(before: Index, change: Change, key: Key)
    requires change.Completed? ==> DistinctFingerprints(change.scan.batch)
    ensures if change.Completed? && change.scan.subject == key.subject
            then RowMoves(before, Apply(before, change), change.scan, key)
            else RowStays(before, Apply(before, change), key)
  {
    if change.Completed? {
      UpsertAllRow(before, change.scan.subject, change.scan.runId, change.scan.batch, key);
    }
  }

  /**
    The index refines the history: a row exists exactly for what some completed scan of its
    subject reported, and its two runs are the earliest and the latest such scan.
  */
  lemma IndexRefinesHistory(history: seq<Change>)
    requires ValidHistory(history)
    ensures forall key: Key :: RowTellsHistory(IndexOf(history), ScansOf(history, key.subject), key)
  {
    forall key: Key ensures RowTellsHistory(IndexOf(history), ScansOf(history, key.subject), key) {
      RowRefinesHistory(history, key);
    }
  }

  /** The scans of one subject are distinct runs of it. */
  lemma {:induction false} ScansOfDistinct(history: seq<Change>, subject: Subject)
    requires ValidHistory(history)
    ensures forall i | 0 <= i < |ScansOf(history, subject)| ::
              && ScansOf(history, subject)[i].subject == subject
              && exists k :: 0 <= k < |history| && history[k] == Completed(ScansOf(history, subject)[i])
    ensures forall i, j | 0 <= i < j < |ScansOf(history, subject)| ::
              ScansOf(history, subject)[i].runId != ScansOf(history, subject)[j].runId
  {
    if history != [] {
      var n := |history| - 1;
      var earlier, all := ScansOf(history[..n], subject), ScansOf(history, subject);
      assert ValidHistory(history[..n]);
      ScansOfDistinct(history[..n], subject);
      forall i | 0 <= i < |all|
        ensures all[i].subject == subject && exists k :: 0 <= k < |history| && history[k] == Completed(all[i])
      {
        if i < |earlier| {
          var k :| 0 <= k < n && history[..n][k] == Completed(earlier[i]);
          assert history[k] == Completed(all[i]);
        } else {
          assert history[n] == Completed(all[i]);
        }
      }
      forall i, j | 0 <= i < j < |all| ensures all[i].runId != all[j].runId {
        if j == |earlier| {
          var k :| 0 <= k < n && history[..n][k] == Completed(earlier[i]);
          assert history[k].scan.runId != history[n].scan.runId;
        }
      }
    }
  }

  /** Rescanning never touches triage: a suppressed finding stays suppressed. */
  lemma {:induction false} RescansKeepTriage(history: seq<Change>, n: nat, key: Key)
    requires ValidHistory(history) && n <= |history| && key in IndexOf(history[..n])
    requires forall i | n <= i < |history| && history[i].TriagedBy? :: history[i].key != key
    ensures key in IndexOf(history)
    ensures IndexOf(history)[key].status == IndexOf(history[..n])[key].status
    ensures IndexOf(history)[key].finding == IndexOf(history[..n])[key].finding
    decreases |history|
  {
    if n == |history| {
      assert history[..n] == history;
    } else {
      var m := |history| - 1;
      assert history[..m][..n] == history[..n];
      RescansKeepTriage(history[..m], n, key);
      if history[m].Completed? {
        var scan := history[m].scan;
        UpsertAllRow(IndexOf(history[..m]), scan.subject, scan.runId, scan.batch, key);
      }
    }
  }

  /**
    Triage touches nothing the index says about history, and no status but that of its own row,
    between open and suppressed; suppressing and unsuppressing undoes itself unless the row was
    suppressed before.
  */
  lemma TriageKeepsHistory(index: Index, key: Key, triage: Triage, other: Key)
    ensures Triaged(index, key, triage).Keys == index.Keys
    ensures other in index ==>
              var before, after := index[other], Triaged(index, key, triage)[other];
              && after.firstSeen == before.firstSeen && after.lastSeen == before.lastSeen
              && after.finding == before.finding
              && (after.status != before.status ==>
                    && other == key && before.status in {Open, Suppressed}
                    && after.status == if triage.Suppress? then Suppressed else Open)
    ensures Triaged(Triaged(index, key, Suppress), key, Unsuppress) == index
       <==> key !in index || index[key].status != Suppressed
  {
    var undone := Triaged(Triaged(index, key, Suppress), key, Unsuppress);
    if key in index && index[key].status == Suppressed {
      assert undone[key].status == Open;
    } else if key in index {
      assert undone[key] == index[key];
    }
  }
}
