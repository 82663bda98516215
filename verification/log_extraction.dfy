/** Recovering the scanner's JSON report from a log that mixes it with coloured status lines. */
module LogExtraction {

  const ESC: char := '\U{001B}'
  const NEWLINE: char := '\n'

  // ------------------------------------------------------------------ stripping escape sequences

  predicate IsParameter(c: char) { '0' <= c <= '9' || c == ';' }

  predicate IsLetter(c: char) { 'A' <= c <= 'Z' || 'a' <= c <= 'z' }

  /** An escape character, a bracket, digits and semicolons, and one letter. */
  predicate IsEscape(t: string) {
    && |t| >= 3 && t[0] == ESC && t[1] == '[' && IsLetter(t[|t| - 1])
    && forall i | 2 <= i < |t| - 1 :: IsParameter(t[i])
  }

  function ParameterRun(s: string): (n: nat)
    ensures n <= |s| && (forall i | 0 <= i < n :: IsParameter(s[i])) && (n < |s| ==> !IsParameter(s[n]))
  {
    if s == [] || !IsParameter(s[0]) then 0 else 1 + ParameterRun(s[1..])
  }

  /** The length of the escape sequence at the start of the text, or 0. */
  function MatchLength(s: string): (n: nat)
    ensures n <= |s| && (n > 0 ==> IsEscape(s[..n]))
  {
    if |s| < 3 || s[0] != ESC || s[1] != '[' then 0
    else
      var n := 2 + ParameterRun(s[2..]);
      if n < |s| && IsLetter(s[n]) then assert forall i | 2 <= i < n :: s[i] == s[2..][i - 2]; n + 1 else 0
  }

  /** The text with every escape sequence removed, leftmost first. */
  function StripAnsi(s: string): string {
    if s == [] then []
    else if MatchLength(s) > 0 then StripAnsi(s[MatchLength(s)..])
    else [s[0]] + StripAnsi(s[1..])
  }

  /** Sequences at the same place have the same length, so what is removed is never ambiguous. */
  lemma MatchUnique(s: string, n: nat)
    requires n <= |s| && IsEscape(s[..n])
    ensures MatchLength(s) == n
  {
    var run := ParameterRun(s[2..]);
    var t, rest := s[..n], s[2..];
    forall k | 0 <= k < n - 3 ensures IsParameter(rest[k]) { assert t[k + 2] == rest[k]; }
    assert t[n - 1] == rest[n - 3] && !IsParameter(rest[n - 3]);
    assert run >= n - 3;
  }

  lemma EscapeHasNoNewline(t: string)
    requires IsEscape(t)
    ensures forall i | 0 <= i < |t| :: t[i] != NEWLINE
  {
    forall i | 0 <= i < |t| ensures t[i] != NEWLINE { if 2 <= i < |t| - 1 { assert IsParameter(t[i]); } }
  }

  /** What stripping does at the front of a text: drop the escape sequence there, or keep the character. */
  lemma StripExact(s: string, n: nat)
    requires s != []
    ensures n <= |s| && IsEscape(s[..n]) ==> StripAnsi(s) == StripAnsi(s[n..])
    ensures (forall k | 0 <= k <= |s| :: !IsEscape(s[..k])) ==> StripAnsi(s) == [s[0]] + StripAnsi(s[1..])
  {
    if n <= |s| && IsEscape(s[..n]) { MatchUnique(s, n); }
  }

  /** A newline is neither a parameter nor a letter, so what follows one changes no match before it. */
  lemma MatchStopsAtNewline(a: string, b: string)
    ensures MatchLength(a + [NEWLINE] + b) == MatchLength(a)
  {
    var s := a + [NEWLINE] + b;
    if MatchLength(a) > 0 {
      assert s[..MatchLength(a)] == a[..MatchLength(a)];
      MatchUnique(s, MatchLength(a));
    } else if MatchLength(s) > 0 {
      var n := MatchLength(s);
      EscapeHasNoNewline(s[..n]);
      forall i | 0 <= i < n ensures s[i] != NEWLINE { assert s[..n][i] == s[i]; }
      assert s[|a|] == NEWLINE;
      assert s[..n] == a[..n];
      MatchUnique(a, n);
    }
  }

  lemma MatchEmpty(a: string)
    ensures a == [] ==> MatchLength(a) == 0
  {
  }

  /** Stripping works line by line: no escape sequence spans a newline. */
  lemma {:induction false} StripDistributes(a: string, b: string)
    ensures StripAnsi(a + [NEWLINE] + b) == StripAnsi(a) + [NEWLINE] + StripAnsi(b)
    decreases |a|
  {
    hide MatchLength;
    var s := a + [NEWLINE] + b;
    MatchStopsAtNewline(a, b);
    MatchEmpty(a);
    if a == [] {
      assert s[1..] == b;
    } else if MatchLength(a) > 0 {
      var n := MatchLength(a);
      assert s[n..] == a[n..] + [NEWLINE] + b;
      StripDistributes(a[n..], b);
    } else {
      assert s[1..] == a[1..] + [NEWLINE] + b;
      StripDistributes(a[1..], b);
    }
  }

  lemma {:induction false} StripPlain(s: string)
    requires ESC !in s
    ensures StripAnsi(s) == s
  {
    if s != [] { StripPlain(s[1..]); }
  }

  // ------------------------------------------------------------------ finding the report

  /** A line that opens a JSON array starts here. */
  predicate OpensArray(s: string, i: nat) {
    i < |s| && s[i] == '[' && (i == 0 || s[i - 1] == NEWLINE)
  }

  /** The text from its last line that opens an array, or all of it when there is none. */
  predicate IsFromLastOpening(s: string, r: string) {
    if exists i :: 0 <= i < |s| && OpensArray(s, i)
    then exists i :: 0 <= i < |s| && OpensArray(s, i) && r == s[i..] && forall j | i < j < |s| :: !OpensArray(s, j)
    else r == s
  }

  lemma FromLastOpeningUnique(s: string, r: string, q: string)
    requires IsFromLastOpening(s, r) && IsFromLastOpening(s, q)
    ensures r == q
  {
    if exists i :: 0 <= i < |s| && OpensArray(s, i) {
      var i :| 0 <= i < |s| && OpensArray(s, i) && r == s[i..] && forall j | i < j < |s| :: !OpensArray(s, j);
      var k :| 0 <= k < |s| && OpensArray(s, k) && q == s[k..] && forall j | k < j < |s| :: !OpensArray(s, j);
      assert i == k;
    }
  }

  /** Scan the lines for matches and keep the last. */
  method ExtractReport(combinedLog: string) returns (report: string)
    ensures IsFromLastOpening(StripAnsi(combinedLog), report)
  {
    var plain := StripAnsi(combinedLog);
    var lastMatch := -1;
    var i := 0;
    while i < |plain|
      invariant 0 <= i <= |plain| && -1 <= lastMatch < i
      invariant i < |plain| && i > 0 ==> plain[i - 1] == NEWLINE
      invariant lastMatch >= 0 ==> OpensArray(plain, lastMatch)
      invariant forall j | 0 <= j < i && OpensArray(plain, j) :: j <= lastMatch
    {
      if plain[i] == '[' { lastMatch := i; }
      i := i + 1;
      while i < |plain| && plain[i - 1] != NEWLINE
        invariant 0 < i <= |plain| && -1 <= lastMatch < i
        invariant lastMatch >= 0 ==> OpensArray(plain, lastMatch)
        invariant forall j | 0 <= j < i && OpensArray(plain, j) :: j <= lastMatch
      {
        i := i + 1;
      }
    }
    if lastMatch < 0 { return plain; }
    return plain[lastMatch..];
  }

  /** Status lines, each ended by a newline; possibly none. */
  predicate IsStatusText(s: string) { s == [] || s[|s| - 1] == NEWLINE }

  predicate OneOpening(report: string) { forall i | 0 < i < |report| :: !OpensArray(report, i) }

  lemma StripStatusThenReport(status: string, report: string)
    requires IsStatusText(status) && ESC !in report
    ensures StripAnsi(status + report) == StripAnsi(status) + report
    ensures IsStatusText(StripAnsi(status))
  {
    hide StripAnsi;
    StripPlain(report);
    StripPlain([]);
    if status == [] {
      assert status + report == report;
    } else {
      var lines := status[..|status| - 1];
      assert status == lines + [NEWLINE] && status + report == lines + [NEWLINE] + report;
      assert lines + [NEWLINE] + [] == lines + [NEWLINE];
      StripDistributes(lines, report);
      StripDistributes(lines, []);
      assert StripAnsi(status) == StripAnsi(lines) + [NEWLINE];
    }
  }

  lemma OpeningsAfterStatus(plain: string, report: string, i: nat)
    requires IsStatusText(plain) && i < |report|
    ensures OpensArray(plain + report, |plain| + i) <==> OpensArray(report, i)
  {
    if i > 0 { assert (plain + report)[|plain| + i - 1] == report[i - 1]; }
  }

  lemma OpensAtStart(report: string)
    requires report != [] && report[0] == '['
    ensures OpensArray(report, 0)
  {
  }

  lemma ExtractedAfterStatus(plain: string, report: string, extracted: string)
    requires IsStatusText(plain) && report != [] && report[0] == '['
    requires IsFromLastOpening(plain + report, extracted)
    ensures IsFromLastOpening(report, extracted)
  {
    hide OpensArray, IsStatusText;
    var s, n := plain + report, |plain|;
    OpensAtStart(report);
    OpeningsAfterStatus(plain, report, 0);
    assert OpensArray(s, n) && 0 <= n < |s|;
    var i :| 0 <= i < |s| && OpensArray(s, i) && extracted == s[i..] && forall j | i < j < |s| :: !OpensArray(s, j);
    assert i >= n;
    var k := i - n;
    OpeningsAfterStatus(plain, report, k);
    assert OpensArray(report, k) && extracted == report[k..];
    forall j | k < j < |report| ensures !OpensArray(report, j) {
      OpeningsAfterStatus(plain, report, j);
      assert !OpensArray(s, n + j);
    }
  }

  /** What is extracted is decided by the report alone, whatever status lines precede it. */
  lemma StatusLinesIrrelevant(status: string, report: string, extracted: string)
    requires IsStatusText(status) && ESC !in report && report != [] && report[0] == '['
    requires IsFromLastOpening(StripAnsi(status + report), extracted)
    ensures IsFromLastOpening(report, extracted)
  {
    hide StripAnsi, IsFromLastOpening, IsStatusText;
    StripStatusThenReport(status, report);
    ExtractedAfterStatus(StripAnsi(status), report, extracted);
  }

  /**
    From coloured status lines followed by an escape-free report that opens with a bracket, the
    extraction returns exactly the report if and only if no later line of it opens with one.
  */
  lemma ReportRecoveredIff(status: string, report: string, extracted: string)
    requires IsStatusText(status) && ESC !in report && report != [] && report[0] == '['
    requires IsFromLastOpening(StripAnsi(status + report), extracted)
    ensures extracted == report <==> OneOpening(report)
  {
    StatusLinesIrrelevant(status, report, extracted);
    hide StripAnsi, IsStatusText;
    assert OpensArray(report, 0);
    var i :| 0 <= i < |report| && OpensArray(report, i) && extracted == report[i..]
             && forall j | i < j < |report| :: !OpensArray(report, j);
    if i > 0 { assert |extracted| < |report|; }
  }
}
