/** Properties of the security gate: how severities are counted, the
    threshold rule of the static-analysis check, the advisory dependency
    check and the exit status of a whole run. */
module SecurityCheckProperties {
  import opened Wrappers
  import opened SecurityCheck

  /** A present report whose `results` list is `issues`. */
  function Scanned(issues: seq<Issue>): (r: Option<BanditData>)
  {
    Some(BanditData(Some(issues)))
  }

  /** True when `issue` is one of the two kinds the check counts. */
  predicate Severe(issue: Issue)
  {
    issue.severity == Some(High) || issue.severity == Some(Critical)
  }

  // ---------------------------------------------------------------------
  // Counting

  /** Counting is additive over concatenation: the comprehension looks at
      every issue on its own. */
  lemma {:induction false} CountSeverityAppend(a: seq<Issue>, b: seq<Issue>, level: string)
    ensures CountSeverity(a + b, level) == CountSeverity(a, level) + CountSeverity(b, level)
  {
    if a == [] {
      assert a + b == b;
    } else {
      assert (a + b)[0] == a[0] && (a + b)[1..] == a[1..] + b;
      CountSeverityAppend(a[1..], b, level);
    }
  }

  /** The count is the number of occurrences of an issue with exactly that
      severity: an independent, order-free reference definition. */
  lemma {:induction false} CountSeverityIsOccurrences(issues: seq<Issue>, level: string)
    ensures CountSeverity(issues, level) == multiset(issues)[Issue(Some(level))]
  {
    if issues != [] {
      assert issues == [issues[0]] + issues[1..];
      assert multiset(issues) == multiset{issues[0]} + multiset(issues[1..]);
      CountSeverityIsOccurrences(issues[1..], level);
    }
  }

  /** Two different severities are never both counted for one issue, so the
      HIGH and CRITICAL counts together never exceed the number of issues. */
  lemma {:induction false} HighPlusCriticalBounded(issues: seq<Issue>)
    ensures CountSeverity(issues, High) + CountSeverity(issues, Critical) <= |issues|
  {
    if issues != [] {
      HighPlusCriticalBounded(issues[1..]);
    }
  }

  /** An issue whose severity is not exactly `level` (another string, a
      differently-cased one, or none) does not change the count, wherever it
      is inserted. */
  lemma InsertOtherSeverity(a: seq<Issue>, x: Issue, b: seq<Issue>, level: string)
    requires x.severity != Some(level)
    ensures CountSeverity(a + [x] + b, level) == CountSeverity(a + b, level)
  {
    CountSeverityAppend(a + [x], b, level);
    CountSeverityAppend(a, [x], level);
    CountSeverityAppend(a, b, level);
  }

  // ---------------------------------------------------------------------
  // The static-analysis check

  /** A missing report passes, with only the "not found" warning. */
  lemma MissingBanditReportPasses()
    ensures CheckBandit(None) == CheckResult(true, [BanditMissing])
  {
  }

  /** A report without a `results` key behaves as an empty issue list and
      passes. */
  lemma MissingResultsKeyPasses()
    ensures CheckBandit(Some(BanditData(None))) == CheckBandit(Scanned([]))
    ensures CheckBandit(Some(BanditData(None))) == CheckResult(true, [BanditCounts(0, 0)])
  {
  }

  /** The decision rule, stated on occurrences: a present report passes
      exactly when it holds no CRITICAL issue and at most `MaxHighIssues`
      HIGH issues. */
  lemma {:induction false} BanditRule(data: BanditData)
    ensures CheckBandit(Some(data)).ok <==>
      multiset(data.results.GetOr([]))[Issue(Some(Critical))] == 0 &&
      multiset(data.results.GetOr([]))[Issue(Some(High))] <= MaxHighIssues
  {
    CountSeverityIsOccurrences(data.results.GetOr([]), Critical);
    CountSeverityIsOccurrences(data.results.GetOr([]), High);
  }

  /** Any CRITICAL issue fails the check, however few HIGH issues there are,
      and the failure message names the critical issues. */
  lemma CriticalFails(issues: seq<Issue>, i: int)
    requires 0 <= i < |issues| && issues[i].severity == Some(Critical)
    ensures !CheckBandit(Scanned(issues)).ok
    ensures CriticalFound in CheckBandit(Scanned(issues)).messages
  {
    CountSeverityIsOccurrences(issues, Critical);
    assert issues[i] in multiset(issues);
  }

  /** With no CRITICAL issue, the check passes exactly when there are at
      most three HIGH issues. */
  lemma HighThreshold(issues: seq<Issue>)
    requires CountSeverity(issues, Critical) == 0
    ensures CheckBandit(Scanned(issues)).ok <==> CountSeverity(issues, High) <= MaxHighIssues
    ensures !CheckBandit(Scanned(issues)).ok ==> TooManyHigh in CheckBandit(Scanned(issues)).messages
  {
  }

  /** The result of the check, messages included, depends only on which
      issues occur and how often, not on their order. */
  lemma {:induction false} BanditOrderIrrelevant(a: seq<Issue>, b: seq<Issue>)
    requires multiset(a) == multiset(b)
    ensures CheckBandit(Scanned(a)) == CheckBandit(Scanned(b))
  {
    CountSeverityIsOccurrences(a, High);
    CountSeverityIsOccurrences(b, High);
    CountSeverityIsOccurrences(a, Critical);
    CountSeverityIsOccurrences(b, Critical);
  }

  /** An issue that is neither exactly HIGH nor exactly CRITICAL leaves the
      check's verdict and messages unchanged, wherever it is inserted. */
  lemma InsertOtherIssue(a: seq<Issue>, x: Issue, b: seq<Issue>)
    requires !Severe(x)
    ensures CheckBandit(Scanned(a + [x] + b)) == CheckBandit(Scanned(a + b))
  {
    InsertOtherSeverity(a, x, b, High);
    InsertOtherSeverity(a, x, b, Critical);
  }

  /** Monotonicity: more issues can only turn a pass into a fail.  If a
      report passes, so does every report obtained from it by removing a
      block of issues, wherever that block stood. */
  lemma ExtensionNeverRepairs(a: seq<Issue>, m: seq<Issue>, b: seq<Issue>)
    ensures CheckBandit(Scanned(a + m + b)).ok ==> CheckBandit(Scanned(a + b)).ok
  {
    CountSeverityAppend(a + m, b, High);
    CountSeverityAppend(a + m, b, Critical);
    CountSeverityAppend(a, m, High);
    CountSeverityAppend(a, m, Critical);
    CountSeverityAppend(a, b, High);
    CountSeverityAppend(a, b, Critical);
  }

  /** Appending one issue: a HIGH or CRITICAL issue can only turn a pass into
      a fail, any other issue leaves the result unchanged. */
  lemma AppendIssue(issues: seq<Issue>, x: Issue)
    ensures CheckBandit(Scanned(issues + [x])).ok ==> CheckBandit(Scanned(issues)).ok
    ensures !Severe(x) ==> CheckBandit(Scanned(issues + [x])) == CheckBandit(Scanned(issues))
  {
    assert issues + [x] + [] == issues + [x];
    assert issues + [] == issues;
    ExtensionNeverRepairs(issues, [x], []);
    if !Severe(x) {
      InsertOtherIssue(issues, x, []);
    }
  }

  /** Appending a CRITICAL issue always fails the check. */
  lemma AppendCriticalFails(issues: seq<Issue>)
    ensures !CheckBandit(Scanned(issues + [Issue(Some(Critical))])).ok
  {
    CriticalFails(issues + [Issue(Some(Critical))], |issues|);
  }

  /** The threshold is sharp: three HIGH issues pass, a fourth fails. */
  lemma HighBoundary()
    ensures CheckBandit(Scanned(seq(3, _ => Issue(Some(High))))) == CheckResult(true, [BanditCounts(3, 0)])
    ensures CheckBandit(Scanned(seq(4, _ => Issue(Some(High))))) == CheckResult(false, [BanditCounts(4, 0), TooManyHigh])
  {
  }

  /** Exact, case-sensitive comparison: a report made only of lower-case
      "high" and "critical" issues passes, whatever their number and order. */
  lemma LowerCaseIgnored(issues: seq<Issue>)
    requires forall i :: 0 <= i < |issues| ==> issues[i].severity in {Some("high"), Some("critical")}
    ensures CheckBandit(Scanned(issues)).ok
  {
  }

  // ---------------------------------------------------------------------
  // The dependency check

  /** The dependency check always passes, and warns exactly when the report
      is present and lists at least one vulnerability. */
  lemma SafetyAdvisory(report: Option<SafetyData>)
    ensures CheckSafety(report).ok
    ensures DependencyWarning in CheckSafety(report).messages <==>
      report.Some? && |report.value.vulnerabilities.GetOr([])| > 0
  {
  }

  // ---------------------------------------------------------------------
  // A whole run

  /** The exit status is 0 exactly when both checks pass and 1 otherwise,
      and the final banner agrees with it. */
  lemma GateVerdict(bandit: Option<BanditData>, safety: Option<SafetyData>)
    ensures RunGate(bandit, safety).exitCode == (if CheckBandit(bandit).ok && CheckSafety(safety).ok then ExitPass else ExitFail)
    ensures RunGate(bandit, safety).messages ==
      CheckBandit(bandit).messages + CheckSafety(safety).messages +
      [if RunGate(bandit, safety).exitCode == ExitPass then ChecksPassed else ChecksFailed]
  {
  }

  /** With neither report present the gate passes and prints two warnings. */
  lemma NoReportsPass()
    ensures RunGate(None, None) == GateResult(ExitPass, [BanditMissing, SafetyMissing, ChecksPassed])
  {
  }

  /** A CRITICAL issue anywhere in the static-analysis report fails the
      whole gate, whatever the dependency report says. */
  lemma CriticalFailsGate(issues: seq<Issue>, i: int, safety: Option<SafetyData>)
    requires 0 <= i < |issues| && issues[i].severity == Some(Critical)
    ensures RunGate(Scanned(issues), safety).exitCode == ExitFail
  {
    CriticalFails(issues, i);
  }
}
