/** The decision procedure of the CI security gate (`security_check.py`).

    Reading `bandit-report.json` and `safety-report.json` and decoding them
    is left outside: each report arrives already parsed, as `None` when the
    file does not exist and as `Some(data)` otherwise.  The lines the script
    prints are returned as a sequence of message tags, and the process exit
    status as an integer.
 */
module SecurityCheck {
  import opened Wrappers

  /** The two severity strings the static-analysis check looks for; the
      comparison is exact and case-sensitive. */
  const High: string := "HIGH"
  const Critical: string := "CRITICAL"

  /** The largest number of HIGH issues that still lets the gate pass. */
  const MaxHighIssues: nat := 3

  /** The process exit statuses of the gate. */
  const ExitPass: int := 0
  const ExitFail: int := 1

  /** One entry of the static-analysis `results` list; only its
      `issue_severity` field is ever read.  `None` is an entry without that
      field (a severity of any other JSON type compares unequal to both
      severity strings, exactly like an absent one or another string). */
  datatype Issue = Issue(severity: Option<string>)

  /** A decoded static-analysis report: `results` is `None` when the object
      has no `results` key. */
  datatype BanditData = BanditData(results: Option<seq<Issue>>)

  /** One entry of the dependency scanner's `vulnerabilities` list; the gate
      only counts them, so the entry's contents are kept abstract. */
  datatype Vulnerability = Vulnerability

  /** A decoded dependency report: `vulnerabilities` is `None` when the
      object has no `vulnerabilities` key. */
  datatype SafetyData = SafetyData(vulnerabilities: Option<seq<Vulnerability>>)

  /** The lines the gate prints, in the order it prints them. */
  datatype Message =
    | BanditCounts(high: nat, critical: nat)  // "Bandit scan - High: …, Critical: …"
    | CriticalFound                           // critical vulnerabilities: pipeline failed
    | TooManyHigh                             // too many high severity issues: pipeline failed
    | BanditMissing                           // warning: Bandit report not found
    | SafetyCount(vulnerabilities: nat)       // "Safety scan - Vulnerabilities: …"
    | DependencyWarning                       // warning: dependency vulnerabilities, review required
    | SafetyMissing                           // warning: Safety report not found
    | ChecksPassed                            // final banner on success
    | ChecksFailed                            // final banner on failure

  /** The verdict of one check together with what it printed. */
  datatype CheckResult = CheckResult(ok: bool, messages: seq<Message>)

  /** What a whole run of the gate prints and the status it exits with. */
  datatype GateResult = GateResult(exitCode: int, messages: seq<Message>)

  /** The number of issues whose severity is exactly `level`: the length of
      the filtered list comprehension. */
  function CountSeverity(issues: seq<Issue>, level: string): (n: nat)
    ensures n <= |issues|
    ensures (forall i :: 0 <= i < |issues| ==> issues[i].severity == Some(level)) ==> n == |issues|
    ensures (forall i :: 0 <= i < |issues| ==> issues[i].severity != Some(level)) ==> n == 0
  {
    if issues == [] then 0
    else (if issues[0].severity == Some(level) then 1 else 0) + CountSeverity(issues[1..], level)
  }

  /** `check_bandit_results`: a missing report passes with a warning; a
      present one fails on any CRITICAL issue, else on more than
      `MaxHighIssues` HIGH issues, else passes. */
  function CheckBandit(report: Option<BanditData>): (r: CheckResult)
    ensures report.None? ==> r.ok
    ensures |r.messages| >= 1
  {
    match report
    case None => CheckResult(true, [BanditMissing])
    case Some(data) =>
      // `data.get('results', [])`: no `results` key means no issues
      var issues := data.results.GetOr([]);
      var high := CountSeverity(issues, High);
      var critical := CountSeverity(issues, Critical);
      if critical > 0 then CheckResult(false, [BanditCounts(high, critical), CriticalFound])
      else if high > MaxHighIssues then CheckResult(false, [BanditCounts(high, critical), TooManyHigh])
      else CheckResult(true, [BanditCounts(high, critical)])
  }

  /** `check_safety_results`: advisory only, it reports the number of
      vulnerabilities and warns when there are any, but never fails. */
  function CheckSafety(report: Option<SafetyData>): (r: CheckResult)
    ensures r.ok
  {
    match report
    case None => CheckResult(true, [SafetyMissing])
    case Some(data) =>
      // `len(data.get('vulnerabilities', []))`
      var count := |data.vulnerabilities.GetOr([])|;
      CheckResult(true, [SafetyCount(count)] + (if count > 0 then [DependencyWarning] else []))
  }

  /** The `__main__` block: both checks run, in this order, and the gate
      passes exactly when both of them do. */
  function RunGate(bandit: Option<BanditData>, safety: Option<SafetyData>): (r: GateResult)
    ensures r.exitCode == ExitPass || r.exitCode == ExitFail
    ensures r.exitCode == ExitPass <==> CheckBandit(bandit).ok
  {
    var b := CheckBandit(bandit);
    var s := CheckSafety(safety);
    if b.ok && s.ok then GateResult(ExitPass, b.messages + s.messages + [ChecksPassed])
    else GateResult(ExitFail, b.messages + s.messages + [ChecksFailed])
  }
}
