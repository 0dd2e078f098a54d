# Security gate of the ToDoList CI pipeline, modelled in Dafny

This project models the decision procedure in `security_check.py`. That script is a CI
pipeline step. It reads two scanner reports: the Bandit static-analysis report and the
Safety dependency report. It prints a summary line for each check, then prints a pass or
fail banner and exits with status 0 or 1.

- `wrappers.dfy`: module `Wrappers`, the `Option` datatype.
- `security_check.dfy`: module `SecurityCheck`, the model itself:
  - the parsed reports (`Issue`, `BanditData`, `Vulnerability`, `SafetyData`);
  - the printed lines, as `Message` tags;
  - the two checks (`CheckBandit`, `CheckSafety`);
  - the whole run (`RunGate`), which returns the exit status and the messages in print order.
- `security_check_properties.dfy`: module `SecurityCheckProperties`, the lemmas.

Each report is an `Option`. `None` means the file was not found, which the source handles
by catching `FileNotFoundError`. A present report whose `results` (or `vulnerabilities`)
key is missing is `BanditData(None)` (or `SafetyData(None)`), and the model reads it as an
empty list, as `data.get(key, [])` does. An issue's `issue_severity` is an
`Option<string>`. It is counted only when it equals `"HIGH"` or `"CRITICAL"` exactly. A
value of any other JSON type compares unequal in the source, so it behaves exactly like
`None` or like any other string.

`CountSeverity` counts the issues of one severity. Its independent, order-free reference is
the number of occurrences of `Issue(Some(level))` in the multiset of issues, and
`CountSeverityIsOccurrences` proves the two equal.

The script's rule is:

- any CRITICAL issue fails the check;
- otherwise, more than three HIGH issues fail it;
- a missing report passes;
- the dependency check only warns.

## Model

| member | source | states |
|---|---|---|
| SecurityCheck.CountSeverity | security_check.py:15-18 | the count of issues with a given severity never exceeds the number of issues; it equals that number when every issue has that severity, and it is 0 when none does |
| SecurityCheck.CheckBandit | security_check.py:9-33 | a missing report passes; every outcome prints at least one line |
| SecurityCheck.CheckSafety | security_check.py:35-50 | the dependency check passes on every input, report present or not |
| SecurityCheck.RunGate | security_check.py:52-61 | the exit status is 0 or 1, and it is 0 exactly when the static-analysis check passes, because the dependency check always passes |
| SecurityCheckProperties.CountSeverityAppend | security_check.py:15-18 | the count over a concatenation is the sum of the counts over the parts |
| SecurityCheckProperties.CountSeverityIsOccurrences | security_check.py:15-18 | the count equals the multiplicity of an issue with exactly that severity in the multiset of issues |
| SecurityCheckProperties.HighPlusCriticalBounded | security_check.py:15-18 | the HIGH count plus the CRITICAL count never exceeds the total number of issues |
| SecurityCheckProperties.InsertOtherSeverity | security_check.py:15-18 | inserting an issue of another severity, at any position, leaves a count unchanged |
| SecurityCheckProperties.MissingBanditReportPasses | security_check.py:31-33 | a missing static-analysis report passes and prints only the not-found warning |
| SecurityCheckProperties.MissingResultsKeyPasses | security_check.py:15-18 | a report without `results` behaves as an empty issue list: it passes with counts 0 and 0 |
| SecurityCheckProperties.BanditRule | security_check.py:15-30 | a present report passes exactly when it has no CRITICAL issue and at most 3 HIGH issues, with both counted as occurrences |
| SecurityCheckProperties.CriticalFails | security_check.py:22-24 | one CRITICAL issue anywhere fails the check with the critical-vulnerability message, whatever the HIGH count |
| SecurityCheckProperties.HighThreshold | security_check.py:26-30 | with no CRITICAL issue the check passes exactly when the HIGH count is at most 3; otherwise it prints the too-many-high message |
| SecurityCheckProperties.HighBoundary | security_check.py:26-30 | exactly three HIGH issues pass; four fail, with the too-many-high message |
| SecurityCheckProperties.BanditOrderIrrelevant | security_check.py:15-30 | two reports whose issues are permutations of each other produce the same verdict and the same messages |
| SecurityCheckProperties.InsertOtherIssue | security_check.py:15-30 | inserting an issue that is neither exactly HIGH nor exactly CRITICAL, at any position, leaves the verdict and the messages unchanged |
| SecurityCheckProperties.ExtensionNeverRepairs | security_check.py:15-30 | if a report with a block of extra issues inserted at any position passes, the report without them passes too: added issues, wherever they go, never turn a fail into a pass |
| SecurityCheckProperties.AppendIssue | security_check.py:15-30 | appending one issue never turns a fail into a pass; appending an issue that is not HIGH or CRITICAL changes nothing |
| SecurityCheckProperties.AppendCriticalFails | security_check.py:22-24 | appending a CRITICAL issue to any report makes the check fail |
| SecurityCheckProperties.LowerCaseIgnored | security_check.py:15-18 | every report whose issues are all lower-case "high" or "critical", in any number and order, passes, because the comparison is case-sensitive |
| SecurityCheckProperties.SafetyAdvisory | security_check.py:41-50 | the dependency check always passes; its warning is printed exactly when the report is present and lists at least one vulnerability |
| SecurityCheckProperties.GateVerdict | security_check.py:52-61 | the exit status is 0 exactly when both checks pass and 1 otherwise; the output is the static-analysis lines, then the dependency lines, then the banner matching the status |
| SecurityCheckProperties.NoReportsPass | security_check.py:52-61 | with neither report present the gate exits 0 after printing two not-found warnings |
| SecurityCheckProperties.CriticalFailsGate | security_check.py:52-61 | a CRITICAL issue at any position of the static-analysis report makes the gate exit 1, whatever the dependency report says |

## Left out

- Opening `bandit-report.json` and `safety-report.json`, `json.load`, and `sys.exit` are I/O. The reports come in already parsed, and the exit status is a returned integer.
- The printed text (emoji, wording, f-string formatting) is not modelled. Each printed line is a `Message` tag that carries the numbers the line shows.
- Malformed JSON is not modelled. Neither is a top-level value that is not an object, an issue that is not an object, or a `results` value that is `null`, a number, a boolean, or a non-empty non-list. The source raises an uncaught exception in these cases: the script stops with a traceback and exit status 1, without a banner, even when the bad file is the dependency report. The model does not cover these inputs.
- A `results` value that is an empty object or an empty string is iterated as nothing, so it behaves like the empty list and the check passes. The model writes that case as `BanditData(Some([]))`.
- A `vulnerabilities` value that is not a list is not modelled: `len` would accept a string or an object too. The model takes the value as a list.
- The contents of a dependency-report entry are abstract, because the gate only counts the entries.
- `health_check.py` is not part of this model: Flask routes, `psutil` metrics, the clock and floating-point percentages.
- `logging_config.py` is not part of this model: process-wide logging setup, rotating file handlers, directory creation and environment reads.
- `tests/test_app.py` is not part of this model: it drives the web application (`todo_app`) and its SQLite database, which lie outside the security gate.
