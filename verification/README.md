# JumpCloud device health and policy compliance, modelled in Dafny

Two small scripts query the JumpCloud REST API and print reports. The model covers the logic between the API responses and the printed text. The HTTP requests, the clock and the printing are not part of it.

- **Device health monitor** (`scripts/device_health_monitor.py`):
  - `get_all_devices` normalises the `/systems` response into a device list.
  - `check_device_health` turns each device record into a verdict. It applies four rules, checked in this order:
    1. last contact within 24 hours;
    2. `active` flag;
    3. agent version;
    4. operating system.
  - `generate_health_report` splits the verdicts into healthy devices and devices requiring attention. It computes the summary statistics, the healthy-devices table and the attention listing.
  - `main` and `send_alerts` decide whether an alert is raised and for how many devices.
- **Policy compliance checker** (`scripts/policy_enforcer.py`):
  - `analyze_compliance` builds one table row per policy: its name, its template's name or "Custom", and "✓ Enabled" or "✗ Disabled".
  - When there are policy results, it also reports how many of them are compliant.

Modules:

- `Json`: decoded JSON values; Python's `dict.get`, truthiness and `len`.
- `Decimal`: Python `str()` of an integer, with its round trip.
- `PyText`: Python `str.strip()` and `str()`/`repr()` of JSON values. The OS description uses them.
- `DeviceHealth`: the four rules and `check_device_health`.
- `HealthReport`: response normalisation, evaluation of every device, the report and the alert.
- `PolicyCompliance`: `analyze_compliance`.
- `Scenarios`: worked examples on concrete records.

Python behaviours the model keeps:

- **Uncaught errors are outcomes.** A device response that is a dict is replaced by its `results` value. A list response is used as it is. Any other response gives an empty list, and so no report. The run ends as `Crashed` only when a dict's `results` value is a truthy number or boolean, because that value cannot be iterated. When the `results` value is a truthy string or dict, it is iterated element by element, and each element gets the "Invalid device data format" verdict. In the compliance checker, a policy that is not a dict ends the run as `Crashed`. A compliance crash keeps what was printed before it: the policy count whenever `len(policies)` succeeded, and the policy table whenever every policy was read.
- **Timestamps are parsed by a parameter.** The parser and the current time are supplied by the caller, in whole seconds on one clock. The code applies `replace('Z', '+00:00')` before parsing, and so does the model.
- **Contact is checked first.** The code appends the contact-rule message before the activity, agent and OS messages. A device that fails every rule gets "Never contacted JumpCloud" first (`DeviceHealth.AllRulesFire`, `Scenarios.DeviceBIssues`). The contact check runs first in the code (`scripts/device_health_monitor.py:82-95`).

## Model

| member | source | states |
|---|---|---|
| Json.GetSpec | scripts/device_health_monitor.py:83 | a lookup is absent exactly when the key is not among the record's keys; a value it finds belongs to a field with that key |
| Json.GetFindsFirst | scripts/device_health_monitor.py:83 | the lookup returns the value of the first field carrying the key |
| Json.Len | scripts/policy_enforcer.py:90 | `len` is defined exactly for strings, lists and dicts; where defined it is positive exactly when the value is truthy |
| Decimal.NatToStringRoundTrip | scripts/device_health_monitor.py:91 | reading back the numeral written for the hour count gives the count |
| Decimal.NatToStringInjective | scripts/device_health_monitor.py:91 | different hour counts produce different numerals |
| Decimal.IntToStringInjective | scripts/device_health_monitor.py:114 | different integers are written as different strings |
| PyText.Strip | scripts/device_health_monitor.py:114 | the stripped OS description is a slice of the text; only whitespace is cut on either side; the result neither starts nor ends with whitespace |
| PyText.StripTrimmed | scripts/device_health_monitor.py:114 | stripping text that has no surrounding whitespace leaves it unchanged |
| PyText.StripTrailingBlank | scripts/device_health_monitor.py:114 | an empty version leaves only the OS name: the trailing blank is removed |
| PyText.ToStr | scripts/device_health_monitor.py:114 | the f-string interpolation keeps a string unchanged, writes null as "None", booleans as "True"/"False" and an integer as its decimal numeral; a list or dict is written with `repr()` |
| PyText.Repr | scripts/device_health_monitor.py:114 | `repr()` is never empty, and its first character tells the kind of value: `[` exactly for a list, `{` exactly for a dict, a quote exactly for a string |
| DeviceHealth.ReplaceZNoZ | scripts/device_health_monitor.py:87 | after the `Z` replacement the timestamp contains no `Z`; text without a `Z` is unchanged |
| DeviceHealth.ReplaceZConcat | scripts/device_health_monitor.py:87 | the replacement acts on each character separately: replacing in two joined texts is joining their replacements |
| DeviceHealth.TrailingZ | scripts/device_health_monitor.py:87 | a trailing `Z` becomes `+00:00` and the text before it is kept |
| DeviceHealth.ContactIssue | scripts/device_health_monitor.py:83-95 | "never contacted" exactly when `lastContact` is missing or falsy; "invalid timestamp" exactly when it is present but not a parsable string; a staleness issue exactly when more than 24 hours have passed; the reported hours are the whole hours elapsed |
| DeviceHealth.ActivityIssue | scripts/device_health_monitor.py:98-99 | the inactive issue is raised exactly when `active` is missing or falsy |
| DeviceHealth.AgentIssue | scripts/device_health_monitor.py:102-104 | the agent issue is raised exactly when `agentVersion` is missing or falsy |
| DeviceHealth.OsIssue | scripts/device_health_monitor.py:107-109 | the OS issue is raised exactly when `os` is missing or is the literal "Unknown"; an empty or null `os` passes |
| DeviceHealth.FindingsOrdered | scripts/device_health_monitor.py:80-109 | issues come strictly in rule order, at most one per rule; the contact issue, when raised, comes first |
| DeviceHealth.FindingsRules | scripts/device_health_monitor.py:80-109 | each fixed issue is present exactly when its rule's condition holds; a record never gets the format issue |
| DeviceHealth.Evaluate | scripts/device_health_monitor.py:59-120 | a verdict is healthy exactly when it has no issues; a non-dict input gets the fixed verdict: hostname, OS and agent version "Unknown", id "N/A", no last contact, inactive, and the single format issue; for a record, the issues are the messages of the rules that fire; the hostname, id, agent version, last contact and active flag fall back as the dict lookups do; the OS is the stripped "os version" description |
| DeviceHealth.OsDescriptionParts | scripts/device_health_monitor.py:114 | the OS description is "name version"; it is the name alone when there is no version, and "Unknown" when both are missing |
| DeviceHealth.JoinedParts | scripts/device_health_monitor.py:114 | a trimmed name and a non-empty trimmed version join into "name version", which stripping leaves as it is |
| DeviceHealth.NameAlone | scripts/device_health_monitor.py:114 | a trimmed name with an empty version strips back to the name alone |
| DeviceHealth.UnknownAlone | scripts/device_health_monitor.py:114 | the defaults for a record with neither OS nor version give "Unknown" |
| DeviceHealth.IssueTextInjective | scripts/device_health_monitor.py:91-109 | different issues produce different messages |
| DeviceHealth.HealthyIffAllRulesPass | scripts/device_health_monitor.py:80-118 | a device is healthy exactly when it is a record with recent contact, a truthy `active`, a truthy `agentVersion`, and an `os` that is present and not "Unknown" |
| DeviceHealth.RecordMessages | scripts/device_health_monitor.py:80-119 | each rule's message appears in a record's verdict exactly when the rule fires; the format message never appears |
| DeviceHealth.AllRulesFire | scripts/device_health_monitor.py:82-109 | when every rule fires, the four messages come in checking order, contact first |
| DeviceHealth.EvaluateIssuesDistinct | scripts/device_health_monitor.py:80-119 | a verdict lists at most four messages and never repeats one |
| HealthReport.KeepMembers | scripts/device_health_monitor.py:128-129 | a verdict is in a group exactly when it is an input verdict whose flag matches the group |
| HealthReport.KeepConcat | scripts/device_health_monitor.py:128-129 | filtering distributes over concatenation, so each group keeps the input order |
| HealthReport.PartitionComplete | scripts/device_health_monitor.py:128-129 | the two groups together hold every verdict exactly once: their sizes and their multisets add up to the input's |
| HealthReport.KeepSplit | scripts/device_health_monitor.py:128-129 | the healthy and the attention groups together are a permutation of the verdicts |
| HealthReport.Percentage | scripts/device_health_monitor.py:139 | the percentage is 0 for no devices; otherwise it times the total equals 100 times the healthy count; it lies in 0..100 and is 100 or 0 exactly when all or none are healthy |
| HealthReport.Summarize | scripts/device_health_monitor.py:137-144 | the total is the device count; the healthy and attention counts are the group sizes and add up to the total; the healthy count equals the total (is 0) exactly when every (no) verdict is healthy |
| HealthReport.StatusLabel | scripts/device_health_monitor.py:155 | the label is "✓ Active" exactly when `active` is truthy, and "✗ Inactive" otherwise |
| HealthReport.BuildReport | scripts/device_health_monitor.py:128-171 | the table has one row per healthy verdict and the listing one entry per unhealthy verdict, each in input order; the summary counts match the group sizes |
| HealthReport.ReportEntries | scripts/device_health_monitor.py:147-171 | every table row comes from a healthy input verdict, with the label matching its flag; every listing comes from an unhealthy input verdict and carries its issues in order |
| HealthReport.AlertCount | scripts/device_health_monitor.py:182-190 | no alert for an empty list; otherwise the alert names the number of unhealthy devices |
| HealthReport.Normalize | scripts/device_health_monitor.py:51-53 | a dict response gives its `results` value, or an empty list when `results` is absent; a list is kept as it is; anything else gives an empty list |
| HealthReport.NormalizeRoundTrip | scripts/device_health_monitor.py:51-53 | wrapping a device list in `{"results": ...}` and normalising gives the list back |
| HealthReport.EvaluateAll | scripts/device_health_monitor.py:208-211 | iteration fails exactly for values that cannot be iterated; a list yields one verdict per item, in order; a string or dict yields one verdict per character or key, each exactly the "Invalid device data format" verdict; every verdict is healthy exactly when it has no issues |
| HealthReport.EvaluateTexts | scripts/device_health_monitor.py:208-211 | evaluating the characters of a string or the keys of a dict gives one verdict per element, each the "Invalid device data format" verdict |
| HealthReport.Monitor | scripts/device_health_monitor.py:197-221 | no report exactly when the normalised list is falsy; a crash exactly when it is a truthy number or boolean; a completed run's report is the report of the verdicts of every device of the normalised response; it raises an alert exactly when some device needs attention, naming that many devices |
| HealthReport.AttentionHasIssues | scripts/device_health_monitor.py:164-171 | every device listed under attention in a completed run has at least one issue |
| Scenarios.StaleByThirtyHours | scripts/device_health_monitor.py:87-91 | a device last seen 30 hours 54 minutes ago is reported as 30 hours without contact |
| Scenarios.ThirtyHoursText | scripts/device_health_monitor.py:91 | that issue reads "No contact for 30 hours" |
| Scenarios.TwoOfThree | scripts/device_health_monitor.py:139 | two healthy devices out of three give a percentage between 66.6 and 66.7 |
| Scenarios.DeviceBIssues | scripts/device_health_monitor.py:82-109 | an inactive device with OS "Unknown", no agent version and no contact gets all four messages, contact first |
| Scenarios.DeviceBVerdict | scripts/device_health_monitor.py:111-120 | that device is unhealthy, listed under its hostname, with four issues |
| Scenarios.TwoDeviceRun | scripts/device_health_monitor.py:207-221 | a run over one healthy and one unhealthy device completes with their report and an alert for one device |
| Scenarios.PairReport | scripts/device_health_monitor.py:128-171 | that report counts two devices, one healthy and one needing attention; the table holds the healthy device and the listing the other |
| PolicyCompliance.RowOf | scripts/policy_enforcer.py:74-79 | a policy is readable exactly when it is a dict whose template, if present, is a dict; the name and type fall back to "Unknown" and "Custom" by key presence; the status is "✓ Enabled" exactly when `enabled` is truthy |
| PolicyCompliance.Rows | scripts/policy_enforcer.py:73-79 | the table exists exactly when every policy is readable; it has one row per policy, in order, each the policy's own row |
| PolicyCompliance.CompliantCount | scripts/policy_enforcer.py:89 | the count exists exactly when every result is a dict; it is the number of results whose status is "compliant" and never exceeds the number of results |
| PolicyCompliance.PassedCountsPositions | scripts/policy_enforcer.py:89 | the count equals the number of positions holding a result whose status is exactly "compliant" |
| PolicyCompliance.PositionsStep | scripts/policy_enforcer.py:89 | one more result adds one compliant position exactly when that result's status is "compliant", and none otherwise |
| PolicyCompliance.PassedAll | scripts/policy_enforcer.py:89 | the count equals the number of results exactly when every result's status is "compliant" |
| PolicyCompliance.PassedNone | scripts/policy_enforcer.py:89 | the count is 0 exactly when no result's status is "compliant" |
| PolicyCompliance.PassedConcat | scripts/policy_enforcer.py:89 | the count over two lists joined is the sum of their counts |
| PolicyCompliance.Tally | scripts/policy_enforcer.py:88-90 | a list of results is counted; a truthy number or boolean cannot be iterated; a truthy string or dict yields elements without `.get` |
| PolicyCompliance.Analyze | scripts/policy_enforcer.py:63-91 | nothing is reported exactly when the policies are falsy; the policy count and one row per policy otherwise; a compliance rate appears exactly when the results are truthy, with the total as the number of results; a crash keeps the policy count once `len` succeeded and the policy table once every policy was read, and a number or boolean crashes before anything is printed; the crash kind is pinned on every path: a number or boolean cannot be measured, a string or dict and an unreadable policy in a list cannot be read with `.get`, and after the table the crash is exactly the results tally's error |
| PolicyCompliance.ComplianceRate | scripts/policy_enforcer.py:88-91 | the rate reads "n/n" exactly when every result is compliant, and "0/n" exactly when none is |

## Left out

- The HTTP requests are not modelled. This covers the API key, `.env` loading, headers, the 10-second timeout, `raise_for_status` and the missing-key exit. A failed request returns an empty list, which the model receives as an empty or falsy response.
- Printing is not modelled: the banner, the generation time, emoji, `tabulate` layout, the `.1f` rounding of the percentage and the fixed lines of `send_alerts`. The report and the alert count are modelled as data.
- JSON floating-point numbers are not modelled. Decoded values are null, booleans, integers, strings, lists and dicts.
- `datetime.fromisoformat`, `datetime.now` and time zones are not modelled: the caller supplies the parser and the current time.
- DeviceHealth.ContactIssue: the elapsed time is taken in whole seconds. A fractional second past exactly 24 hours counts as stale in the code but not in the model.
- HealthReport.Percentage: the percentage is an exact real, not a double-precision float. Its rounding to one decimal for printing is left out.
- PyText.Repr: non-ASCII non-printable characters are kept as they are. Python's `repr` escapes them. This only affects an `os` or `version` that is a list or dict containing such strings.
- Duplicate keys in a decoded JSON object are not modelled. A lookup takes the first field with the key; decoded dicts have distinct keys.
- PolicyCompliance.Rows: when several policies cannot be read, the single error does not say which policy failed. Python stops at the first one; the outcome is the same crash.
- PolicyCompliance.CompliantCount: likewise, the single error does not say which result is not a dict.
- The contents of a Python exception message are not modelled, only which kind of error ends the run.
