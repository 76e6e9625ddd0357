/**
 * The device health monitor's pipeline around the evaluator: normalising the
 * API response into a device list (`get_all_devices`), evaluating every
 * device, splitting the verdicts into healthy and unhealthy groups with the
 * summary statistics of `generate_health_report`, and the alert count handed
 * to `send_alerts` from `main`. Printing is not modelled; the report is the
 * data the monitor prints.
 */
module HealthReport {
  import opened Wrappers
  import opened Json
  import opened DeviceHealth

  /** The verdicts whose `healthy` flag equals `healthy`, in input order (a Python list comprehension). */
  function Keep(verdicts: seq<Verdict>, healthy: bool): (r: seq<Verdict>)
    ensures |r| <= |verdicts|
  {
    if |verdicts| == 0 then []
    else (if verdicts[0].healthy == healthy then [verdicts[0]] else []) + Keep(verdicts[1..], healthy)
  }

  /** A verdict is kept exactly when it is one of the input verdicts and has the wanted flag. */
  lemma {:induction false} KeepMembers(verdicts: seq<Verdict>, healthy: bool, v: Verdict)
    ensures v in Keep(verdicts, healthy) <==> v in verdicts && v.healthy == healthy
  {
    if |verdicts| > 0 {
      KeepMembers(verdicts[1..], healthy, v);
      assert verdicts == [verdicts[0]] + verdicts[1..];
    }
  }

  /** Filtering distributes over concatenation, so each group keeps the input order. */
  lemma {:induction false} KeepConcat(a: seq<Verdict>, b: seq<Verdict>, healthy: bool)
    ensures Keep(a + b, healthy) == Keep(a, healthy) + Keep(b, healthy)
  {
    if |a| > 0 {
      assert (a + b)[1..] == a[1..] + b;
      KeepConcat(a[1..], b, healthy);
    } else {
      assert a + b == b;
    }
  }

  /**
   * The healthy and unhealthy groups together hold every verdict exactly once:
   * their sizes add up to the total and their multisets to the input's.
   */
  lemma {:induction false} PartitionComplete(verdicts: seq<Verdict>)
    ensures |Keep(verdicts, true)| + |Keep(verdicts, false)| == |verdicts|
    ensures multiset(Keep(verdicts, true)) + multiset(Keep(verdicts, false)) == multiset(verdicts)
  {
    KeepSplit(verdicts);
    calc {
      |Keep(verdicts, true)| + |Keep(verdicts, false)|;
      |multiset(Keep(verdicts, true))| + |multiset(Keep(verdicts, false))|;
      |multiset(verdicts)|;
    }
  }

  /** The multiset half of the partition, by induction on the list. */
  lemma {:induction false} KeepSplit(verdicts: seq<Verdict>)
    ensures multiset(Keep(verdicts, true)) + multiset(Keep(verdicts, false)) == multiset(verdicts)
  {
    if |verdicts| > 0 {
      var head := verdicts[0];
      var tail := verdicts[1..];
      KeepSplit(tail);
      assert verdicts == [head] + tail;
      assert multiset(verdicts) == multiset{head} + multiset(tail);
      if head.healthy {
        assert Keep(verdicts, true) == [head] + Keep(tail, true);
        assert Keep(verdicts, false) == Keep(tail, false);
      } else {
        assert Keep(verdicts, true) == Keep(tail, true);
        assert Keep(verdicts, false) == [head] + Keep(tail, false);
      }
    }
  }

  /** The summary block of the report. */
  datatype Summary = Summary(total: nat, healthy: nat, percentage: real, needAttention: nat)

  /** `healthy_count / total * 100`, or 0 for an empty device list. */
  function Percentage(healthy: nat, total: nat): (p: real)
    ensures total == 0 ==> p == 0.0
    ensures total > 0 ==> p * (total as real) == (healthy as real) * 100.0
    ensures healthy <= total ==> 0.0 <= p <= 100.0
    ensures healthy <= total && total > 0 ==> (p == 100.0 <==> healthy == total)
    ensures total > 0 ==> (p == 0.0 <==> healthy == 0)
  {
    if total > 0 then (healthy as real) / (total as real) * 100.0 else 0.0
  }

  /** The summary statistics of a list of verdicts. */
  function Summarize(verdicts: seq<Verdict>): (s: Summary)
    ensures s.total == |verdicts|
    ensures s.healthy == |Keep(verdicts, true)| && s.needAttention == |Keep(verdicts, false)|
    ensures s.healthy + s.needAttention == s.total
    ensures s.healthy == s.total <==> forall i :: 0 <= i < |verdicts| ==> verdicts[i].healthy
    ensures s.healthy == 0 <==> forall i :: 0 <= i < |verdicts| ==> !verdicts[i].healthy
    ensures s.percentage == Percentage(s.healthy, s.total)
    ensures 0.0 <= s.percentage <= 100.0
  {
    var healthy := Keep(verdicts, true);
    var unhealthy := Keep(verdicts, false);
    PartitionComplete(verdicts);
    GroupIsWhole(verdicts, true);
    GroupIsWhole(verdicts, false);
    Summary(|verdicts|, |healthy|, Percentage(|healthy|, |verdicts|), |unhealthy|)
  }

  /** A group holds the whole list exactly when every verdict has that group's flag. */
  lemma GroupIsWhole(verdicts: seq<Verdict>, healthy: bool)
    ensures |Keep(verdicts, healthy)| == |verdicts| <==> forall i :: 0 <= i < |verdicts| ==> verdicts[i].healthy == healthy
  {
    PartitionComplete(verdicts);
    var other := Keep(verdicts, !healthy);
    if |Keep(verdicts, healthy)| == |verdicts| {
      forall i | 0 <= i < |verdicts| ensures verdicts[i].healthy == healthy {
        KeepMembers(verdicts, !healthy, verdicts[i]);
      }
    }
    if forall i :: 0 <= i < |verdicts| ==> verdicts[i].healthy == healthy {
      if |other| > 0 {
        KeepMembers(verdicts, !healthy, other[0]);
      }
    }
  }

  /** The status label of a row of the healthy-devices table. */
  function StatusLabel(active: Json): (text: string)
    ensures text == "✓ Active" <==> Truthy(active)
    ensures text == "✗ Inactive" <==> !Truthy(active)
  {
    if Truthy(active) then "✓ Active" else "✗ Inactive"
  }

  /** One row of the healthy-devices table. */
  datatype HealthyRow = HealthyRow(hostname: Json, os: string, agentVersion: Json, status: string)

  /** One entry of the devices-requiring-attention listing. */
  datatype AttentionEntry = AttentionEntry(hostname: Json, os: string, issues: seq<string>)

  /** Everything `generate_health_report` prints, as data. */
  datatype Report = Report(summary: Summary, healthyTable: seq<HealthyRow>, attention: seq<AttentionEntry>)

  /** The healthy-devices table row of a verdict. */
  function RowOf(v: Verdict): HealthyRow {
    HealthyRow(v.hostname, v.os, v.agentVersion, StatusLabel(v.active))
  }

  /** The attention listing of a verdict. */
  function EntryOf(v: Verdict): AttentionEntry {
    AttentionEntry(v.hostname, v.os, v.issues)
  }

  /**
   * The report for a list of verdicts: the summary, one table row per healthy
   * device and one listing per unhealthy device, each group in input order.
   */
  function BuildReport(verdicts: seq<Verdict>): (r: Report)
    ensures r.summary == Summarize(verdicts)
    ensures |r.healthyTable| == r.summary.healthy
    ensures |r.attention| == r.summary.needAttention
    ensures forall i :: 0 <= i < |r.healthyTable| ==> r.healthyTable[i] == RowOf(Keep(verdicts, true)[i])
    ensures forall i :: 0 <= i < |r.attention| ==> r.attention[i] == EntryOf(Keep(verdicts, false)[i])
  {
    Report(Summarize(verdicts), Table(Keep(verdicts, true)), Listing(Keep(verdicts, false)))
  }

  /** The healthy-devices table: one row per verdict, in order. */
  function Table(verdicts: seq<Verdict>): (rows: seq<HealthyRow>)
    ensures |rows| == |verdicts|
    ensures forall i :: 0 <= i < |verdicts| ==> rows[i] == RowOf(verdicts[i])
  {
    seq(|verdicts|, i requires 0 <= i < |verdicts| => RowOf(verdicts[i]))
  }

  /** The attention listing: one entry per verdict, in order. */
  function Listing(verdicts: seq<Verdict>): (entries: seq<AttentionEntry>)
    ensures |entries| == |verdicts|
    ensures forall i :: 0 <= i < |verdicts| ==> entries[i] == EntryOf(verdicts[i])
  {
    seq(|verdicts|, i requires 0 <= i < |verdicts| => EntryOf(verdicts[i]))
  }

  /**
   * Every table row is an input verdict that is healthy, labelled "✓ Active"
   * exactly when its `active` value is truthy; every attention listing is an
   * input verdict that is unhealthy, with that verdict's issues in order.
   */
  lemma ReportEntries(verdicts: seq<Verdict>)
    ensures var r := BuildReport(verdicts);
            && (forall i :: 0 <= i < |r.healthyTable| ==>
                  var v := Keep(verdicts, true)[i];
                  v in verdicts && v.healthy && (r.healthyTable[i].status == "✓ Active" <==> Truthy(v.active)))
            && (forall i :: 0 <= i < |r.attention| ==>
                  var v := Keep(verdicts, false)[i];
                  v in verdicts && !v.healthy && r.attention[i].issues == v.issues)
  {
    var healthy := Keep(verdicts, true);
    var unhealthy := Keep(verdicts, false);
    forall i | 0 <= i < |healthy| ensures healthy[i] in verdicts && healthy[i].healthy {
      KeepMembers(verdicts, true, healthy[i]);
    }
    forall i | 0 <= i < |unhealthy| ensures unhealthy[i] in verdicts && !unhealthy[i].healthy {
      KeepMembers(verdicts, false, unhealthy[i]);
    }
  }

  /**
   * `send_alerts`: nothing for an empty list, otherwise the number of devices
   * that need immediate attention.
   */
  function AlertCount(unhealthy: seq<Verdict>): (r: Option<nat>)
    ensures r.None? <==> |unhealthy| == 0
    ensures r.Some? ==> r.value == |unhealthy|
  {
    if |unhealthy| == 0 then None else Some(|unhealthy|)
  }

  /**
   * The response shapes `get_all_devices` accepts: an object gives its
   * `results` value (an empty list when there is none), a list is returned as
   * it is, anything else gives an empty list. A failed request is the same as
   * an empty list.
   */
  function Normalize(data: Json): (r: Json)
    ensures data.Object? && Get(data.fields, "results").Some? ==> r == Get(data.fields, "results").value
    ensures data.Object? && Get(data.fields, "results").None? ==> r == List([])
    ensures data.List? ==> r == data
    ensures !data.Object? && !data.List? ==> r == List([])
  {
    match data
    case Object(fields) => GetOr(fields, "results", List([]))
    case List(_) => data
    case _ => List([])
  }

  /** Wrapping a device list in a `results` object and normalising gives the list back, as does normalising the list itself. */
  lemma NormalizeRoundTrip(devices: seq<Json>)
    ensures Normalize(Object([Field("results", List(devices))])) == List(devices)
    ensures Normalize(List(devices)) == List(devices)
  {
    assert Keys([Field("results", List(devices))]) == ["results"];
  }

  /** Why a run stops with an uncaught Python error. */
  datatype Crash = NotIterable

  /**
   * `check_device_health` applied to each element of the device collection, as
   * Python's `for device in devices` walks it: a list's items, a string's
   * characters, an object's keys. Any other truthy value cannot be iterated.
   */
  function EvaluateAll(devices: Json, now: int, parse: TimestampParser): (r: Result<seq<Verdict>, Crash>)
    ensures r.Failure? <==> !(devices.List? || devices.Str? || devices.Object?)
    ensures r.Success? ==> Len(devices) == Some(|r.value|)
    ensures devices.List? ==> r.Success? && forall i :: 0 <= i < |devices.items| ==>
              r.value[i] == Evaluate(devices.items[i], now, parse)
    ensures devices.Str? || devices.Object? ==> r.Success? && forall i :: 0 <= i < |r.value| ==>
              r.value[i] == InvalidRecordVerdict
    ensures r.Success? ==> forall i :: 0 <= i < |r.value| ==> (r.value[i].healthy <==> r.value[i].issues == [])
  {
    match devices
    case List(items) =>
      Success(seq(|items|, i requires 0 <= i < |items| => Evaluate(items[i], now, parse)))
    case Str(s) =>
      Success(EvaluateTexts(seq(|s|, i requires 0 <= i < |s| => [s[i]]), now, parse))
    case Object(fields) =>
      Success(EvaluateTexts(seq(|fields|, i requires 0 <= i < |fields| => fields[i].key), now, parse))
    case _ => Failure(NotIterable)
  }

  /** Iterating a string yields its characters and iterating a dict its keys: each is a string, never a record. */
  function EvaluateTexts(texts: seq<string>, now: int, parse: TimestampParser): (r: seq<Verdict>)
    ensures |r| == |texts|
    ensures forall i :: 0 <= i < |r| ==> r[i] == InvalidRecordVerdict
  {
    seq(|texts|, i requires 0 <= i < |texts| => Evaluate(Str(texts[i]), now, parse))
  }

  /** How one run of the monitor ends. */
  datatype Run =
    | NoDevices
    | Crashed(crash: Crash)
    | Completed(report: Report, alert: Option<nat>)

  /**
   * `main`: no report when the device list is empty (or the fetch failed);
   * otherwise the report of every device's verdict and, when some device is
   * unhealthy, an alert for that many devices.
   */
  function Monitor(response: Json, now: int, parse: TimestampParser): (r: Run)
    ensures r.NoDevices? <==> !Truthy(Normalize(response))
    ensures r.Crashed? <==> Truthy(Normalize(response)) && (Normalize(response).Int? || Normalize(response).Bool?)
    ensures r.Completed? ==>
              && EvaluateAll(Normalize(response), now, parse).Success?
              && r.report == BuildReport(EvaluateAll(Normalize(response), now, parse).value)
    ensures r.Completed? ==> r.report.summary.total > 0
    ensures r.Completed? ==> (r.alert.None? <==> r.report.summary.needAttention == 0)
    ensures r.Completed? && r.alert.Some? ==> r.alert.value == r.report.summary.needAttention
    ensures response.List? ==> (r.Completed? <==> |response.items| > 0)
    ensures response.List? && r.Completed? ==> r.report.summary.total == |response.items|
  {
    var devices := Normalize(response);
    if !Truthy(devices) then NoDevices
    else match EvaluateAll(devices, now, parse)
      case Failure(crash) => Crashed(crash)
      case Success(verdicts) =>
        var report := BuildReport(verdicts);
        var unhealthy := Keep(verdicts, false);
        PartitionComplete(verdicts);
        Completed(report, AlertCount(unhealthy))
  }

  /** Every device listed under attention in a completed run has at least one message. */
  lemma AttentionHasIssues(response: Json, now: int, parse: TimestampParser)
    ensures var r := Monitor(response, now, parse);
            r.Completed? ==> forall i :: 0 <= i < |r.report.attention| ==> |r.report.attention[i].issues| > 0
  {
    var r := Monitor(response, now, parse);
    if r.Completed? {
      var verdicts := EvaluateAll(Normalize(response), now, parse).value;
      var unhealthy := Keep(verdicts, false);
      forall i | 0 <= i < |r.report.attention| ensures |r.report.attention[i].issues| > 0 {
        KeepMembers(verdicts, false, unhealthy[i]);
      }
    }
  }
}
