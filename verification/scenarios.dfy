/**
 * Worked examples of the device health monitor on concrete records: the
 * staleness message for a device last seen 30.9 hours ago, the percentage for
 * two healthy devices out of three, the messages of a device that fails every
 * rule, and a run over one healthy and one unhealthy device.
 */
module Scenarios {
  import opened Wrappers
  import opened Json
  import opened DeviceHealth
  import opened HealthReport
  import Decimal

  lemma ThirtyNumeral()
    ensures Decimal.NatToString(30) == "30"
  {
    assert Decimal.DigitChar(3) == '3';
    assert Decimal.NatToString(3) == "3";
    assert Decimal.DigitChar(0) == '0';
  }

  /**
   * A device last seen 30 hours and 54 minutes (111240 seconds) ago is
   * reported as 30 hours without contact.
   */
  lemma StaleByThirtyHours(ts: string, seen: int, parse: TimestampParser)
    requires |ts| > 0 && parse(ReplaceZ(ts)) == Some(seen)
    ensures ContactIssue([Field("lastContact", Str(ts))], seen + 111240, parse) == Some(NoContactFor(30))
  {
    var d := [Field("lastContact", Str(ts))];
    var now := seen + 111240;
    SingleContactField(ts);
    StaleHours(d, now, parse, seen);
    assert (now - seen) / SecondsPerHour == 30;
  }

  lemma StaleHours(d: seq<Field>, now: int, parse: TimestampParser, seen: int)
    requires !MissingOrFalsy(d, "lastContact") && Get(d, "lastContact").value.Str?
    requires parse(ReplaceZ(Get(d, "lastContact").value.s)) == Some(seen) && now - seen > ContactWindow
    ensures ContactIssue(d, now, parse) == Some(NoContactFor((now - seen) / SecondsPerHour))
  {
  }

  lemma SingleContactField(ts: string)
    requires |ts| > 0
    ensures var d := [Field("lastContact", Str(ts))];
            Get(d, "lastContact") == Some(Str(ts)) && !MissingOrFalsy(d, "lastContact")
  {
    assert Get([Field("lastContact", Str(ts))], "lastContact") == Some(Str(ts));
  }

  /** Thirty hours without contact are reported as "No contact for 30 hours". */
  lemma ThirtyHoursText()
    ensures NoContactFor(30).Text() == "No contact for 30 hours"
  {
    ThirtyNumeral();
  }

  /** Two healthy devices out of three give two thirds of a hundred percent. */
  lemma TwoOfThree()
    ensures Percentage(2, 3) * 3.0 == 200.0
    ensures 66.6 < Percentage(2, 3) < 66.7
  {
  }

  /** Device B: never contacted, inactive, no agent version, OS "Unknown". */
  const DeviceB: Json :=
    Object([Field("hostname", Str("B")), Field("active", Bool(false)), Field("os", Str("Unknown"))])

  /** Device B gets all four messages, the contact message first, as the rules are checked. */
  lemma DeviceBIssues(now: int, parse: TimestampParser)
    ensures Evaluate(DeviceB, now, parse).issues ==
              ["Never contacted JumpCloud", "Device marked inactive", "Agent version unknown",
               "Operating system not detected"]
  {
    GetFindsFirst(DeviceB.fields, "active", 1);
    GetFindsFirst(DeviceB.fields, "os", 2);
    AllRulesFire(DeviceB.fields, now, parse);
  }

  /** Device B's verdict: unhealthy, under its own hostname, with four messages. */
  lemma DeviceBVerdict(now: int, parse: TimestampParser)
    ensures var v := Evaluate(DeviceB, now, parse);
            !v.healthy && v.hostname == Str("B") && |v.issues| == 4
  {
    DeviceBIssues(now, parse);
    GetFindsFirst(DeviceB.fields, "hostname", 0);
  }

  /**
   * A run over a healthy device and an unhealthy one completes with the
   * report of the two verdicts and an alert about one device.
   */
  lemma TwoDeviceRun(a: Json, b: Json, now: int, parse: TimestampParser)
    ensures var va := Evaluate(a, now, parse);
            var vb := Evaluate(b, now, parse);
            va.healthy && !vb.healthy ==> Monitor(List([a, b]), now, parse) == Completed(BuildReport([va, vb]), Some(1))
  {
    var va := Evaluate(a, now, parse);
    var vb := Evaluate(b, now, parse);
    PairRun(a, b, now, parse);
    if va.healthy && !vb.healthy {
      PairReport(va, vb);
    }
  }

  lemma PairRun(a: Json, b: Json, now: int, parse: TimestampParser)
    ensures var vs := [Evaluate(a, now, parse), Evaluate(b, now, parse)];
            Monitor(List([a, b]), now, parse) == Completed(BuildReport(vs), AlertCount(Keep(vs, false)))
  {
    EvaluatePair(a, b, now, parse);
  }

  lemma EvaluatePair(a: Json, b: Json, now: int, parse: TimestampParser)
    ensures EvaluateAll(List([a, b]), now, parse) == Success([Evaluate(a, now, parse), Evaluate(b, now, parse)])
  {
    var verdicts := EvaluateAll(List([a, b]), now, parse).value;
    assert |verdicts| == 2;
    PairOf(verdicts);
  }

  lemma PairOf(s: seq<Verdict>)
    requires |s| == 2
    ensures s == [s[0], s[1]]
  {
  }

  /**
   * The report of one healthy and one unhealthy verdict: two devices, one
   * healthy, the first in the healthy table and the second under attention.
   */
  lemma PairReport(va: Verdict, vb: Verdict)
    requires va.healthy && !vb.healthy
    ensures var r := BuildReport([va, vb]);
            && r.summary.total == 2 && r.summary.healthy == 1 && r.summary.needAttention == 1
            && r.healthyTable == [RowOf(va)] && r.attention == [EntryOf(vb)]
    ensures Keep([va, vb], false) == [vb]
  {
    assert Keep([va, vb], true) == [va];
    assert Keep([va, vb], false) == [vb];
  }
}
