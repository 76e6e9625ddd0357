/**
 * The per-device health evaluator of the device health monitor
 * (`check_device_health`): four independent rules, each adding at most one
 * issue in a fixed order, and a verdict that is healthy exactly when no rule
 * fired.
 *
 * ISO-8601 parsing and the clock are not modelled: the caller supplies `now`
 * and a parser, both in whole seconds on one clock.
 */
module DeviceHealth {
  import opened Wrappers
  import opened Json
  import Decimal
  import PyText

  const SecondsPerHour: nat := 3600
  /** A device is stale once more than this many seconds have passed since its last contact. */
  const ContactWindow: nat := 24 * SecondsPerHour

  /**
   * Stands for `datetime.fromisoformat`: the instant a timestamp text denotes,
   * in seconds, or None when the text does not parse.
   */
  type TimestampParser = string -> Option<int>

  /** One reason a device needs attention. */
  datatype Issue =
    | NeverContacted
    | InvalidTimestamp
    | NoContactFor(hours: nat)
    | Inactive
    | AgentUnknown
    | OsNotDetected
    | InvalidFormat
  {
    /** The message the monitor reports for this issue. */
    function Text(): string {
      match this
      case NeverContacted => "Never contacted JumpCloud"
      case InvalidTimestamp => "Invalid timestamp format"
      case NoContactFor(h) => "No contact for " + Decimal.NatToString(h) + " hours"
      case Inactive => "Device marked inactive"
      case AgentUnknown => "Agent version unknown"
      case OsNotDetected => "Operating system not detected"
      case InvalidFormat => "Invalid device data format"
    }

    /** Which rule raises the issue, in evaluation order: contact, activity, agent, OS. */
    function Rule(): nat {
      match this
      case NeverContacted => 0
      case InvalidTimestamp => 0
      case NoContactFor(_) => 0
      case Inactive => 1
      case AgentUnknown => 2
      case OsNotDetected => 3
      case InvalidFormat => 4
    }
  }

  /** The evaluated health of one device record. */
  datatype Verdict = Verdict(
    hostname: Json,
    id: Json,
    os: string,
    agentVersion: Json,
    lastContact: Json,
    active: Json,
    healthy: bool,
    issues: seq<string>)

  /** The messages of a list of issues, in the same order. */
  function Texts(issues: seq<Issue>): (r: seq<string>)
    ensures |r| == |issues|
    ensures forall i :: 0 <= i < |issues| ==> r[i] == issues[i].Text()
  {
    seq(|issues|, i requires 0 <= i < |issues| => issues[i].Text())
  }

  /** Python `s.replace('Z', '+00:00')`, applied before the timestamp is parsed. */
  function ReplaceZ(s: string): string {
    if |s| == 0 then ""
    else (if s[0] == 'Z' then "+00:00" else [s[0]]) + ReplaceZ(s[1..])
  }

  /** The replacement leaves no 'Z' behind and changes nothing in text without one. */
  lemma {:induction false} ReplaceZNoZ(s: string)
    ensures 'Z' !in ReplaceZ(s)
    ensures 'Z' !in s ==> ReplaceZ(s) == s
  {
    if |s| > 0 {
      ReplaceZNoZ(s[1..]);
      assert s == [s[0]] + s[1..];
    }
  }

  /** The replacement works character by character, so it distributes over concatenation. */
  lemma {:induction false} ReplaceZConcat(a: string, b: string)
    ensures ReplaceZ(a + b) == ReplaceZ(a) + ReplaceZ(b)
  {
    if |a| > 0 {
      assert (a + b)[0] == a[0] && (a + b)[1..] == a[1..] + b;
      ReplaceZConcat(a[1..], b);
    } else {
      assert a + b == b;
    }
  }

  /** A trailing `Z` becomes the UTC offset `+00:00`, the rest of the text staying as it is. */
  lemma TrailingZ(s: string)
    requires 'Z' !in s
    ensures ReplaceZ(s + "Z") == s + "+00:00"
  {
    ReplaceZConcat(s, "Z");
    ReplaceZNoZ(s);
    assert ReplaceZ("Z") == "+00:00" + ReplaceZ("");
  }

  /** True when a record has no `os` field or its `os` is the literal "Unknown". */
  predicate OsMissingOrUnknown(device: seq<Field>) {
    var v := Get(device, "os");
    v.None? || v.value == Str("Unknown")
  }

  /**
   * The contact rule. A missing or falsy `lastContact` means the device never
   * reported; a value that is not a string, or does not parse, is an invalid
   * timestamp; otherwise the device is stale when more than 24 hours have
   * passed, and the whole hours elapsed are reported.
   */
  function ContactIssue(device: seq<Field>, now: int, parse: TimestampParser): (r: Option<Issue>)
    ensures r.Some? ==> r.value.Rule() == 0
    ensures r == Some(NeverContacted) <==> MissingOrFalsy(device, "lastContact")
    ensures var lc := Get(device, "lastContact");
            r == Some(InvalidTimestamp) <==>
              !MissingOrFalsy(device, "lastContact") && (!lc.value.Str? || parse(ReplaceZ(lc.value.s)).None?)
    ensures var lc := Get(device, "lastContact");
            (r.Some? && r.value.NoContactFor?) <==>
              && !MissingOrFalsy(device, "lastContact")
              && lc.value.Str?
              && parse(ReplaceZ(lc.value.s)).Some?
              && now - parse(ReplaceZ(lc.value.s)).value > ContactWindow
    ensures r.Some? && r.value.NoContactFor? ==>
              var elapsed := now - parse(ReplaceZ(Get(device, "lastContact").value.s)).value;
              r.value.hours * SecondsPerHour <= elapsed < (r.value.hours + 1) * SecondsPerHour
  {
    var lc := Get(device, "lastContact");
    if lc.None? || !Truthy(lc.value) then Some(NeverContacted)
    else if !lc.value.Str? then Some(InvalidTimestamp)
    else match parse(ReplaceZ(lc.value.s))
      case None => Some(InvalidTimestamp)
      case Some(seen) =>
        var elapsed := now - seen;
        if elapsed > ContactWindow then Some(NoContactFor(elapsed / SecondsPerHour)) else None
  }

  /** The activity rule: a missing or falsy `active` flag marks the device inactive. */
  function ActivityIssue(device: seq<Field>): (r: Option<Issue>)
    ensures r.Some? <==> MissingOrFalsy(device, "active")
    ensures r.Some? ==> r.value == Inactive
  {
    if !Truthy(GetOr(device, "active", Bool(false))) then Some(Inactive) else None
  }

  /** The agent rule: a missing or falsy `agentVersion` means the agent version is unknown. */
  function AgentIssue(device: seq<Field>): (r: Option<Issue>)
    ensures r.Some? <==> MissingOrFalsy(device, "agentVersion")
    ensures r.Some? ==> r.value == AgentUnknown
  {
    if !Truthy(GetOr(device, "agentVersion", Str(""))) then Some(AgentUnknown) else None
  }

  /**
   * The OS rule: only a missing `os` or the literal "Unknown" counts as not
   * detected; an empty or null `os` passes.
   */
  function OsIssue(device: seq<Field>): (r: Option<Issue>)
    ensures r.Some? <==> OsMissingOrUnknown(device)
    ensures r.Some? ==> r.value == OsNotDetected
  {
    if GetOr(device, "os", Str("Unknown")) == Str("Unknown") then Some(OsNotDetected) else None
  }

  /** `rest` with the issue `o`, if there is one, in front. */
  function Cons(o: Option<Issue>, rest: seq<Issue>): seq<Issue> {
    if o.Some? then [o.value] + rest else rest
  }

  /**
   * The issues the four rules raise for a record, in the order the monitor
   * appends them: contact, activity, agent version, OS.
   */
  function Findings(device: seq<Field>, now: int, parse: TimestampParser): (r: seq<Issue>)
    ensures |r| <= 4
  {
    Cons(ContactIssue(device, now, parse), LaterFindings(device))
  }

  /** Issues listed strictly by rule, so no rule is listed twice. */
  predicate Ranked(issues: seq<Issue>) {
    forall i, j :: 0 <= i < j < |issues| ==> issues[i].Rule() < issues[j].Rule()
  }

  /** Every issue comes from rule `lo` or a later one of the four. */
  predicate RulesFrom(issues: seq<Issue>, lo: nat) {
    forall i :: 0 <= i < |issues| ==> lo <= issues[i].Rule() < 4
  }

  lemma ConsRanked(o: Option<Issue>, rest: seq<Issue>, k: nat)
    requires o.Some? ==> o.value.Rule() == k
    requires Ranked(rest) && RulesFrom(rest, k + 1) && k < 4
    ensures Ranked(Cons(o, rest)) && RulesFrom(Cons(o, rest), k)
  {
  }

  /**
   * The rules fire in order, each at most once; the contact rule's issue, when
   * there is one, heads the list, and no later issue comes from that rule.
   */
  lemma FindingsOrdered(device: seq<Field>, now: int, parse: TimestampParser)
    ensures var r := Findings(device, now, parse);
            && Ranked(r)
            && RulesFrom(r, 0)
            && (ContactIssue(device, now, parse).Some? <==> |r| > 0 && r[0].Rule() == 0)
            && (ContactIssue(device, now, parse).Some? ==> r[0] == ContactIssue(device, now, parse).value)
  {
    var later := LaterFindings(device);
    LaterRules(device);
    ConsRanked(ContactIssue(device, now, parse), later, 0);
  }

  /** The issues of the activity, agent and OS rules, in that order. */
  function LaterFindings(device: seq<Field>): seq<Issue> {
    Cons(ActivityIssue(device), Cons(AgentIssue(device), Cons(OsIssue(device), [])))
  }

  lemma LaterRules(device: seq<Field>)
    ensures Ranked(LaterFindings(device)) && RulesFrom(LaterFindings(device), 1)
  {
    var os := Cons(OsIssue(device), []);
    var agent := Cons(AgentIssue(device), os);
    ConsRanked(OsIssue(device), [], 3);
    ConsRanked(AgentIssue(device), os, 2);
    ConsRanked(ActivityIssue(device), agent, 1);
  }

  /**
   * Which issues a record gets: "never contacted" for a missing or falsy
   * `lastContact`, "inactive" for a missing or falsy `active`, "agent unknown"
   * for a missing or falsy `agentVersion`, "OS not detected" only for a missing
   * `os` or the literal "Unknown", and never the format issue.
   */
  lemma FindingsRules(device: seq<Field>, now: int, parse: TimestampParser)
    ensures var r := Findings(device, now, parse);
            && (InvalidFormat !in r)
            && (NeverContacted in r <==> MissingOrFalsy(device, "lastContact"))
            && (Inactive in r <==> MissingOrFalsy(device, "active"))
            && (AgentUnknown in r <==> MissingOrFalsy(device, "agentVersion"))
            && (OsNotDetected in r <==> OsMissingOrUnknown(device))
  {
    FoundBy(device, now, parse, InvalidFormat);
    FoundBy(device, now, parse, NeverContacted);
    FoundBy(device, now, parse, Inactive);
    FoundBy(device, now, parse, AgentUnknown);
    FoundBy(device, now, parse, OsNotDetected);
  }

  /** An issue is among the findings exactly when one of the four rules raises it. */
  lemma FoundBy(device: seq<Field>, now: int, parse: TimestampParser, x: Issue)
    ensures x in Findings(device, now, parse) <==>
              || ContactIssue(device, now, parse) == Some(x)
              || ActivityIssue(device) == Some(x)
              || AgentIssue(device) == Some(x)
              || OsIssue(device) == Some(x)
  {
    var os := Cons(OsIssue(device), []);
    var agent := Cons(AgentIssue(device), os);
    var activity := LaterFindings(device);
    assert x in activity <==> ActivityIssue(device) == Some(x) || x in agent;
    assert x in agent <==> AgentIssue(device) == Some(x) || x in os;
  }

  /** The verdict for input that is not an object. */
  const InvalidRecordVerdict :=
    Verdict(Str("Unknown"), Str("N/A"), "Unknown", Str("Unknown"), Null, Bool(false), false,
            [InvalidFormat.Text()])

  /**
   * `check_device_health`: the verdict for one record. Display fields fall back
   * by key presence (a present but empty `hostname` is kept); the agent version
   * is shown as "N/A" when falsy; the OS description is `"<os> <version>"` with
   * surrounding whitespace stripped.
   */
  function Evaluate(device: Json, now: int, parse: TimestampParser): (r: Verdict)
    ensures r.healthy <==> r.issues == []
    ensures !device.Object? ==> r.issues == ["Invalid device data format"] && !r.healthy
    ensures !device.Object? ==> r.hostname == Str("Unknown") && r.id == Str("N/A")
    ensures !device.Object? ==> r == InvalidRecordVerdict
    ensures device.Object? ==> r.os == OsDescription(device.fields)
    ensures device.Object? ==> r.issues == Texts(Findings(device.fields, now, parse))
    ensures device.Object? ==>
              var d := device.fields;
              && (Get(d, "hostname").Some? ==> r.hostname == Get(d, "hostname").value)
              && (Get(d, "hostname").None? && Get(d, "displayName").Some? ==> r.hostname == Get(d, "displayName").value)
              && (Get(d, "hostname").None? && Get(d, "displayName").None? ==> r.hostname == Str("Unknown"))
              && (Get(d, "_id").Some? ==> r.id == Get(d, "_id").value)
              && (Get(d, "_id").None? && Get(d, "id").Some? ==> r.id == Get(d, "id").value)
              && (Get(d, "_id").None? && Get(d, "id").None? ==> r.id == Str("N/A"))
              && (MissingOrFalsy(d, "agentVersion") ==> r.agentVersion == Str("N/A"))
              && (!MissingOrFalsy(d, "agentVersion") ==> r.agentVersion == Get(d, "agentVersion").value)
              && (Get(d, "lastContact").None? ==> r.lastContact == Null)
              && (Get(d, "lastContact").Some? ==> r.lastContact == Get(d, "lastContact").value)
              && (Get(d, "active").None? ==> r.active == Bool(false))
              && (Get(d, "active").Some? ==> r.active == Get(d, "active").value)
  {
    match device
    case Object(d) =>
      var issues := Texts(Findings(d, now, parse));
      var agent := GetOr(d, "agentVersion", Str(""));
      Verdict(
        GetOr(d, "hostname", GetOr(d, "displayName", Str("Unknown"))),
        GetOr(d, "_id", GetOr(d, "id", Str("N/A"))),
        OsDescription(d),
        if Truthy(agent) then agent else Str("N/A"),
        GetOr(d, "lastContact", Null),
        GetOr(d, "active", Bool(false)),
        |issues| == 0,
        issues)
    case _ => InvalidRecordVerdict
  }

  /** The `"<os> <version>"` text of a record, stripped; a missing `os` reads "Unknown". */
  function OsDescription(d: seq<Field>): string {
    OsText(GetOr(d, "os", Str("Unknown")), GetOr(d, "version", Str("")))
  }

  /** `f"{os} {version}".strip()` for the two looked-up values. */
  function OsText(os: Json, version: Json): string {
    PyText.Strip(PyText.ToStr(os) + " " + PyText.ToStr(version))
  }

  /**
   * The OS description joins the OS name and version with one blank; without a
   * version it is the name alone, and without either it is "Unknown".
   */
  lemma OsDescriptionParts(d: seq<Field>, name: string, version: string)
    requires PyText.Trimmed(name) && |name| > 0 && PyText.Trimmed(version)
    ensures Get(d, "os") == Some(Str(name)) && Get(d, "version") == Some(Str(version)) && |version| > 0 ==>
              OsDescription(d) == name + " " + version
    ensures Get(d, "os") == Some(Str(name)) && Get(d, "version").None? ==> OsDescription(d) == name
    ensures Get(d, "os").None? && Get(d, "version").None? ==> OsDescription(d) == "Unknown"
  {
    var os, ver := Get(d, "os"), Get(d, "version");
    assert OsDescription(d) == OsText(os.GetOr(Str("Unknown")), ver.GetOr(Str("")));
    if os == Some(Str(name)) && ver == Some(Str(version)) && |version| > 0 {
      JoinedParts(name, version);
    } else if os == Some(Str(name)) && ver.None? {
      NameAlone(name);
    } else if os.None? && ver.None? {
      UnknownAlone();
    }
  }

  lemma JoinedParts(name: string, version: string)
    requires PyText.Trimmed(name) && |name| > 0 && PyText.Trimmed(version) && |version| > 0
    ensures OsText(Str(name), Str(version)) == name + " " + version
  {
    var t := name + " " + version;
    assert t[0] == name[0] && t[|t| - 1] == version[|version| - 1];
    PyText.StripTrimmed(t);
  }

  lemma NameAlone(name: string)
    requires PyText.Trimmed(name)
    ensures OsText(Str(name), Str("")) == name
  {
    assert name + " " + "" == name + " ";
    PyText.StripTrailingBlank(name);
  }

  lemma UnknownAlone()
    ensures OsText(Str("Unknown"), Str("")) == "Unknown"
  {
    assert PyText.Trimmed("Unknown");
    NameAlone("Unknown");
  }

  /** Every staleness message has 'o' as its second letter. */
  lemma NoContactSecondLetter(hours: nat)
    ensures |NoContactFor(hours).Text()| > 1 && NoContactFor(hours).Text()[1] == 'o'
  {
  }

  /** No fixed message has 'o' as its second letter, so none reads like a staleness message. */
  lemma FixedSecondLetter(x: Issue)
    requires !x.NoContactFor?
    ensures |x.Text()| > 1 && x.Text()[1] != 'o'
  {
    match x
    case NeverContacted =>
    case InvalidTimestamp =>
    case Inactive =>
    case AgentUnknown =>
    case OsNotDetected =>
    case InvalidFormat =>
  }

  /** Distinct issues are reported with distinct messages, so the messages identify the issues. */
  lemma IssueTextInjective(a: Issue, b: Issue)
    ensures a.Text() == b.Text() ==> a == b
  {
    if a.Text() == b.Text() {
      if a.NoContactFor? && b.NoContactFor? {
        var da := Decimal.NatToString(a.hours);
        var db := Decimal.NatToString(b.hours);
        assert |da| == |db|;
        assert da == a.Text()[15..15 + |da|];
        assert db == b.Text()[15..15 + |db|];
        Decimal.NatToStringInjective(a.hours, b.hours);
      } else if a.NoContactFor? {
        NoContactSecondLetter(a.hours);
        FixedSecondLetter(b);
      } else if b.NoContactFor? {
        NoContactSecondLetter(b.hours);
        FixedSecondLetter(a);
      }
    }
  }

  /** A message appears among the texts exactly when its issue appears among the issues. */
  lemma TextsMember(issues: seq<Issue>, x: Issue)
    ensures x.Text() in Texts(issues) <==> x in issues
  {
    if x.Text() in Texts(issues) {
      var i :| 0 <= i < |issues| && Texts(issues)[i] == x.Text();
      IssueTextInjective(issues[i], x);
    }
  }

  /** The contact rule is satisfied: a non-empty timestamp string that parses to an instant at most 24 hours ago. */
  predicate RecentContact(device: seq<Field>, now: int, parse: TimestampParser) {
    var lc := Get(device, "lastContact");
    && lc.Some? && lc.value.Str? && |lc.value.s| > 0
    && parse(ReplaceZ(lc.value.s)).Some?
    && now - parse(ReplaceZ(lc.value.s)).value <= ContactWindow
  }

  /**
   * A device is healthy exactly when it is a record that passes all four rules:
   * recent contact, a truthy `active` flag, a truthy `agentVersion`, and an
   * `os` that is present and not "Unknown".
   */
  lemma HealthyIffAllRulesPass(device: Json, now: int, parse: TimestampParser)
    ensures Evaluate(device, now, parse).healthy <==>
              && device.Object?
              && RecentContact(device.fields, now, parse)
              && !MissingOrFalsy(device.fields, "active")
              && !MissingOrFalsy(device.fields, "agentVersion")
              && Get(device.fields, "os").Some? && Get(device.fields, "os").value != Str("Unknown")
  {
    if device.Object? {
      var d := device.fields;
      NoFindings(d, now, parse);
      ContactPasses(d, now, parse);
    }
  }

  /** No issue is found exactly when none of the four rules raises one. */
  lemma NoFindings(device: seq<Field>, now: int, parse: TimestampParser)
    ensures Findings(device, now, parse) == [] <==>
              && ContactIssue(device, now, parse).None?
              && ActivityIssue(device).None?
              && AgentIssue(device).None?
              && OsIssue(device).None?
  {
  }

  /** The contact rule raises nothing exactly when the device made recent contact. */
  lemma ContactPasses(device: seq<Field>, now: int, parse: TimestampParser)
    ensures ContactIssue(device, now, parse).None? <==> RecentContact(device, now, parse)
  {
  }

  /**
   * For a record, each rule's message appears in the verdict exactly when the
   * rule fires, and the format message never appears.
   */
  lemma RecordMessages(d: seq<Field>, now: int, parse: TimestampParser)
    ensures var issues := Evaluate(Object(d), now, parse).issues;
            && (InvalidFormat.Text() !in issues)
            && (NeverContacted.Text() in issues <==> MissingOrFalsy(d, "lastContact"))
            && (Inactive.Text() in issues <==> MissingOrFalsy(d, "active"))
            && (AgentUnknown.Text() in issues <==> MissingOrFalsy(d, "agentVersion"))
            && (OsNotDetected.Text() in issues <==> OsMissingOrUnknown(d))
  {
    var f := Findings(d, now, parse);
    FindingsRules(d, now, parse);
    TextsMember(f, InvalidFormat);
    TextsMember(f, NeverContacted);
    TextsMember(f, Inactive);
    TextsMember(f, AgentUnknown);
    TextsMember(f, OsNotDetected);
  }

  /**
   * When every rule fires, the messages come in the order the rules are
   * checked: the contact message first, then activity, agent and OS.
   */
  lemma AllRulesFire(d: seq<Field>, now: int, parse: TimestampParser)
    requires MissingOrFalsy(d, "lastContact") && MissingOrFalsy(d, "active")
    requires MissingOrFalsy(d, "agentVersion") && OsMissingOrUnknown(d)
    ensures Evaluate(Object(d), now, parse).issues ==
              ["Never contacted JumpCloud", "Device marked inactive", "Agent version unknown",
               "Operating system not detected"]
  {
    var f := [NeverContacted, Inactive, AgentUnknown, OsNotDetected];
    assert Findings(d, now, parse) == f;
    EveryRuleTexts();
  }

  lemma EveryRuleTexts()
    ensures Texts([NeverContacted, Inactive, AgentUnknown, OsNotDetected]) ==
              ["Never contacted JumpCloud", "Device marked inactive", "Agent version unknown",
               "Operating system not detected"]
  {
    var t := Texts([NeverContacted, Inactive, AgentUnknown, OsNotDetected]);
    assert t[0] == "Never contacted JumpCloud" && t[1] == "Device marked inactive";
    assert t[2] == "Agent version unknown" && t[3] == "Operating system not detected";
  }

  /** A verdict reports at most four issues, none of them twice. */
  lemma EvaluateIssuesDistinct(device: Json, now: int, parse: TimestampParser)
    ensures var r := Evaluate(device, now, parse);
            && |r.issues| <= 4
            && forall i, j :: 0 <= i < j < |r.issues| ==> r.issues[i] != r.issues[j]
  {
    if device.Object? {
      var f := Findings(device.fields, now, parse);
      FindingsOrdered(device.fields, now, parse);
      forall i, j | 0 <= i < j < |f| ensures f[i].Text() != f[j].Text() {
        IssueTextInjective(f[i], f[j]);
      }
    }
  }
}
