/**
 * The policy compliance checker (`analyze_compliance`): one table row per
 * policy (its name, the name of its template or "Custom", and whether it is
 * enabled) and, when there are policy results, how many of them are
 * compliant.
 *
 * The two HTTP requests are not modelled: the caller supplies the decoded
 * responses. A failed request yields an empty list, which is falsy.
 */
module PolicyCompliance {
  import opened Wrappers
  import opened Json

  /** Why a run stops with an uncaught Python error. */
  datatype Crash =
    | NoLength     // `len()` of a number or a boolean
    | NotIterable  // `for` over a number or a boolean
    | NoGet        // `.get` on a value that is not a dict

  /** One row of the policy table. */
  datatype PolicyRow = PolicyRow(name: Json, kind: Json, status: string)

  const Enabled := "✓ Enabled"
  const Disabled := "✗ Disabled"

  /**
   * The row of one policy. The policy must be a dict, and so must its
   * `template` when present; a missing template reads as an empty one.
   */
  function RowOf(policy: Json): (r: Result<PolicyRow, Crash>)
    ensures r.Failure? <==>
              !policy.Object? || (Get(policy.fields, "template").Some? && !Get(policy.fields, "template").value.Object?)
    ensures r.Failure? ==> r.error == NoGet
    ensures r.Success? ==>
              var p := policy.fields;
              && (Get(p, "name").Some? ==> r.value.name == Get(p, "name").value)
              && (Get(p, "name").None? ==> r.value.name == Str("Unknown"))
              && (Get(p, "template").None? ==> r.value.kind == Str("Custom"))
              && (Get(p, "template").Some? && Get(Get(p, "template").value.fields, "name").Some? ==>
                    r.value.kind == Get(Get(p, "template").value.fields, "name").value)
              && (Get(p, "template").Some? && Get(Get(p, "template").value.fields, "name").None? ==>
                    r.value.kind == Str("Custom"))
              && (r.value.status == Enabled <==> !MissingOrFalsy(p, "enabled"))
              && (r.value.status == Disabled <==> MissingOrFalsy(p, "enabled"))
  {
    match policy
    case Object(p) =>
      var template := GetOr(p, "template", Object([]));
      if !template.Object? then Failure(NoGet)
      else
        var enabled := Get(p, "enabled");
        Success(PolicyRow(
          GetOr(p, "name", Str("Unknown")),
          GetOr(template.fields, "name", Str("Custom")),
          if enabled.Some? && Truthy(enabled.value) then Enabled else Disabled))
    case _ => Failure(NoGet)
  }

  /** Every policy of the list can be read into a row. */
  predicate AllReadable(policies: seq<Json>) {
    forall i :: 0 <= i < |policies| ==> RowOf(policies[i]).Success?
  }

  /**
   * The rows of a policy list, in order. A policy that cannot be read stops
   * the run; every such failure is the same error.
   */
  function Rows(policies: seq<Json>): (r: Result<seq<PolicyRow>, Crash>)
    ensures r.Success? <==> AllReadable(policies)
    ensures r.Success? ==> |r.value| == |policies|
    ensures r.Success? ==> forall i :: 0 <= i < |policies| ==> Success(r.value[i]) == RowOf(policies[i])
    ensures r.Failure? ==> r.error == NoGet
  {
    if AllReadable(policies) then
      Success(seq(|policies|, i requires 0 <= i < |policies| => RowOf(policies[i]).value))
    else Failure(NoGet)
  }

  /** A policy result reports compliance. */
  predicate Compliant(result: Json)
    requires result.Object?
  {
    Get(result.fields, "status") == Some(Str("compliant"))
  }

  /** Every result is a dict. */
  predicate AllRecords(results: seq<Json>) {
    forall i :: 0 <= i < |results| ==> results[i].Object?
  }

  /** Every result is compliant. */
  predicate AllCompliant(results: seq<Json>)
    requires AllRecords(results)
  {
    forall i :: 0 <= i < |results| ==> Compliant(results[i])
  }

  /** No result is compliant. */
  predicate NoneCompliant(results: seq<Json>)
    requires AllRecords(results)
  {
    forall i :: 0 <= i < |results| ==> !Compliant(results[i])
  }

  /** The number of compliant results among results that are all dicts. */
  function Passed(results: seq<Json>): (n: nat)
    requires AllRecords(results)
    ensures n <= |results|
  {
    if |results| == 0 then 0
    else
      assert AllRecords(results[1..]) by {
        assert forall i :: 1 <= i < |results| ==> results[i] == results[1..][i - 1];
      }
      (if Compliant(results[0]) then 1 else 0) + Passed(results[1..])
  }

  /**
   * The compliant count of the results: each result must be a dict, or the
   * count stops with an error.
   */
  function CompliantCount(results: seq<Json>): (r: Result<nat, Crash>)
    ensures r.Success? <==> AllRecords(results)
    ensures r.Failure? ==> r.error == NoGet
    ensures r.Success? ==> r.value == Passed(results)
    ensures r.Success? ==> r.value <= |results|
  {
    if AllRecords(results) then Success(Passed(results)) else Failure(NoGet)
  }

  /** All results pass exactly when every result is compliant. */
  lemma {:induction false} PassedAll(results: seq<Json>)
    requires AllRecords(results)
    ensures Passed(results) == |results| <==> AllCompliant(results)
  {
    if |results| > 0 {
      assert forall i :: 1 <= i < |results| ==> results[i] == results[1..][i - 1];
      PassedAll(results[1..]);
    }
  }

  /** No result passes exactly when no result is compliant. */
  lemma {:induction false} PassedNone(results: seq<Json>)
    requires AllRecords(results)
    ensures Passed(results) == 0 <==> NoneCompliant(results)
  {
    if |results| > 0 {
      assert forall i :: 1 <= i < |results| ==> results[i] == results[1..][i - 1];
      PassedNone(results[1..]);
    }
  }

  /** Counting the compliant results of two lists together adds their counts. */
  lemma {:induction false} PassedConcat(a: seq<Json>, b: seq<Json>)
    requires AllRecords(a) && AllRecords(b)
    ensures AllRecords(a + b)
    ensures Passed(a + b) == Passed(a) + Passed(b)
  {
    assert AllRecords(a + b) by {
      assert forall i :: 0 <= i < |a + b| ==> (a + b)[i] == if i < |a| then a[i] else b[i - |a|];
    }
    if |a| == 0 {
      assert a + b == b;
    } else {
      TailOfConcat(a, b);
      assert AllRecords(a[1..]) by {
        assert forall i :: 1 <= i < |a| ==> a[i] == a[1..][i - 1];
      }
      PassedConcat(a[1..], b);
    }
  }

  /** The positions of the compliant results: the reference reading of the count. */
  ghost function CompliantPositions(results: seq<Json>): set<int>
    requires AllRecords(results)
  {
    set i | 0 <= i < |results| && Compliant(results[i])
  }

  /** The count is the number of positions holding a result whose status is "compliant". */
  lemma {:induction false} PassedCountsPositions(results: seq<Json>)
    requires AllRecords(results)
    ensures Passed(results) == |CompliantPositions(results)|
  {
    if |results| == 0 {
      assert CompliantPositions(results) == {};
    } else {
      var n := |results| - 1;
      var init, last := results[..n], results[n];
      assert results == init + [last];
      PositionsStep(init, last);
      PassedCountsPositions(init);
      PassedConcat(init, [last]);
      assert Passed([last]) == if Compliant(last) then 1 else 0 by {
        assert [last][1..] == [];
      }
    }
  }

  /** Appending one result adds its position exactly when it is compliant. */
  lemma PositionsStep(init: seq<Json>, last: Json)
    requires AllRecords(init) && last.Object?
    ensures AllRecords(init + [last]) && AllRecords(init)
    ensures |CompliantPositions(init + [last])| == |CompliantPositions(init)| + if Compliant(last) then 1 else 0
  {
    var results, n := init + [last], |init|;
    assert forall i :: 0 <= i < n ==> results[i] == init[i];
    assert results[n] == last;
    var before, after := CompliantPositions(init), CompliantPositions(results);
    assert n !in before;
    assert forall i :: i in after && i != n ==> i in before;
    assert forall i :: i in before ==> i in after;
    if Compliant(last) {
      assert after == before + {n};
    } else {
      assert after == before;
    }
  }

  lemma TailOfConcat(a: seq<Json>, b: seq<Json>)
    requires |a| > 0
    ensures (a + b)[0] == a[0] && (a + b)[1..] == a[1..] + b
  {
  }

  /**
   * The compliance tally of the policy results response: a list of dicts is
   * counted; any other truthy value cannot be walked as a list of dicts.
   */
  function Tally(results: Json): (r: Result<nat, Crash>)
    requires Truthy(results)
    ensures results.List? ==> r == CompliantCount(results.items)
    ensures results.Int? || results.Bool? ==> r == Failure(NotIterable)
    ensures results.Str? || results.Object? ==> r == Failure(NoGet)
  {
    match results
    case List(items) => CompliantCount(items)
    case Str(_) => Failure(NoGet)
    case Object(_) => Failure(NoGet)
    case _ => Failure(NotIterable)
  }

  /** Compliant results out of all results. */
  datatype Compliance = Compliance(passed: nat, total: nat)

  /**
   * How one run of the checker ends. A crash keeps what was printed before it:
   * the policy count once `len` succeeded, and the policy table once every
   * policy was read.
   */
  datatype Outcome =
    | NoPolicies
    | Crashed(crash: Crash, shownCount: Option<nat>, shownRows: Option<seq<PolicyRow>>)
    | Analyzed(policyCount: nat, rows: seq<PolicyRow>, compliance: Option<Compliance>)

  /**
   * `analyze_compliance`: nothing when there are no policies; otherwise the
   * policy count, the policy table, and the compliance rate when there are
   * policy results.
   */
  function Analyze(policies: Json, results: Json): (r: Outcome)
    ensures r.NoPolicies? <==> !Truthy(policies)
    ensures Truthy(policies) && (policies.Int? || policies.Bool?) ==> r == Crashed(NoLength, None, None)
    ensures Truthy(policies) && (policies.Str? || policies.Object?) ==> r == Crashed(NoGet, Len(policies), None)
    ensures r.Crashed? && policies.List? ==>
              && r.shownCount == Some(|policies.items|)
              && (r.shownRows.Some? <==> AllReadable(policies.items))
    ensures r.Crashed? && r.shownRows.Some? ==>
              && policies.List?
              && |r.shownRows.value| == |policies.items|
              && forall i :: 0 <= i < |policies.items| ==> RowOf(policies.items[i]) == Success(r.shownRows.value[i])
    ensures r.Crashed? && policies.List? && r.shownRows.None? ==> r.crash == NoGet
    ensures r.Crashed? && r.shownRows.Some? ==> Truthy(results) && Tally(results) == Failure(r.crash)
    ensures r.Analyzed? ==> policies.List? && r.policyCount == |policies.items| == |r.rows|
    ensures r.Analyzed? ==> forall i :: 0 <= i < |r.rows| ==> RowOf(policies.items[i]) == Success(r.rows[i])
    ensures r.Analyzed? ==> (r.compliance.None? <==> !Truthy(results))
    ensures r.Analyzed? && r.compliance.Some? ==>
              && results.List?
              && r.compliance.value.total == |results.items|
              && Success(r.compliance.value.passed) == CompliantCount(results.items)
              && r.compliance.value.passed <= r.compliance.value.total
    ensures policies.List? && |policies.items| > 0 ==>
              (r.Analyzed? <==>
                 && AllReadable(policies.items)
                 && (Truthy(results) ==> results.List? && AllRecords(results.items)))
  {
    if !Truthy(policies) then NoPolicies
    else if policies.Int? || policies.Bool? then Crashed(NoLength, None, None)
    else if !policies.List? then Crashed(NoGet, Len(policies), None)
    else match Rows(policies.items)
      case Failure(e) => Crashed(e, Some(|policies.items|), None)
      case Success(rows) =>
        if !Truthy(results) then Analyzed(|policies.items|, rows, None)
        else match Tally(results)
          case Failure(e) => Crashed(e, Some(|policies.items|), Some(rows))
          case Success(passed) => Analyzed(|policies.items|, rows, Some(Compliance(passed, Len(results).value)))
  }

  /**
   * The compliance rate reads "n/n" exactly when every result is compliant,
   * and "0/n" exactly when none is.
   */
  lemma ComplianceRate(policies: Json, results: Json)
    ensures var r := Analyze(policies, results);
            r.Analyzed? && r.compliance.Some? ==>
              && AllRecords(results.items)
              && (r.compliance.value.passed == r.compliance.value.total <==> AllCompliant(results.items))
              && (r.compliance.value.passed == 0 <==> NoneCompliant(results.items))
  {
    var r := Analyze(policies, results);
    if r.Analyzed? && r.compliance.Some? {
      PassedAll(results.items);
      PassedNone(results.items);
    }
  }
}
