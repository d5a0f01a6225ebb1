// internal/controller/dependencies.go and checkDependencies of
// internal/controller/trainer_controller.go.
module Dependencies {
  import opened Outcome
  import opened Sequences
  import opened Unstructured
  import Strings = Text

  // --- Health of the JobSetOperator ---

  // isJobSetOperatorConditionDegraded
  predicate IsConditionDegraded(condType: string, condStatus: string) {
    match condType
    case "Degraded" => condStatus == "True"
    case "TargetConfigControllerDegraded" => condStatus == "True"
    case "JobSetOperatorStaticResourcesDegraded" => condStatus == "True"
    case "Available" => condStatus == "False"
    case _ => false
  }

  function TextAt(fields: Fields, key: string): string {
    match NestedString(fields, [key]) case Present(text) => text case _ => ""
  }

  // The complaint about one list entry, if there is one. Entries that are not objects are skipped.
  function Complaint(condition: Value): Option<string> {
    if !condition.Object? then None
    else
      var condType := NestedString(condition.fields, ["type"]);
      var condStatus := NestedString(condition.fields, ["status"]);
      if !condType.Present? || !condStatus.Present? then Some("malformed condition (missing type or status)")
      else if IsConditionDegraded(condType.value, condStatus.value) then
        var reason, message := TextAt(condition.fields, "reason"), TextAt(condition.fields, "message");
        Some(condType.value + "=" + condStatus.value
             + (if reason != "" then " (" + reason + ")" else "")
             + (if message != "" then ": " + message else ""))
      else None
  }

  function Complaints(conditions: seq<Value>): seq<string> {
    if conditions == [] then []
    else
      Complaints(conditions[..|conditions| - 1]) +
      match Complaint(conditions[|conditions| - 1]) case Some(text) => [text] case None => []
  }

  // strings.Join with "; "
  function JoinComplaints(complaints: seq<string>): string {
    if complaints == [] then ""
    else if |complaints| == 1 then complaints[0]
    else complaints[0] + "; " + JoinComplaints(complaints[1..])
  }

  // The conditions of the operator's custom resource; an error or an empty list has none.
  function ConditionsOf(cr: Result<Fields>): seq<Value> {
    match cr
    case Failure(_) => []
    case Success(fields) => match Nested(fields, ["status", "conditions"]) case Present(List(list)) => list case _ => []
  }

  predicate Healthy(conditions: seq<Value>) {
    conditions != [] && Complaints(conditions) == []
  }

  method CheckJobSetOperatorHealth(cr: Result<Fields>) returns (healthy: bool, err: Option<string>)
    ensures healthy <==> Healthy(ConditionsOf(cr))
    ensures healthy <==> err.None?
    ensures !healthy && ConditionsOf(cr) != [] ==>
      err == Some("JobSetOperator " + GetName(cr.value) + ": " + JoinComplaints(Complaints(ConditionsOf(cr))))
  {
    if cr.Failure? {
      return false, Some("failed to fetch JobSetOperator CR for health check");
    }
    var conditions := Nested(cr.value, ["status", "conditions"]);
    if conditions.Invalid? || (conditions.Present? && !conditions.value.List?) {
      return false, Some("failed to read JobSetOperator CR status conditions");
    }
    if conditions.Absent? || conditions.value.elements == [] {
      return false, Some("JobSetOperator CR has no status conditions");
    }
    var list := conditions.value.elements;
    var degraded: seq<string> := [];
    for i := 0 to |list|
      invariant degraded == Complaints(list[..i])
    {
      assert list[..i + 1][..i] == list[..i];
      if !list[i].Object? {
        continue;
      }
      var cond := list[i].fields;
      var condType := NestedString(cond, ["type"]);
      var condStatus := NestedString(cond, ["status"]);
      if !condType.Present? || !condStatus.Present? {
        degraded := degraded + ["malformed condition (missing type or status)"];
        continue;
      }
      if IsConditionDegraded(condType.value, condStatus.value) {
        var reason := TextAt(cond, "reason");
        var message := TextAt(cond, "message");
        var entry := condType.value + "=" + condStatus.value;
        entry := entry + if reason != "" then " (" + reason + ")" else "";
        entry := entry + if message != "" then ": " + message else "";
        degraded := degraded + [entry];
      }
    }
    assert list[..|list|] == list;
    if |degraded| > 0 {
      return false, Some("JobSetOperator " + GetName(cr.value) + ": " + JoinComplaints(degraded));
    }
    return true, None;
  }

  // The entry has these texts for its type and its status.
  ghost predicate Says(condition: Value, condType: string, condStatus: string) {
    && condition.Object?
    && Nested(condition.fields, ["type"]) == Present(Text(condType))
    && Nested(condition.fields, ["status"]) == Present(Text(condStatus))
  }

  // An entry that speaks against the operator: an object without both texts, or one of these.
  ghost predicate Bad(condition: Value) {
    && condition.Object?
    && ((forall condType, condStatus :: !Says(condition, condType, condStatus))
        || Says(condition, "Degraded", "True")
        || Says(condition, "TargetConfigControllerDegraded", "True")
        || Says(condition, "JobSetOperatorStaticResourcesDegraded", "True")
        || Says(condition, "Available", "False"))
  }

  lemma ComplaintIff(condition: Value)
    ensures Complaint(condition).Some? <==> Bad(condition)
  {
    if condition.Object? {
      var condType := NestedString(condition.fields, ["type"]);
      var condStatus := NestedString(condition.fields, ["status"]);
      var a := if condType.Present? then condType.value else "";
      var b := if condStatus.Present? then condStatus.value else "";
      forall t, s
        ensures Says(condition, t, s) <==> condType == Present(t) && condStatus == Present(s)
      {
        TypedNested(condition.fields, ["type"], t, map[]);
        TypedNested(condition.fields, ["status"], s, map[]);
      }
      if condType.Present? && condStatus.Present? {
        assert Says(condition, a, b);
      }
    }
  }

  // The operator is healthy exactly when it has conditions and none of them is bad.
  lemma {:induction false} HealthyIff(conditions: seq<Value>)
    ensures Complaints(conditions) == [] <==> forall c <- conditions :: !Bad(c)
    ensures Healthy(conditions) <==> conditions != [] && forall c <- conditions :: !Bad(c)
  {
    if conditions != [] {
      var init, last := conditions[..|conditions| - 1], conditions[|conditions| - 1];
      HealthyIff(init);
      assert conditions == init + [last];
      Snoc(init, last);
      ComplaintIff(last);
    }
  }

  // The custom resource can be read and lists conditions, of which none is bad.
  ghost predicate Sound(cr: Result<Fields>) {
    && cr.Success?
    && exists list ::
         && Nested(cr.value, ["status", "conditions"]) == Present(List(list))
         && list != [] && forall c <- list :: !Bad(c)
  }

  lemma SoundIff(cr: Result<Fields>)
    ensures Healthy(ConditionsOf(cr)) <==> Sound(cr)
  {
    HealthyIff(ConditionsOf(cr));
    if Healthy(ConditionsOf(cr)) {
      assert Nested(cr.value, ["status", "conditions"]) == Present(List(ConditionsOf(cr)));
    }
  }

  // What is said of a bad entry: its type and status, its reason and its message, as far as it has them.
  lemma ComplaintText(condition: Value, condType: string, condStatus: string, reason: string, message: string)
    requires Bad(condition) && Says(condition, condType, condStatus)
    requires Nested(condition.fields, ["reason"]) == Present(Text(reason)) && reason != ""
    requires Nested(condition.fields, ["message"]) == Present(Text(message)) && message != ""
    ensures Complaint(condition) == Some(condType + "=" + condStatus + (" (" + reason + ")") + (": " + message))
  {
    ComplaintIff(condition);
  }

  // The complaints come in the order of the conditions, with "; " between them.
  lemma ComplaintsJoined(conditions: seq<Value>, more: seq<Value>)
    ensures Complaints(conditions + more) == Complaints(conditions) + Complaints(more)
    ensures Complaints(conditions) != [] && Complaints(more) != [] ==>
      JoinComplaints(Complaints(conditions + more)) ==
      JoinComplaints(Complaints(conditions)) + "; " + JoinComplaints(Complaints(more))
  {
    ComplaintsConcat(conditions, more);
    if Complaints(conditions) != [] && Complaints(more) != [] {
      JoinConcat(Complaints(conditions), Complaints(more));
    }
  }

  lemma {:induction false} ComplaintsConcat(conditions: seq<Value>, more: seq<Value>)
    ensures Complaints(conditions + more) == Complaints(conditions) + Complaints(more)
    decreases |more|
  {
    if more == [] {
      assert conditions + more == conditions;
    } else {
      assert (conditions + more)[..|conditions + more| - 1] == conditions + more[..|more| - 1];
      ComplaintsConcat(conditions, more[..|more| - 1]);
    }
  }

  lemma {:induction false} JoinConcat(a: seq<string>, b: seq<string>)
    requires a != [] && b != []
    ensures JoinComplaints(a + b) == JoinComplaints(a) + "; " + JoinComplaints(b)
  {
    if |a| == 1 {
      assert (a + b)[1..] == b;
    } else {
      assert (a + b)[1..] == a[1..] + b;
      JoinConcat(a[1..], b);
    }
  }

  // The order of the conditions does not matter.
  lemma HealthyPermuted(a: seq<Value>, b: seq<Value>)
    requires multiset(a) == multiset(b)
    ensures Healthy(a) <==> Healthy(b)
  {
    HealthyIff(a);
    HealthyIff(b);
    assert |a| == |multiset(a)| == |multiset(b)| == |b|;
    assert forall c :: c in a <==> c in multiset(a);
    assert forall c :: c in b <==> c in multiset(b);
  }

  // More conditions never heal an operator that some condition speaks against; only a list
  // that was empty can become healthy.
  lemma HealthyMonotone(a: seq<Value>, extra: Value, i: nat)
    requires i <= |a| && Healthy(a[..i] + [extra] + a[i..])
    ensures a == [] || Healthy(a)
  {
    var more := a[..i] + [extra] + a[i..];
    HealthyIff(a);
    HealthyIff(more);
    forall c | c in a
      ensures c in more
    {
      var j :| 0 <= j < |a| && a[j] == c;
      assert more[if j < i then j else j + 1] == c;
    }
  }

  // --- checkDependencies ---

  datatype ClusterType = OpenShift | Kubernetes

  // What the cluster answers to the queries of one check.
  datatype Facts = Facts(
    clusterType: Result<ClusterType>,
    operatorInstalled: bool,
    operatorCR: bool,
    healthCR: Result<Fields>,
    jobSetCRD: bool)

  // The Degraded condition of the Trainer.
  datatype Degraded = Unknown | True(reason: string) | False(reason: string)

  // The conditions of a reconciliation request.
  class Conditions {
    var degraded: Degraded

    constructor (degraded: Degraded)
      ensures this.degraded == degraded
    {
      this.degraded := degraded;
    }

    method MarkTrue(reason: string)
      modifies this
      ensures degraded == True(reason)
    {
      degraded := True(reason);
    }

    method MarkFalse(reason: string)
      modifies this
      ensures degraded == False(reason)
    {
      degraded := False(reason);
    }
  }

  ghost predicate DependenciesMet(facts: Facts) {
    && facts.clusterType.Success?
    && facts.jobSetCRD
    && (facts.clusterType.value.OpenShift? ==>
          facts.operatorInstalled && facts.operatorCR && Healthy(ConditionsOf(facts.healthCR)))
  }

  // The dependencies are met exactly if the cluster type can be told, the JobSet CRD is there, and
  // on OpenShift the operator is installed and sound.
  lemma MetIff(facts: Facts)
    ensures DependenciesMet(facts) <==>
      match facts
      case Facts(Failure(_), _, _, _, _) => false
      case Facts(Success(OpenShift), installed, cr, health, crd) => installed && cr && Sound(health) && crd
      case Facts(Success(Kubernetes), _, _, _, crd) => crd
  {
    SoundIff(facts.healthCR);
  }

  // On success Degraded is False; on an error it is True, with the first check that failed.
  method CheckDependencies(conditions: Conditions, facts: Facts) returns (ok: bool)
    modifies conditions
    ensures ok <==> DependenciesMet(facts)
    ensures ok ==> conditions.degraded == False("DependenciesAvailable")
    ensures !ok ==> conditions.degraded == True(
      if facts.clusterType.Failure? then "ClusterDetectionFailed"
      else if facts.clusterType.value.Kubernetes? then "JobSetCRDNotFound"
      else if !facts.operatorInstalled then "JobSetOperatorNotInstalled"
      else if !facts.operatorCR then "JobSetOperatorCRNotFound"
      else if !Healthy(ConditionsOf(facts.healthCR)) then "JobSetOperatorDegraded"
      else "JobSetCRDNotFound")
  {
    if facts.clusterType.Failure? {
      conditions.MarkTrue("ClusterDetectionFailed");
      return false;
    }
    if facts.clusterType.value == OpenShift {
      if !facts.operatorInstalled {
        conditions.MarkTrue("JobSetOperatorNotInstalled");
        return false;
      }
      if !facts.operatorCR {
        conditions.MarkTrue("JobSetOperatorCRNotFound");
        return false;
      }
      var healthy, err := CheckJobSetOperatorHealth(facts.healthCR);
      if err.Some? {
        conditions.MarkTrue("JobSetOperatorDegraded");
        return false;
      }
      if !facts.jobSetCRD {
        conditions.MarkTrue("JobSetCRDNotFound");
        return false;
      }
    } else if !facts.jobSetCRD {
      conditions.MarkTrue("JobSetCRDNotFound");
      return false;
    }
    conditions.MarkFalse("DependenciesAvailable");
    return true;
  }
}
