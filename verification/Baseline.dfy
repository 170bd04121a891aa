/**
  The two gates over a service snapshot: the acceptance inside the Python verifier, which
  produces the baseline report, and the jq filter that compares a later snapshot with it.
*/
module Baseline {
  import opened Common
  import opened Json
  import LockNames
  import opened Names

  /** Why the verifier refuses: the state cannot be read, or it is read and not settled. */
  datatype Refusal = Undetermined | Unsettled

  /** The `previous_*` fields of the verifier's report. */
  datatype Report = Report(task: string, count: int, running: int, pending: int, deployment: string)
  {
    predicate Live() { count > 0 || running > 0 || pending > 0 }
  }

  // ---------------------------------------------------------------- the verifier

  /** Indexing with a string key; a missing key and a non-object are both caught. */
  function Field(v: Json, key: string): Result<Json, Refusal> {
    if v.Obj? && key in v.fields then Ok(v.fields[key]) else Err(Undetermined)
  }

  /** A field that must equal a string for the deployment to count as settled. */
  function Text(v: Json, key: string, expected: string): Result<(), Refusal> {
    var found :- Field(v, key);
    Need(found == Str(expected), Unsettled)
  }

  /** A field that must be an integer literal of the given value. */
  function Number(v: Json, key: string, expected: int): Result<(), Refusal> {
    var found :- Field(v, key);
    Need(found == Int(expected), Unsettled)
  }

  function ReadService(service: Json): Result<Report, Refusal> {
    var status :- Field(service, "status");
    var _ :- Need(status == Str("ACTIVE"), Undetermined);
    var count :- Field(service, "desiredCount");
    var running :- Field(service, "runningCount");
    var pending :- Field(service, "pendingCount");
    var task :- Field(service, "taskDefinition");
    var _ :- Need(count.Int? && running.Int? && pending.Int? && task.Str?, Undetermined);
    var _ :- Need(count.i >= 0 && running.i >= 0 && pending.i >= 0 && TaskArn(task.text), Undetermined);
    Ok(Report(task.text, count.i, running.i, pending.i, ""))
  }

  function ReadDeployment(deployment: Json, service: Report): Result<string, Refusal> {
    var id :- Field(deployment, "id");
    var _ :- Need(id.Str? && id.text != "", Unsettled);
    var _ :- Text(deployment, "status", "PRIMARY");
    var _ :- Text(deployment, "taskDefinition", service.task);
    var _ :- Text(deployment, "rolloutState", "COMPLETED");
    var _ :- Need(service.running == service.count && service.pending == 0, Unsettled);
    var _ :- Number(deployment, "desiredCount", service.count);
    var _ :- Number(deployment, "runningCount", service.running);
    var _ :- Number(deployment, "pendingCount", service.pending);
    Ok(id.text)
  }

  /** The snapshot checks of `verify_deployment`. */
  function Snapshot(response: Json): Result<Report, Refusal> {
    var failures :- Field(response, "failures");
    var services :- Field(response, "services");
    var _ :- Need(failures == Arr([]) && services.Arr? && |services.items| == 1, Undetermined);
    var service := services.items[0];
    var report :- ReadService(service);
    var deployments :- Field(service, "deployments");
    var _ :- Need(deployments.Arr? && |deployments.items| == 1, Unsettled);
    var id :- ReadDeployment(deployments.items[0], report);
    Ok(report.(deployment := id))
  }

  // ---------------------------------------------------------------- the jq filter

  function Service(response: Json): Option<Json> { First(Get(Some(response), "services")) }

  function Deployments(response: Json): Option<Json> { Get(Service(response), "deployments") }

  function Of(response: Json, key: string): Option<Json> { Get(Service(response), key) }

  function OfDeployment(response: Json, key: string): Option<Json> { Get(First(Deployments(response)), key) }

  function ServiceMatches(b: Report, s: Json): Option<bool> {
    And(Equals(Get(Some(s), "failures"), Arr([])),
    And(Equals(Length(Get(Some(s), "services")), Int(1)),
    And(Equals(Of(s, "status"), Str("ACTIVE")),
    And(Equals(Of(s, "taskDefinition"), Str(b.task)),
    And(Equals(Of(s, "desiredCount"), Int(b.count)),
    And(Equals(Of(s, "runningCount"), Int(b.running)),
    And(Equals(Of(s, "pendingCount"), Int(b.pending)),
    And(match Of(s, "desiredCount") case Some(n) => Equals(Of(s, "runningCount"), n) case None => None,
        Equals(Of(s, "pendingCount"), Int(0))))))))))
  }

  function DeploymentMatches(b: Report, s: Json): Option<bool> {
    And(Equals(Length(Deployments(s)), Int(1)),
    And(Equals(OfDeployment(s, "id"), Str(b.deployment)),
    And(Equals(OfDeployment(s, "status"), Str("PRIMARY")),
    And(Equals(OfDeployment(s, "taskDefinition"), Str(b.task)),
    And(Equals(OfDeployment(s, "rolloutState"), Str("COMPLETED")),
    And(Equals(OfDeployment(s, "desiredCount"), Int(b.count)),
    And(Equals(OfDeployment(s, "runningCount"), Int(b.running)),
        Equals(OfDeployment(s, "pendingCount"), Int(0)))))))))
  }

  /** `jq -e` succeeds: the filter neither fails nor yields false. */
  predicate Accepts(b: Report, s: Json) {
    And(ServiceMatches(b, s), DeploymentMatches(b, s)) == Some(true)
  }

  // ---------------------------------------------------------------- agreement

  /** What every report of the verifier satisfies. */
  predicate Settled(b: Report) {
    TaskArn(b.task) && b.count >= 0 && b.running == b.count && b.pending == 0 && b.deployment != ""
  }

  /** The object `v` holds `expected` under `key`, numbers compared by value. */
  predicate Holds(v: Json, key: string, expected: Json) {
    v.Obj? && key in v.fields && Same(v.fields[key], expected)
  }

  /** The object `v` holds an array of exactly one object under `key`. */
  predicate HoldsOne(v: Json, key: string) {
    && v.Obj? && key in v.fields && v.fields[key].Arr?
    && |v.fields[key].items| == 1 && v.fields[key].items[0].Obj?
  }

  predicate DescribesService(v: Json, b: Report) {
    && Holds(v, "status", Str("ACTIVE")) && Holds(v, "taskDefinition", Str(b.task))
    && Holds(v, "desiredCount", Int(b.count)) && Holds(v, "runningCount", Int(b.count)) && Holds(v, "pendingCount", Int(0))
  }

  predicate DescribesDeployment(v: Json, b: Report) {
    && Holds(v, "id", Str(b.deployment)) && Holds(v, "status", Str("PRIMARY"))
    && Holds(v, "taskDefinition", Str(b.task)) && Holds(v, "rolloutState", Str("COMPLETED"))
    && Holds(v, "desiredCount", Int(b.count)) && Holds(v, "runningCount", Int(b.count)) && Holds(v, "pendingCount", Int(0))
  }

  /**
    What both gates look for: no lookup failure, one active service, and in it one completed
    primary deployment of the same task definition with the same settled counts.
  */
  predicate Describes(s: Json, b: Report) {
    && Holds(s, "failures", Arr([])) && HoldsOne(s, "services")
    && var service := s.fields["services"].items[0];
       DescribesService(service, b) && HoldsOne(service, "deployments")
       && DescribesDeployment(service.fields["deployments"].items[0], b)
  }

  predicate WholeAt(v: Json, key: string) {
    v.Obj? && key in v.fields ==> !v.fields[key].Real?
  }

  predicate Whole(v: Json) {
    WholeAt(v, "desiredCount") && WholeAt(v, "runningCount") && WholeAt(v, "pendingCount")
  }

  /** The six counts of a snapshot are spelled as integers. */
  predicate WholeCounts(s: Json) {
    HoldsOne(s, "services") ==>
      var service := s.fields["services"].items[0];
      Whole(service) && (HoldsOne(service, "deployments") ==> Whole(service.fields["deployments"].items[0]))
  }

  lemma ReportsAreSettled(s: Json)
    requires Snapshot(s).Ok?
    ensures Settled(Snapshot(s).value)
  {
  }

  lemma RecheckService(b: Report, s: Json)
    requires Settled(b)
    ensures ServiceMatches(b, s) == Some(true) <==>
      && Holds(s, "failures", Arr([])) && s.Obj? && "services" in s.fields && s.fields["services"].Arr?
      && |s.fields["services"].items| == 1 && DescribesService(s.fields["services"].items[0], b)
  {
  }

  lemma RecheckDeployment(b: Report, s: Json, service: Json)
    requires Settled(b) && service.Obj? && Service(s) == Some(service)
    ensures DeploymentMatches(b, s) == Some(true) <==>
      HoldsOne(service, "deployments") && DescribesDeployment(service.fields["deployments"].items[0], b)
  {
  }

  /** The filter's chain of comparisons, with all its null and error cases, comes to that description. */
  lemma RecheckMeans(b: Report, s: Json)
    requires Settled(b)
    ensures Accepts(b, s) <==> Describes(s, b)
  {
    RecheckService(b, s);
    if HoldsOne(s, "services") {
      RecheckDeployment(b, s, s.fields["services"].items[0]);
    }
  }

  lemma TextMeans(v: Json, key: string, text: string)
    ensures Holds(v, key, Str(text)) <==> Field(v, key) == Ok(Str(text))
  {
  }

  lemma NumberMeans(v: Json, key: string, n: int)
    ensures Holds(v, key, Int(n)) && WholeAt(v, key) <==> Field(v, key) == Ok(Int(n))
  {
  }

  lemma ServiceMeans(v: Json, r: Report)
    requires r.deployment == "" && TaskArn(r.task) && r.count >= 0 && r.running == r.count && r.pending == 0
    ensures ReadService(v) == Ok(r) <==> DescribesService(v, r) && Whole(v)
  {
    TextMeans(v, "status", "ACTIVE");
    TextMeans(v, "taskDefinition", r.task);
    NumberMeans(v, "desiredCount", r.count);
    NumberMeans(v, "runningCount", r.count);
    NumberMeans(v, "pendingCount", 0);
  }

  lemma DeploymentMeans(v: Json, b: Report)
    requires Settled(b)
    ensures ReadDeployment(v, b.(deployment := "")) == Ok(b.deployment) <==> DescribesDeployment(v, b) && Whole(v)
  {
  }

  lemma SnapshotParts(b: Report, s: Json)
    requires Settled(b)
    ensures Snapshot(s) == Ok(b) <==>
      && Holds(s, "failures", Arr([])) && HoldsOne(s, "services")
      && var service := s.fields["services"].items[0];
         && ReadService(service) == Ok(b.(deployment := "")) && HoldsOne(service, "deployments")
         && ReadDeployment(service.fields["deployments"].items[0], b.(deployment := "")) == Ok(b.deployment)
  {
  }

  /** The verifier's checks come to the same description, with counts spelled as integers. */
  lemma VerifierMeans(b: Report, s: Json)
    requires Settled(b)
    ensures Snapshot(s) == Ok(b) <==> Describes(s, b) && WholeCounts(s)
  {
    SnapshotParts(b, s);
    if HoldsOne(s, "services") {
      var service := s.fields["services"].items[0];
      ServiceMeans(service, b.(deployment := ""));
      if HoldsOne(service, "deployments") {
        DeploymentMeans(service.fields["deployments"].items[0], b);
      }
    }
  }

  /**
    The recheck accepts exactly the snapshots from which the verifier would produce the
    same report, among those whose counts are spelled as integers.
  */
  lemma GatesAgree(b: Report, s: Json)
    requires Settled(b)
    ensures var accepted := Accepts(b, s) && WholeCounts(s);
            accepted <==> Snapshot(s) == Ok(b)
  {
    RecheckMeans(b, s);
    VerifierMeans(b, s);
  }

  function WrittenDeployment(b: Report): Json {
    Obj(map["id" := Str(b.deployment), "status" := Str("PRIMARY"),
      "taskDefinition" := Str(b.task), "rolloutState" := Str("COMPLETED"),
      "desiredCount" := Int(b.count), "runningCount" := Int(b.count), "pendingCount" := Int(0)])
  }

  function WrittenService(b: Report, running: Json): Json {
    Obj(map["status" := Str("ACTIVE"), "taskDefinition" := Str(b.task),
      "desiredCount" := Int(b.count), "runningCount" := running, "pendingCount" := Int(0),
      "deployments" := Arr([WrittenDeployment(b)])])
  }

  /** A snapshot of the reported state, with the given spelling of the service's running count. */
  function Written(b: Report, running: Json): Json {
    Obj(map["failures" := Arr([]), "services" := Arr([WrittenService(b, running)])])
  }

  lemma WrittenDeploymentDescribes(b: Report)
    requires Settled(b)
    ensures DescribesDeployment(WrittenDeployment(b), b) && Whole(WrittenDeployment(b))
  {
  }

  lemma WrittenServiceDescribes(b: Report, running: Json)
    requires Settled(b) && Same(running, Int(b.count))
    ensures DescribesService(WrittenService(b, running), b)
    ensures Whole(WrittenService(b, running)) <==> running.Int?
  {
  }

  lemma WrittenDescribes(b: Report, running: Json)
    requires Settled(b) && Same(running, Int(b.count))
    ensures Describes(Written(b, running), b)
    ensures WholeCounts(Written(b, running)) <==> running.Int?
  {
    WrittenDeploymentDescribes(b);
    WrittenServiceDescribes(b, running);
    assert Written(b, running).fields["services"].items == [WrittenService(b, running)];
    assert WrittenService(b, running).fields["deployments"].items == [WrittenDeployment(b)];
  }

  /**
    Spelling decides the rest: every settled report comes back from its own snapshot, and
    the recheck also accepts that snapshot with a count written as 1.0, which the verifier refuses.
  */
  lemma SpellingDecides(b: Report)
    requires Settled(b)
    ensures Snapshot(Written(b, Int(b.count))) == Ok(b)
    ensures var respelled := Written(b, Real(b.count as real));
            Accepts(b, respelled) && Snapshot(respelled) != Ok(b)
  {
    WrittenDescribes(b, Int(b.count));
    WrittenDescribes(b, Real(b.count as real));
    VerifierMeans(b, Written(b, Int(b.count)));
    VerifierMeans(b, Written(b, Real(b.count as real)));
    RecheckMeans(b, Written(b, Real(b.count as real)));
  }

  /** A live baseline is exactly a positive desired count: zero skips the image check. */
  lemma LiveMeansCounted(s: Json)
    requires Snapshot(s).Ok?
    ensures var b := Snapshot(s).value;
            b.Live() <==> b.count > 0
  {
    ReportsAreSettled(s);
  }

  /** The deployment script's own two checks of a report cannot fail: the task name's prefix and the printed count. */
  lemma ReportPassesShell(s: Json)
    requires Snapshot(s).Ok?
    ensures var b := Snapshot(s).value;
            && Starts(b.task, "arn:aws:ecs:")
            && b.count >= 0 && LockNames.Decimal(b.count) != "" && All(LockNames.Decimal(b.count), Digit)
  {
    ReportsAreSettled(s);
    var digits := LockNames.Decimal(Snapshot(s).value.count);
    assert forall k | 0 <= k < |digits| :: digits[k] in digits;
  }
}
