/**
  The AWS account as the release scripts meet it: one service, registered task definitions
  and a schedule that decides, for every call, what happened in between, whether the call
  took effect and whether it reported success.
*/
module Cloud {
  import opened Common
  import opened Json
  import opened Baseline

  /** The revision and count in force, and the revision of the last completed deployment. */
  datatype Service = Service(task: string, count: int, completed: string)

  /** What happens to the service on its own or by other hands. */
  datatype Drift =
    | Settles                   // the current deployment completes
    | Reverts                   // the circuit breaker returns to the completed revision
    | Meddles(other: Service)   // somebody else changes the service

  datatype Container = Container(name: Option<string>, image: string, rest: Json)

  datatype TaskDef = TaskDef(containers: seq<Container>, settings: map<string, Json>)

  datatype Call =
    | Query(ok: bool)
    | Lookup(task: string, found: Option<TaskDef>)
    | Snap(response: Option<Json>)
    | Inspect(image: string, passed: bool)
    | Register(definition: TaskDef, took: bool, answer: Option<string>)
    | Update(task: string, count: int, took: bool, accepted: bool)
    | Observe(seen: Option<string>)
    | Probe(up: bool)
    | Run(started: Option<TaskDef>, name: Option<string>, reply: Option<Json>)
    | Wait(stable: bool)
    | WaitTask(task: string, stopped: bool)
    | Tasks(task: string, fate: Fate, response: Option<Json>)
    | Stop(task: string, took: bool, accepted: bool)

  /** A call together with the drift that preceded it. */
  datatype Record = Record(drift: seq<Drift>, call: Call)

  /** When a task ends on its own, if ever, and its containers' exit codes then and after a requested stop. */
  datatype Ending = Ending(at: Option<nat>, codes: map<string, int>, halted: map<string, int>)

  datatype Fate = Running | Stopped(codes: map<string, int>)

  datatype Outcome = Outcome(drift: seq<Drift>, took: bool, ok: bool, text: string, json: Json)

  // ---------------------------------------------------------------- the service over a log

  function Shift(s: Service, e: Drift): Service {
    match e
    case Settles => s.(completed := s.task)
    case Reverts => s.(task := s.completed)
    case Meddles(other) => other
  }

  function Drifts(s: Service, d: seq<Drift>): Service
    decreases |d|
  {
    if d == [] then s else Drifts(Shift(s, d[0]), d[1..])
  }

  function Act(s: Service, c: Call): Service {
    match c
    case Update(task, count, true, _) => s.(task := task, count := count)
    case _ => s
  }

  function After(s: Service, log: seq<Record>): Service {
    if log == [] then s
    else
      var last := log[|log| - 1];
      Act(Drifts(After(s, log[..|log| - 1]), last.drift), last.call)
  }

  predicate Unmeddled(d: seq<Drift>) { forall k | 0 <= k < |d| :: !d[k].Meddles? }

  /** The first thing that happens is a completion, or a reversion. */
  predicate SettlesFirst(d: seq<Drift>) { d != [] && d[0].Settles? }

  predicate RevertsFirst(d: seq<Drift>) { d != [] && d[0].Reverts? }

  function DriftOf(log: seq<Record>): seq<Drift> {
    if log == [] then [] else log[0].drift + DriftOf(log[1..])
  }

  /** The calls that leave the running service alone. */
  predicate Inert(log: seq<Record>) { forall k | 0 <= k < |log| :: !log[k].call.Update? }

  /** Without other hands, the first drift decides: the breaker and completion only pick a side. */
  lemma {:induction false} FirstDriftDecides(s: Service, d: seq<Drift>)
    requires Unmeddled(d)
    ensures var t := Drifts(s, d);
            && t.count == s.count
            && t.task == (if RevertsFirst(d) then s.completed else s.task)
            && t.completed == (if SettlesFirst(d) then s.task else s.completed)
    decreases |d|
  {
    if d != [] {
      FirstDriftDecides(Shift(s, d[0]), d[1..]);
    }
  }

  lemma {:induction false} DriftsAppend(s: Service, a: seq<Drift>, b: seq<Drift>)
    ensures Drifts(s, a + b) == Drifts(Drifts(s, a), b)
    decreases |a|
  {
    if a == [] {
      assert a + b == b;
    } else {
      assert (a + b)[1..] == a[1..] + b;
      DriftsAppend(Shift(s, a[0]), a[1..], b);
    }
  }

  lemma {:induction false} AfterAppend(s: Service, a: seq<Record>, b: seq<Record>)
    ensures After(s, a + b) == After(After(s, a), b)
  {
    if b == [] {
      assert a + b == a;
    } else {
      var n := |b| - 1;
      assert (a + b)[..|a| + n] == a + b[..n];
      AfterAppend(s, a, b[..n]);
    }
  }

  /** Over calls that leave the service alone, only the drift counts. */
  lemma {:induction false} OnlyDriftCounts(s: Service, log: seq<Record>)
    requires Inert(log)
    ensures After(s, log) == Drifts(s, DriftOf(log))
    decreases |log|
  {
    if log != [] {
      var s' := Drifts(s, log[0].drift);
      assert log == log[..1] + log[1..];
      AfterAppend(s, log[..1], log[1..]);
      assert After(s, log[..1][..0]) == s;
      OnlyDriftCounts(s', log[1..]);
      DriftsAppend(s, log[0].drift, DriftOf(log[1..]));
    }
  }

  lemma {:induction false} DriftOfAppend(a: seq<Record>, b: seq<Record>)
    ensures DriftOf(a + b) == DriftOf(a) + DriftOf(b)
  {
    if a == [] {
      assert a + b == b;
    } else {
      assert (a + b)[1..] == a[1..] + b;
      DriftOfAppend(a[1..], b);
    }
  }

  lemma DriftOfOne(r: Record)
    ensures DriftOf([r]) == r.drift
  {
    assert DriftOf([r]) == r.drift + DriftOf([r][1..]);
  }

  lemma {:induction false} DriftOfQuiet(log: seq<Record>)
    requires forall k | 0 <= k < |log| :: log[k].drift == []
    ensures DriftOf(log) == []
  {
    if log != [] {
      DriftOfQuiet(log[1..]);
    }
  }

  // ---------------------------------------------------------------- task definitions

  const REGISTRATION_FIELDS := ["taskDefinitionArn", "revision", "status", "requiresAttributes",
                                "compatibilities", "registeredAt", "registeredBy", "deregisteredAt"]

  function Named(containers: seq<Container>, name: string): nat {
    if containers == [] then 0
    else (if containers[0].name == Some(name) then 1 else 0) + Named(containers[1..], name)
  }

  function WithImage(containers: seq<Container>, name: string, image: string): seq<Container> {
    if containers == [] then []
    else
      var c := containers[0];
      [if c.name == Some(name) then c.(image := image) else c] + WithImage(containers[1..], name, image)
  }

  /** The jq rewrite of a described definition into the one to register. */
  function NextDefinition(definition: TaskDef, name: string, image: string): Option<TaskDef> {
    if Named(definition.containers, name) != 1 then None
    else Some(TaskDef(WithImage(definition.containers, name, image),
                      map key | key in definition.settings && key !in REGISTRATION_FIELDS :: definition.settings[key]))
  }

  /** The container at `k` is the one of that name. */
  ghost predicate OnlyNamed(containers: seq<Container>, name: string, k: int) {
    && 0 <= k < |containers| && containers[k].name == Some(name)
    && forall j | 0 <= j < |containers| && j != k :: containers[j].name != Some(name)
  }

  ghost predicate NamesOne(containers: seq<Container>, name: string) { exists k :: OnlyNamed(containers, name, k) }

  lemma {:induction false} OnlyNamedCounts(containers: seq<Container>, name: string, k: nat)
    requires OnlyNamed(containers, name, k)
    ensures Named(containers, name) == 1
  {
    var rest := containers[1..];
    assert forall j | 0 < j < |containers| :: containers[j] == rest[j - 1];
    if k == 0 {
      WithImageNoneNamed(rest, name, "");
    } else {
      OnlyNamedCounts(rest, name, k - 1);
    }
  }

  /** `next` differs from `d` in the image of the one named container and in registration metadata only. */
  ghost predicate Replaces(d: TaskDef, name: string, image: string, next: TaskDef) {
    exists k :: ReplacesAt(d, name, image, next, k)
  }

  ghost predicate ReplacesAt(d: TaskDef, name: string, image: string, next: TaskDef, k: int) {
    && OnlyNamed(d.containers, name, k)
    && next.containers == d.containers[k := d.containers[k].(image := image)]
    && next.settings == d.settings - {"taskDefinitionArn", "revision", "status", "requiresAttributes",
                                      "compatibilities", "registeredAt", "registeredBy", "deregisteredAt"}
  }

  lemma {:induction false} WithImageNoneNamed(containers: seq<Container>, name: string, image: string)
    ensures Named(containers, name) == 0 <==> (forall k | 0 <= k < |containers| :: containers[k].name != Some(name))
    ensures Named(containers, name) == 0 ==> WithImage(containers, name, image) == containers
  {
    if containers != [] {
      WithImageNoneNamed(containers[1..], name, image);
      assert forall k | 0 < k < |containers| :: containers[k] == containers[1..][k - 1];
    }
  }

  lemma UpdateTail(s: seq<Container>, k: nat, c: Container)
    requires k + 1 < |s|
    ensures [s[0]] + s[1..][k := c] == s[k + 1 := c]
  {
  }

  lemma OnlyNamedTail(containers: seq<Container>, name: string, k: nat)
    requires containers != [] && containers[0].name != Some(name) && OnlyNamed(containers[1..], name, k)
    ensures OnlyNamed(containers, name, k + 1)
  {
    assert forall j | 0 < j < |containers| :: containers[j] == containers[1..][j - 1];
  }

  lemma {:induction false} WithImageOneNamed(containers: seq<Container>, name: string, image: string) returns (k: nat)
    requires Named(containers, name) == 1
    ensures OnlyNamed(containers, name, k)
    ensures WithImage(containers, name, image) == containers[k := containers[k].(image := image)]
    decreases |containers|
  {
    if containers[0].name == Some(name) {
      k := 0;
      WithImageNoneNamed(containers[1..], name, image);
      assert forall j | 0 < j < |containers| :: containers[j] == containers[1..][j - 1];
    } else {
      var n := WithImageOneNamed(containers[1..], name, image);
      OnlyNamedTail(containers, name, n);
      UpdateTail(containers, n, containers[1..][n].(image := image));
      k := n + 1;
    }
  }

  lemma RegistrationFields(key: string)
    ensures key in REGISTRATION_FIELDS <==>
      key in {"taskDefinitionArn", "revision", "status", "requiresAttributes",
              "compatibilities", "registeredAt", "registeredBy", "deregisteredAt"}
  {
  }

  /** The rewrite succeeds exactly on one container of that name, and then replaces only its image. */
  lemma NextDefinitionReplaces(d: TaskDef, name: string, image: string)
    ensures NextDefinition(d, name, image).Some? <==> NamesOne(d.containers, name)
    ensures NextDefinition(d, name, image).Some? ==> Replaces(d, name, image, NextDefinition(d, name, image).value)
  {
    if k :| OnlyNamed(d.containers, name, k) { OnlyNamedCounts(d.containers, name, k); }
    if Named(d.containers, name) == 1 {
      var k := WithImageOneNamed(d.containers, name, image);
      forall key ensures key in REGISTRATION_FIELDS <==>
        key in {"taskDefinitionArn", "revision", "status", "requiresAttributes",
                "compatibilities", "registeredAt", "registeredBy", "deregisteredAt"} { RegistrationFields(key); }
      assert ReplacesAt(d, name, image, NextDefinition(d, name, image).value, k);
    }
  }

  // ---------------------------------------------------------------- calls

  /** A string or number under `key` is the expected one. */
  predicate Tells(v: Json, key: string, expected: Json) {
    v.Obj? && key in v.fields && (v.fields[key].Str? || Numeric(v.fields[key])) ==> Same(v.fields[key], expected)
  }

  /** The response agrees with the service wherever it speaks of it. */
  predicate Truthful(v: Json, s: Service) {
    HoldsOne(v, "services") ==>
      var service := v.fields["services"].items[0];
      && Tells(service, "taskDefinition", Str(s.task)) && Tells(service, "desiredCount", Int(s.count))
      && (HoldsOne(service, "deployments") ==>
            var deployment := service.fields["deployments"].items[0];
            Holds(deployment, "rolloutState", Str("COMPLETED")) ==> Tells(deployment, "taskDefinition", Str(s.completed)))
  }

  /** The answer to a start names one task only when that task was started. */
  predicate TruthfulStart(v: Json, name: Option<string>) {
    HoldsOne(v, "tasks") ==> name.Some? && Tells(v.fields["tasks"].items[0], "taskArn", Str(name.value))
  }

  /** A task is described as stopped only when it is, and then with the exit codes that its containers have. */
  predicate TruthfulTask(v: Json, fate: Fate) {
    HoldsOne(v, "tasks") && Holds(v.fields["tasks"].items[0], "lastStatus", Str("STOPPED")) ==>
      var task := v.fields["tasks"].items[0];
      && fate.Stopped?
      && ("containers" in task.fields && task.fields["containers"].Arr? ==>
            var items := task.fields["containers"].items;
            forall k | 0 <= k < |items| :: TruthfulContainer(items[k], fate.codes))
  }

  predicate TruthfulContainer(c: Json, codes: map<string, int>) {
    c.Obj? && "name" in c.fields && c.fields["name"].Str? && "exitCode" in c.fields && Numeric(c.fields["exitCode"]) ==>
      c.fields["name"].text in codes && Same(c.fields["exitCode"], Int(codes[c.fields["name"].text]))
  }

  lemma TruthfulSettled(v: Json, s: Service, b: Report)
    requires Truthful(v, s) && Describes(v, b)
    ensures s == Service(b.task, b.count, b.task)
  {
  }

  class Aws {
    const start: Service
    const schedule: nat -> Outcome
    const repositoryUri: string
    const endings: string -> Ending
    var clock: nat
    var definitions: map<string, TaskDef>
    var log: seq<Record>
    /** The tasks started so far, and those that were stopped on request. */
    var started: map<string, TaskDef>
    var stopped: set<string>

    constructor (start: Service, schedule: nat -> Outcome, repositoryUri: string, endings: string -> Ending,
                 definitions: map<string, TaskDef>)
      ensures this.start == start && this.schedule == schedule && this.repositoryUri == repositoryUri
      ensures log == [] && this.definitions == definitions && this.endings == endings && started == map[] && stopped == {}
    {
      this.start, this.schedule, this.repositoryUri := start, schedule, repositoryUri;
      this.endings := endings;
      clock, log, started, stopped := 0, [], map[], {};
      this.definitions := definitions;
    }

    function Now(): Service
      reads this
    {
      After(start, log)
    }

    /** The task has ended on its own. */
    predicate Over(task: string)
      reads this`clock
    {
      endings(task).at.Some? && endings(task).at.value <= clock
    }

    function FateOf(task: string): Fate
      reads this`clock, this`stopped
    {
      if task in stopped then Stopped(endings(task).halted)
      else if Over(task) then Stopped(endings(task).codes)
      else Running
    }

    method Enter(call: Call, drift: seq<Drift>)
      modifies this`clock, this`log
      ensures log == old(log) + [Record(drift, call)] && clock == old(clock) + 1
    {
      clock := clock + 1;
      log := log + [Record(drift, call)];
    }

    method DescribeRepository() returns (uri: Option<string>)
      modifies this`clock, this`log
      ensures log == old(log) + [Record(schedule(old(clock)).drift, Query(uri.Some?))]
      ensures uri.Some? ==> uri.value == repositoryUri
    {
      var o := schedule(clock);
      Enter(Query(o.ok), o.drift);
      uri := if o.ok then Some(repositoryUri) else None;
    }

    /** Any other read or local command that only succeeds or fails. */
    method Succeed() returns (ok: bool)
      modifies this`clock, this`log
      ensures log == old(log) + [Record(schedule(old(clock)).drift, Query(ok))]
    {
      var o := schedule(clock);
      Enter(Query(o.ok), o.drift);
      ok := o.ok;
    }

    method DescribeService() returns (response: Option<Json>)
      modifies this`clock, this`log
      ensures log == old(log) + [Record(schedule(old(clock)).drift, Snap(response))]
      ensures response.Some? ==> Truthful(response.value, Now())
    {
      var o := schedule(clock);
      var now := Drifts(Now(), o.drift);
      response := if o.ok && Truthful(o.json, now) then Some(o.json) else None;
      Enter(Snap(response), o.drift);
      assert log[..|log| - 1] == old(log);
    }

    method DescribeTaskDefinition(task: string) returns (definition: Option<TaskDef>)
      modifies this`clock, this`log
      ensures log == old(log) + [Record(schedule(old(clock)).drift, Lookup(task, definition))]
      ensures definition.Some? ==> task in definitions && definition.value == definitions[task]
    {
      var o := schedule(clock);
      definition := if o.ok && task in definitions then Some(definitions[task]) else None;
      Enter(Lookup(task, definition), o.drift);
    }

    /** Pulls an image and extracts its validated release contract. */
    method InspectContract(image: string) returns (passed: bool)
      modifies this`clock, this`log
      ensures log == old(log) + [Record(schedule(old(clock)).drift, Inspect(image, passed))]
    {
      var o := schedule(clock);
      passed := o.ok;
      Enter(Inspect(image, passed), o.drift);
    }

    method RegisterTaskDefinition(definition: TaskDef) returns (task: Option<string>)
      modifies this`clock, this`log, this`definitions
      ensures exists took ::
        log == old(log) + [Record(schedule(old(clock)).drift, Register(definition, took, task))] && (task.Some? ==> took)
      ensures task.Some? ==> task.value !in old(definitions) && definitions == old(definitions)[task.value := definition]
    {
      var o := schedule(clock);
      var took := o.took && o.text !in definitions;
      task := if took && o.ok then Some(o.text) else None;
      Enter(Register(definition, took, task), o.drift);
      if took { definitions := definitions[o.text := definition]; }
    }

    method UpdateService(task: string, count: int) returns (ok: bool)
      modifies this`clock, this`log
      ensures exists took ::
        log == old(log) + [Record(schedule(old(clock)).drift, Update(task, count, took, ok))] && (ok ==> took)
    {
      var o := schedule(clock);
      ok := o.took && o.ok;
      Enter(Update(task, count, o.took, ok), o.drift);
    }

    method WaitServicesStable() returns (ok: bool)
      modifies this`clock, this`log
      ensures log == old(log) + [Record(schedule(old(clock)).drift, Wait(ok))]
    {
      var o := schedule(clock);
      ok := o.ok;
      Enter(Wait(ok), o.drift);
    }

    method DescribeCurrentTask() returns (task: Option<string>)
      modifies this`clock, this`log
      ensures log == old(log) + [Record(schedule(old(clock)).drift, Observe(task))]
      ensures task.Some? ==> task.value == Now().task
    {
      var o := schedule(clock);
      task := if o.ok then Some(Drifts(Now(), o.drift).task) else None;
      Enter(Observe(task), o.drift);
      assert log[..|log| - 1] == old(log);
    }

    /** The readiness request: the status code and the parsed body, or None when curl fails. */
    method Readiness() returns (reply: Option<(string, Json)>)
      modifies this`clock, this`log
      ensures log == old(log) + [Record(schedule(old(clock)).drift, Probe(reply.Some? && Ready(reply.value.0, reply.value.1)))]
    {
      var o := schedule(clock);
      reply := if o.ok then Some((o.text, o.json)) else None;
      UpMeans(o.text, o.json);
      Enter(Probe(reply.Some? && Up(reply.value.0, reply.value.1)), o.drift);
    }

    /** The call of a start by which `name`, unless None, came to run the definition asked for. */
    ghost predicate RunOf(r: Record, definitions: map<string, TaskDef>, task: string, name: Option<string>,
      response: Option<Json>)
    {
      && r.call.Run? && r.call.name == name && r.call.reply == response
      && (response.Some? ==> TruthfulStart(response.value, name))
      && r.call.started == (if task in definitions then Some(definitions[task]) else None)
    }

    /** An unknown definition never runs; a known one may run without the caller learning of it. */
    method RunTask(task: string) returns (response: Option<Json>, ghost name: Option<string>)
      modifies this`clock, this`log, this`started
      ensures exists r :: log == old(log) + [r] && RunOf(r, definitions, task, name, response)
      ensures name.None? ==> started == old(started)
      ensures name.Some? ==>
        && task in definitions && name.value !in old(started) && name.value !in stopped
        && started == old(started)[name.value := definitions[task]]
    {
      var o := schedule(clock);
      var definition := if task in definitions then Some(definitions[task]) else None;
      var begun := if o.took && definition.Some? && o.text !in started && o.text !in stopped then Some(o.text) else None;
      response, name := if o.ok && TruthfulStart(o.json, begun) then Some(o.json) else None, begun;
      Enter(Run(definition, begun, response), o.drift);
      if begun.Some? { started := started[begun.value := definition.value]; }
    }

    method WaitTaskStopped(task: string) returns (ok: bool)
      modifies this`clock, this`log
      ensures log == old(log) + [Record(schedule(old(clock)).drift, WaitTask(task, ok))] && clock > old(clock)
      ensures ok ==> FateOf(task).Stopped?
    {
      var o := schedule(clock);
      ok := o.ok && FateOf(task).Stopped?;
      Enter(WaitTask(task, ok), o.drift);
    }

    /** A stop that takes effect ends a task that still runs. */
    method StopTask(task: string) returns (ok: bool, ghost took: bool)
      modifies this`clock, this`log, this`stopped
      ensures log == old(log) + [Record(schedule(old(clock)).drift, Stop(task, took, ok))] && clock > old(clock)
      ensures ok ==> took
      ensures stopped == old(stopped) || (took && stopped == old(stopped) + {task})
      ensures took ==> FateOf(task).Stopped?
    {
      var o := schedule(clock);
      var halts := o.took && FateOf(task).Running?;
      ok, took := o.took && o.ok, o.took;
      Enter(Stop(task, o.took, ok), o.drift);
      if halts { stopped := stopped + {task}; }
    }

    method DescribeTasks(task: string) returns (response: Option<Json>)
      modifies this`clock, this`log
      ensures log == old(log) + [Record(schedule(old(clock)).drift, Tasks(task, old(FateOf(task)), response))]
      ensures clock > old(clock)
      ensures response.Some? ==> TruthfulTask(response.value, old(FateOf(task)))
    {
      var o := schedule(clock);
      response := if o.ok && TruthfulTask(o.json, FateOf(task)) then Some(o.json) else None;
      Enter(Tasks(task, FateOf(task), response), o.drift);
    }
  }

  /** The script's verdict on a readiness response: the status, and its filter on the body. */
  predicate Up(status: string, body: Json) {
    status == "200" && And(Some(body.Obj?), Equals(Get(Some(body), "status"), Str("UP"))) == Some(true)
  }

  /** The service says that it is ready. */
  ghost predicate Ready(status: string, body: Json) {
    status == "200" && exists fields :: body == Obj(fields) && "status" in fields && fields["status"] == Str("UP")
  }

  lemma UpMeans(status: string, body: Json)
    ensures Up(status, body) <==> Ready(status, body)
  {
    if body.Obj? { assert body == Obj(body.fields); }
  }
}
