/** The migration script: the same gate and recheck, then one task run to a confirmed zero exit. */
module Migrate {
  import opened Common
  import opened Json
  import opened Names
  import opened Baseline
  import opened Cloud
  import opened Gate

  /** What one run did after the recheck. */
  datatype Course =
    | NotRun(records: seq<Record>)
    | Unanswered(registered: Record, run: Record)
    | Unconfirmed(registered: Record, run: Record, wait: Record, stop: Record)
    | Ended(registered: Record, run: Record, wait: Record, last: Record)
  {
    function Records(): seq<Record> {
      match this
      case NotRun(records) => records
      case Unanswered(registered, run) => [registered, run]
      case Unconfirmed(registered, run, wait, stop) => [registered, run, wait, stop]
      case Ended(registered, run, wait, last) => [registered, run, wait, last]
    }

    /** The task that the run started, whether or not it learned of it. */
    function Task(): Option<string> { if NotRun? || !run.call.Run? then None else run.call.name }
  }

  /** The described definition is registered with only the image replaced, and then run. */
  ghost predicate RunsRegistered(registered: Call, run: Call, base: TaskDef, image: string) {
    && registered.Register? && registered.answer.Some?
    && Registers(registered, base, "migration", image, registered.answer)
    && run.Run? && run.started == Some(registered.definition)
    && (run.reply.Some? ==> TruthfulStart(run.reply.value, run.name))
  }

  /** The answer to a start names the one task that it scheduled, without failures. */
  ghost predicate Schedules(v: Json, task: string) {
    && v.Obj? && ("failures" in v.fields ==> Empty(v.fields["failures"])) && HoldsOne(v, "tasks")
    && var one := v.fields["tasks"].items[0];
       "taskArn" in one.fields && one.fields["taskArn"] == Str(task) && exists rest :: task == "arn:aws:ecs:" + rest
  }

  ghost predicate Answers(reply: Option<Json>, task: string) { reply.Some? && Schedules(reply.value, task) }

  /** The script's two filters on the answer yield exactly that name. */
  lemma ScheduledMeans(reply: Option<Json>, task: string)
    ensures Scheduled(reply) == Some(task) <==> Answers(reply, task)
  {
    if reply.Some? {
      var v := reply.value;
      if v.Obj? && "failures" in v.fields { LengthMeans(v.fields["failures"]); }
      if Starts(task, "arn:aws:ecs:") { assert task == "arn:aws:ecs:" + task[12..]; }
    }
  }

  lemma UsableAnswer(reply: Option<Json>)
    ensures match Scheduled(reply)
            case Some(task) => Answers(reply, task)
            case None => forall task :: !Answers(reply, task)
  {
    forall task ensures Scheduled(reply) == Some(task) <==> Answers(reply, task) { ScheduledMeans(reply, task); }
  }

  /** The shape of a run for the described definition `base` and the confirming snapshot. */
  ghost predicate Follows(c: Course, base: TaskDef, confirm: Call, image: string, ok: bool) {
    match c
    case NotRun(records) =>
      && !ok
      && (if records == [] then !Networked(confirm)
          else |records| == 1 && Registers(records[0].call, base, "migration", image, None))
    case Unanswered(registered, run) =>
      !ok && RunsRegistered(registered.call, run.call, base, image) && forall task :: !Answers(run.call.reply, task)
    case Unconfirmed(registered, run, wait, stop) =>
      && !ok && RunsRegistered(registered.call, run.call, base, image) && wait.call.WaitTask? && !wait.call.stopped
      && Answers(run.call.reply, wait.call.task) && stop.call.Stop? && stop.call.task == wait.call.task
    case Ended(registered, run, wait, last) =>
      && RunsRegistered(registered.call, run.call, base, image) && wait.call.WaitTask? && wait.call.stopped
      && Answers(run.call.reply, wait.call.task) && last.call.Tasks? && last.call.task == wait.call.task
      && (last.call.response.Some? ==> TruthfulTask(last.call.response.value, last.call.fate))
      && (ok <==> last.call.response.Some? && ExitedZero(last.call.response.value))
  }

  /** Tasks are started at most once, from the described definition with only the image replaced. */
  ghost predicate RunsOnce(records: seq<Record>, base: TaskDef, image: string) {
    forall i | 0 <= i < |records| && records[i].call.Run? ::
      && records[i].call.started.Some? && Replaces(base, "migration", image, records[i].call.started.value)
      && forall j | 0 <= j < |records| && records[j].call.Run? :: i == j
  }

  /** A task was started, and the run neither saw it end nor stopped it. */
  ghost predicate LeftRunning(records: seq<Record>) {
    && (exists i | 0 <= i < |records| :: records[i].call.Run? && records[i].call.name.Some?)
    && (forall i | 0 <= i < |records| ::
          !(records[i].call.Stop? && records[i].call.took) && !(records[i].call.WaitTask? && records[i].call.stopped))
  }

  /** The migration container of an ended task exited with zero. */
  predicate ExitCodeZero(fate: Fate) {
    fate.Stopped? && "migration" in fate.codes && fate.codes["migration"] == 0
  }

  /** The task started by `run` was seen to stop and was described as exited with zero, which it is. */
  ghost predicate SeenThrough(run: Call, wait: Call, last: Call) {
    && run.Run? && run.name.Some? && wait == WaitTask(run.name.value, true)
    && last.Tasks? && last.task == run.name.value && ExitCodeZero(last.fate)
    && last.response.Some? && ExitedZero(last.response.value)
  }

  /** The name that a usable answer gives is the name of the started task. */
  lemma AnsweredIsStarted(reply: Json, name: Option<string>, task: string)
    requires TruthfulStart(reply, name) && Schedules(reply, task)
    ensures name == Some(task)
  {
  }

  /** A truthful description with a zero exit is one of a task that exited with zero. */
  lemma ZeroIsTrue(v: Json, fate: Fate)
    requires TruthfulTask(v, fate) && ExitedZero(v)
    ensures ExitCodeZero(fate)
  {
    var items := v.fields["tasks"].items[0].fields["containers"].items;
    var k :| OnlyAt(items, "migration", k) && Holds(items[k], "exitCode", Int(0));
    assert TruthfulContainer(items[k], fate.codes);
  }

  /** Every run leaves the service alone and starts at most one task, of the inspected image. */
  lemma OneTaskAtMost(c: Course, base: TaskDef, confirm: Call, image: string, ok: bool)
    requires Follows(c, base, confirm, image, ok)
    ensures Inert(c.Records()) && RunsOnce(c.Records(), base, image)
  {
  }

  /** The exit status is zero exactly when the started task was seen through to its zero exit. */
  lemma ZeroExactlyWhenSeenThrough(c: Course, base: TaskDef, confirm: Call, image: string, ok: bool)
    requires Follows(c, base, confirm, image, ok)
    ensures var r := c.Records();
            var seen := exists i | 0 <= i < |r| - 2 :: SeenThrough(r[i].call, r[i + 1].call, r[i + 2].call);
            ok <==> seen
  {
    var r := c.Records();
    match c
    case NotRun(_) =>
    case Unanswered(_, _) =>
    case Unconfirmed(_, run, wait, stop) =>
      assert r[1] == run && r[2] == wait && r[3] == stop;
    case Ended(_, run, wait, last) =>
      assert r[1] == run && r[1 + 1] == wait && r[1 + 2] == last;
      if ok {
        AnsweredIsStarted(run.call.reply.value, run.call.name, wait.call.task);
        ZeroIsTrue(last.call.response.value, last.call.fate);
        assert SeenThrough(r[1].call, r[1 + 1].call, r[1 + 2].call);
      }
  }

  /** A description that gives the exit code of the one migration container of one stopped task. */
  ghost predicate Telling(v: Json) {
    && v.Obj? && ("failures" in v.fields ==> Empty(v.fields["failures"])) && HoldsOne(v, "tasks")
    && var task := v.fields["tasks"].items[0];
       && Holds(task, "lastStatus", Str("STOPPED")) && "containers" in task.fields && task.fields["containers"].Arr?
       && var items := task.fields["containers"].items;
          && (forall j | 0 <= j < |items| :: items[j].Obj?)
          && exists k :: OnlyAt(items, "migration", k) && "exitCode" in items[k].fields && Numeric(items[k].fields["exitCode"])
  }

  lemma TellingDecides(v: Json, fate: Fate)
    requires Telling(v) && TruthfulTask(v, fate)
    ensures ExitedZero(v) <==> ExitCodeZero(fate)
  {
    var items := v.fields["tasks"].items[0].fields["containers"].items;
    var k :| OnlyAt(items, "migration", k) && "exitCode" in items[k].fields && Numeric(items[k].fields["exitCode"]);
    assert TruthfulContainer(items[k], fate.codes);
    if ExitedZero(v) { ZeroIsTrue(v, fate); }
  }

  /**
    A run whose start is answered usably waits for that very task; and once the wait ends with a
    stop and the description is telling, the exit status is zero exactly when the container's is.
  */
  lemma UsableRunDecides(c: Course, base: TaskDef, confirm: Call, image: string, ok: bool, task: string)
    requires Follows(c, base, confirm, image, ok) && !c.NotRun? && Answers(c.run.call.reply, task)
    ensures (c.Unconfirmed? || c.Ended?) && c.wait.call == WaitTask(task, c.Ended?)
    ensures c.Ended? && c.last.call.response.Some? && Telling(c.last.call.response.value) ==>
      (ok <==> ExitCodeZero(c.last.call.fate))
  {
    if c.Ended? && c.last.call.response.Some? && Telling(c.last.call.response.value) {
      TellingDecides(c.last.call.response.value, c.last.call.fate);
    }
  }

  /** A started task is left exactly when its start had no usable answer, or the wait and the stop both failed. */
  lemma LeftExactlyWhen(c: Course, base: TaskDef, confirm: Call, image: string, ok: bool)
    requires Follows(c, base, confirm, image, ok)
    ensures LeftRunning(c.Records()) <==>
      (c.Unanswered? && c.run.call.name.Some?) || (c.Unconfirmed? && !c.stop.call.took)
  {
    var r := c.Records();
    match c
    case NotRun(_) =>
    case Unanswered(registered, run) =>
      assert r[0] == registered && r[1] == run;
    case Unconfirmed(_, run, wait, stop) =>
      AnsweredIsStarted(run.call.reply.value, run.call.name, wait.call.task);
      assert r[1] == run && r[3] == stop;
    case Ended(_, _, wait, _) =>
      assert r[2] == wait;
  }

  lemma SomeRewrite(image: string) returns (base: TaskDef, next: TaskDef)
    ensures Replaces(base, "migration", image, next)
  {
    base := TaskDef([Container(Some("migration"), "", Null)], map[]);
    next := TaskDef([Container(Some("migration"), image, Null)], map[]);
    assert ReplacesAt(base, "migration", image, next, 0);
  }

  lemma SomeAnswer() returns (reply: Json, task: string)
    ensures Schedules(reply, task) && TruthfulStart(reply, Some(task))
  {
    task := "arn:aws:ecs:";
    assert task == "arn:aws:ecs:" + "";
    reply := Obj(map["tasks" := Arr([Obj(map["taskArn" := Str(task)])])]);
  }

  /** It happens: the task is started, and the answer is lost. */
  lemma TaskCanBeLeft(confirm: Call, image: string, name: string) returns (base: TaskDef, c: Course)
    ensures Follows(c, base, confirm, image, false) && c.Unanswered? && LeftRunning(c.Records())
  {
    var next;
    base, next := SomeRewrite(image);
    c := Unanswered(Record([], Register(next, true, Some(name))), Record([], Run(Some(next), Some(""), None)));
    assert c.Records()[1] == c.run;
  }

  /** It happens as well that the answer arrives, the wait fails, and so does the stop. */
  lemma StopCanFail(confirm: Call, image: string, name: string) returns (base: TaskDef, c: Course)
    ensures Follows(c, base, confirm, image, false) && c.Unconfirmed? && LeftRunning(c.Records())
  {
    var next;
    base, next := SomeRewrite(image);
    var reply, task := SomeAnswer();
    c := Unconfirmed(Record([], Register(next, true, Some(name))), Record([], Run(Some(next), Some(task), Some(reply))),
                     Record([], WaitTask(task, false)), Record([], Stop(task, false, false)));
    LeftExactlyWhen(c, base, confirm, image, false);
  }

  // ---------------------------------------------------------------- the final check

  function Migrations(v: Json): Option<Json> {
    match Elements(Get(First(Get(Some(v), "tasks")), "containers"))
    case None => None
    case Some(items) =>
      match SelectNamed(items, "migration")
      case None => None
      case Some(found) => Some(Arr(found))
  }

  function OneZero(found: Option<Json>): Option<bool> {
    And(Equals(Length(found), Int(1)), Equals(Get(First(found), "exitCode"), Int(0)))
  }

  function OneStopped(v: Json): Option<bool> {
    And(Equals(Length(Get(Some(v), "failures")), Int(0)),
    And(Equals(Length(Get(Some(v), "tasks")), Int(1)),
        Equals(Get(First(Get(Some(v), "tasks")), "lastStatus"), Str("STOPPED"))))
  }

  /** The jq condition on the described task. */
  predicate Confirmed(v: Json) { And(OneStopped(v), OneZero(Migrations(v))) == Some(true) }

  /** Exactly one container of that name in a list of named things, at `k`. */
  ghost predicate OnlyAt(items: seq<Json>, name: string, k: int) {
    && 0 <= k < |items| && Holds(items[k], "name", Str(name))
    && forall j | 0 <= j < |items| && j != k :: !Holds(items[j], "name", Str(name))
  }

  ghost predicate ZeroExit(items: seq<Json>) {
    && (forall j | 0 <= j < |items| :: items[j].Obj? || items[j].Null?)
    && exists k :: OnlyAt(items, "migration", k) && Holds(items[k], "exitCode", Int(0))
  }

  /** One stopped task, without lookup failures, whose one migration container exited with zero. */
  ghost predicate ExitedZero(v: Json) {
    && v.Obj? && ("failures" in v.fields ==> Empty(v.fields["failures"]))
    && HoldsOne(v, "tasks")
    && var task := v.fields["tasks"].items[0];
       Holds(task, "lastStatus", Str("STOPPED"))
       && "containers" in task.fields && task.fields["containers"].Arr? && ZeroExit(task.fields["containers"].items)
  }

  lemma {:induction false} SelectNamedMeans(items: seq<Json>, name: string)
    ensures SelectNamed(items, name).Some? <==> forall j | 0 <= j < |items| :: items[j].Obj? || items[j].Null?
    ensures SelectNamed(items, name).Some? ==>
      && (SelectNamed(items, name).value == [] <==> forall j | 0 <= j < |items| :: !Holds(items[j], "name", Str(name)))
      && (|SelectNamed(items, name).value| == 1 <==> exists k :: OnlyAt(items, name, k))
      && (forall k | OnlyAt(items, name, k) :: SelectNamed(items, name).value == [items[k]])
  {
    if items != [] {
      var rest := items[1..];
      SelectNamedMeans(rest, name);
      assert forall j | 0 < j < |items| :: items[j] == rest[j - 1];
      forall k | OnlyAt(items, name, k) && k > 0 ensures OnlyAt(rest, name, k - 1) {
      }
      if SelectNamed(items, name).Some? && |SelectNamed(items, name).value| == 1 {
        if Holds(items[0], "name", Str(name)) {
          assert OnlyAt(items, name, 0);
        } else {
          var k :| OnlyAt(rest, name, k);
          assert OnlyAt(items, name, k + 1);
        }
      }
    }
  }

  lemma OneZeroMeans(items: seq<Json>)
    ensures SelectNamed(items, "migration").Some? && OneZero(Some(Arr(SelectNamed(items, "migration").value))) == Some(true)
      <==> ZeroExit(items)
  {
    SelectNamedMeans(items, "migration");
  }

  lemma NoFailuresMeans(v: Json)
    requires v.Obj?
    ensures Equals(Length(Get(Some(v), "failures")), Int(0)) == Some(true) <==>
      ("failures" in v.fields ==> Empty(v.fields["failures"]))
  {
    if "failures" in v.fields { LengthMeans(v.fields["failures"]); }
  }

  lemma OneStoppedMeans(v: Json)
    ensures OneStopped(v) == Some(true) <==>
      && v.Obj? && ("failures" in v.fields ==> Empty(v.fields["failures"]))
      && HoldsOne(v, "tasks") && Holds(v.fields["tasks"].items[0], "lastStatus", Str("STOPPED"))
  {
    if v.Obj? { NoFailuresMeans(v); }
  }

  /** The filter with its null and error cases accepts exactly those responses. */
  lemma ConfirmedMeans(v: Json)
    ensures Confirmed(v) <==> ExitedZero(v)
  {
    OneStoppedMeans(v);
    if OneStopped(v) == Some(true) {
      var task := v.fields["tasks"].items[0];
      assert First(Get(Some(v), "tasks")) == Some(task);
      if "containers" in task.fields && task.fields["containers"].Arr? {
        OneZeroMeans(task.fields["containers"].items);
      }
    }
  }

  // ---------------------------------------------------------------- the script

  /** The described service's network settings name something as its subnets. */
  ghost predicate NamesSubnets(v: Json) { exists service, network, vpc :: NamesSubnetsAt(v, service, network, vpc) }

  ghost predicate NamesSubnetsAt(v: Json, service: Json, network: map<string, Json>, vpc: map<string, Json>) {
    && v.Obj? && "services" in v.fields && v.fields["services"].Arr? && [service] <= v.fields["services"].items
    && service.Obj? && "networkConfiguration" in service.fields && service.fields["networkConfiguration"] == Obj(network)
    && "awsvpcConfiguration" in network && network["awsvpcConfiguration"] == Obj(vpc)
    && "subnets" in vpc && !Empty(vpc["subnets"]) && !vpc["subnets"].Bool?
  }

  /** The two filters on the snapshot accept exactly those. */
  lemma SubnetsMean(v: Json)
    ensures HasSubnets(v) <==> NamesSubnets(v)
  {
    if HasSubnets(v) {
      var service := v.fields["services"].items[0];
      var network := service.fields["networkConfiguration"].fields;
      var vpc := network["awsvpcConfiguration"].fields;
      LengthMeans(vpc["subnets"]);
      assert NamesSubnetsAt(v, service, network, vpc);
    }
    if service, network, vpc :| NamesSubnetsAt(v, service, network, vpc) {
      assert First(Get(Some(v), "services")) == Some(service);
      LengthMeans(vpc["subnets"]);
    }
  }

  /** The snapshot's network settings name at least one subnet. */
  predicate HasSubnets(snapshot: Json) {
    var network := Get(First(Get(Some(snapshot), "services")), "networkConfiguration");
    Truthy(network) && Positive(Get(Get(network, "awsvpcConfiguration"), "subnets"))
  }

  ghost predicate Networked(c: Call) { c.Snap? && c.response.Some? && NamesSubnets(c.response.value) }

  /** No base definition, or not exactly one migration container in it. */
  ghost predicate Underivable(run: seq<Record>, task: string) {
    && run != [] && run[|run| - 1].call.Lookup? && run[|run| - 1].call.task == task
    && (run[|run| - 1].call.found.None? || !NamesOne(run[|run| - 1].call.found.value.containers, "migration"))
  }

  /** Every reason not to migrate. */
  ghost predicate Unmigratable(run: seq<Record>, uri: string, s: Settings, definitions: map<string, TaskDef>) {
    s.migration == "" || Refuses(run, uri, s) || Changed(run, uri, s.digest, definitions) || Underivable(run, s.migration)
  }

  /** The gate, the lookups, the rewritten definition and the recheck: nothing is changed up to here. */
  method Clear(aws: Aws, s: Settings)
    returns (report: Option<Report>, definition: TaskDef, ghost run: seq<Record>)
    modifies aws`clock, aws`log
    ensures aws.log == old(aws.log) + run && ReadOnly(run)
    ensures report.Some? ==>
      && Cleared(aws.start, old(aws.log), run, report.value, aws.repositoryUri, s.digest, aws.definitions)
      && Described(run, s.migration, aws.definitions)
      && Replaces(aws.definitions[s.migration], "migration", aws.repositoryUri + "@" + s.digest, definition)
    ensures report.None? ==> Unmigratable(run, aws.repositoryUri, s, aws.definitions)
  {
    definition, run := TaskDef([], map[]), [];
    if s.migration == "" { return None, definition, run; }
    report, run := Verify(aws, s);
    if report.None? { return; }
    report, definition, run := Prepare(aws, report.value, run, old(aws.log), s);
  }

  lemma NotDerived(verified: seq<Record>, more: seq<Record>, uri: string, s: Settings, definitions: map<string, TaskDef>)
    requires more != [] && (more[|more| - 1].call == Query(false) || Underivable(more, s.migration))
    ensures Unmigratable(verified + more, uri, s, definitions)
  {
    assert (verified + more)[|verified + more| - 1] == more[|more| - 1];
  }

  /** The lookups and the recheck, for a verified report. */
  method Prepare(aws: Aws, b: Report, ghost verified: seq<Record>, ghost log: seq<Record>, s: Settings)
    returns (report: Option<Report>, definition: TaskDef, ghost run: seq<Record>)
    requires aws.log == log + verified && ReadOnly(verified)
    requires Verified(verified, b, aws.repositoryUri, s.digest, aws.definitions)
    modifies aws`clock, aws`log
    ensures aws.log == log + run && ReadOnly(run)
    ensures report.Some? ==>
      && Cleared(aws.start, log, run, report.value, aws.repositoryUri, s.digest, aws.definitions)
      && Described(run, s.migration, aws.definitions)
      && Replaces(aws.definitions[s.migration], "migration", aws.repositoryUri + "@" + s.digest, definition)
    ensures report.None? ==> Unmigratable(run, aws.repositoryUri, s, aws.definitions)
  {
    var found;
    ghost var more;
    found, definition, more := Derive(aws, s.migration, aws.repositoryUri + "@" + s.digest);
    Joined(log, verified, more);
    if !found {
      NotDerived(verified, more, aws.repositoryUri, s, aws.definitions);
      return None, definition, verified + more;
    }
    report, run := Confirm(aws, b, verified, more, log, s);
  }

  /** The definition that is registered under that name was described, right after repository and image were found. */
  ghost predicate Described(run: seq<Record>, task: string, definitions: map<string, TaskDef>) {
    task in definitions && exists k :: DescribedAt(run, k, task, definitions[task])
  }

  ghost predicate DescribedAt(run: seq<Record>, k: int, task: string, d: TaskDef) {
    && 2 <= k < |run| && run[k].call == Lookup(task, Some(d))
    && run[k - 2].call == Query(true) && run[k - 1].call == Query(true)
  }

  lemma DescribedWithin(a: seq<Record>, b: seq<Record>, c: seq<Record>, task: string, definitions: map<string, TaskDef>)
    requires Described(b, task, definitions)
    ensures Described(a + b + c, task, definitions)
  {
    var k :| DescribedAt(b, k, task, definitions[task]);
    var all := a + b + c;
    assert forall j | 0 <= j < |b| :: all[|a| + j] == b[j];
    assert DescribedAt(all, |a| + k, task, definitions[task]);
  }

  /** The recheck after the lookups. */
  method Confirm(aws: Aws, b: Report, ghost run: seq<Record>, ghost more: seq<Record>, ghost log: seq<Record>, s: Settings)
    returns (report: Option<Report>, ghost all: seq<Record>)
    requires aws.log == log + (run + more) && ReadOnly(run) && ReadOnly(more)
    requires Verified(run, b, aws.repositoryUri, s.digest, aws.definitions) && Described(more, s.migration, aws.definitions)
    modifies aws`clock, aws`log
    ensures aws.log == log + all && ReadOnly(all)
    ensures report.Some? ==>
      && Cleared(aws.start, log, all, report.value, aws.repositoryUri, s.digest, aws.definitions)
      && Described(all, s.migration, aws.definitions)
    ensures report.None? ==> Changed(all, aws.repositoryUri, s.digest, aws.definitions)
  {
    Extend(run, more, b, aws.repositoryUri, s.digest, aws.definitions);
    var confirmed;
    confirmed, all := Recheck(aws, b, run + more, log, s);
    DescribedWithin(run, more, all[|run + more|..], s.migration, aws.definitions);
    assert run + more + all[|run + more|..] == all;
    report := if confirmed.Some? then Some(b) else None;
  }

  /** The rewritten definition, when there is a base with exactly one migration container. */
  method Derive(aws: Aws, migration: string, image: string)
    returns (found: bool, definition: TaskDef, ghost run: seq<Record>)
    modifies aws`clock, aws`log
    ensures aws.log == old(aws.log) + run && ReadOnly(run) && run != []
    ensures found ==>
      Described(run, migration, aws.definitions) && Replaces(aws.definitions[migration], "migration", image, definition)
    ensures !found ==> run[|run| - 1].call == Query(false) || Underivable(run, migration)
  {
    var current;
    current, run := Lookups(aws, migration);
    found, definition := false, TaskDef([], map[]);
    if current.Some? {
      NextDefinitionReplaces(current.value, "migration", image);
      var next := NextDefinition(current.value, "migration", image);
      if next.Some? {
        found, definition := true, next.value;
      }
    }
  }

  /** Repository, image and base definition; each lookup must succeed. */
  method Lookups(aws: Aws, migration: string) returns (current: Option<TaskDef>, ghost run: seq<Record>)
    modifies aws`clock, aws`log
    ensures aws.log == old(aws.log) + run && ReadOnly(run) && run != []
    ensures run[|run| - 1].call == Query(false) || run[|run| - 1].call == Lookup(migration, current)
    ensures current.Some? ==>
      Described(run, migration, aws.definitions) && current.value == aws.definitions[migration] && run[|run| - 1].call.Lookup?
  {
    current := None;
    var uri := aws.DescribeRepository();
    run := [aws.log[|aws.log| - 1]];
    if uri.None? { return; }
    var known := aws.Succeed();
    run := run + [aws.log[|aws.log| - 1]];
    if !known { return; }
    current := aws.DescribeTaskDefinition(migration);
    run := run + [aws.log[|aws.log| - 1]];
    assert current.Some? ==> DescribedAt(run, 2, migration, current.value);
  }

  const ARN_PREFIX := "arn:aws:ecs:"

  /** The task name in the response of `run-task`, when exactly one task was scheduled. */
  function Scheduled(response: Option<Json>): Option<string> {
    var one := And(Equals(Length(Get(response, "failures")), Int(0)), Equals(Length(Get(response, "tasks")), Int(1)));
    if one != Some(true) then None
    else match Get(First(Get(response, "tasks")), "taskArn")
      case Some(Str(text)) => if Starts(text, ARN_PREFIX) then Some(text) else None
      case _ => None
  }

  /** Waits for the task and reads how it ended; asks for a stop when the wait fails. */
  method AwaitEnd(aws: Aws, task: string) returns (ok: bool, ghost wait: Record, ghost last: Record)
    requires task !in aws.stopped
    modifies aws`clock, aws`log, aws`stopped
    ensures aws.log == old(aws.log) + [wait, last]
    ensures Concluded(task, ok, wait.call, last.call) && Fared(aws, task, wait.call, last.call)
  {
    ok := false;
    var stopped := aws.WaitTaskStopped(task);
    wait := aws.log[|aws.log| - 1];
    if stopped {
      var described := aws.DescribeTasks(task);
      if described.Some? {
        ConfirmedMeans(described.value);
        ok := Confirmed(described.value);
      }
    } else {
      var _, _ := aws.StopTask(task);
    }
    last := aws.log[|aws.log| - 1];
  }

  /** The two calls after the start: the wait, and then the description or the stop. */
  ghost predicate Concluded(task: string, ok: bool, wait: Call, last: Call) {
    || (wait == WaitTask(task, false) && last.Stop? && last.task == task && !ok)
    || (&& wait == WaitTask(task, true) && last.Tasks? && last.task == task
        && (last.response.Some? ==> TruthfulTask(last.response.value, last.fate))
        && (ok <==> last.response.Some? && ExitedZero(last.response.value)))
  }

  /** What the two calls say of the task's fate is so. */
  ghost predicate Fared(aws: Aws, task: string, wait: Call, last: Call)
    reads aws`clock, aws`stopped
  {
    && (last.Tasks? ==> last.fate == aws.FateOf(task))
    && (aws.FateOf(task).Running? <==> wait.WaitTask? && !wait.stopped && last.Stop? && !last.took && !aws.Over(task))
  }

  /**
    What became of the task that the course started, if it started one: it runs the registered
    definition, it runs still exactly when the course left it and it has not ended on its own,
    and after a zero exit status it has exited with zero.
  */
  ghost predicate Accounted(aws: Aws, before: map<string, TaskDef>, c: Course, ok: bool)
    reads aws`clock, aws`stopped, aws`started
  {
    match c.Task()
    case None => aws.started == before && !ok
    case Some(name) =>
      && name !in before && name in aws.started && aws.started == before[name := aws.started[name]]
      && c.run.call.started == Some(aws.started[name])
      && (aws.FateOf(name).Running? <==> LeftRunning(c.Records()) && !aws.Over(name))
      && (ok ==> ExitCodeZero(aws.FateOf(name)))
  }

  /** The task runs the definition of the call that started it, and nobody has stopped it. */
  ghost predicate Begun(aws: Aws, before: map<string, TaskDef>, run: Call, task: string)
    reads aws`started, aws`stopped
  {
    && run.Run? && run.name == Some(task) && task !in before && task !in aws.stopped
    && task in aws.started && aws.started == before[task := aws.started[task]] && run.started == Some(aws.started[task])
  }

  /** Everything after a usable answer: the end of the task, or the attempt to stop it. */
  method SeeThrough(aws: Aws, task: string, ghost registered: Record, ghost run: Record, ghost base: TaskDef,
    ghost confirm: Call, ghost image: string, ghost before: map<string, TaskDef>)
    returns (ok: bool, ghost course: Course)
    requires RunsRegistered(registered.call, run.call, base, image) && Answers(run.call.reply, task)
    requires Begun(aws, before, run.call, task)
    modifies aws`clock, aws`log, aws`stopped
    ensures [registered, run] <= course.Records() && aws.log == old(aws.log) + course.Records()[2..]
    ensures Follows(course, base, confirm, image, ok) && Accounted(aws, before, course, ok)
  {
    ghost var wait, last;
    ok, wait, last := AwaitEnd(aws, task);
    course := if wait.call == WaitTask(task, true) then Ended(registered, run, wait, last)
              else Unconfirmed(registered, run, wait, last);
    assert course.Records()[2..] == [wait, last];
    LeftExactlyWhen(course, base, confirm, image, ok);
    if ok { ZeroIsTrue(last.call.response.value, last.call.fate); }
  }

  /** One task of the registered definition, to a confirmed end. */
  method RunOnce(aws: Aws, next: string, ghost registered: Record, ghost base: TaskDef, ghost confirm: Call, ghost image: string)
    returns (ok: bool, ghost course: Course)
    requires registered.call.Register? && registered.call.answer == Some(next)
    requires Registers(registered.call, base, "migration", image, Some(next))
    requires next in aws.definitions && aws.definitions[next] == registered.call.definition
    modifies aws`clock, aws`log, aws`started, aws`stopped
    ensures [registered] <= course.Records() && aws.log == old(aws.log) + course.Records()[1..]
    ensures Follows(course, base, confirm, image, ok) && Accounted(aws, old(aws.started), course, ok)
  {
    ok := false;
    var response, name := aws.RunTask(next);
    ghost var run := aws.log[|aws.log| - 1];
    var task := Scheduled(response);
    UsableAnswer(response);
    if task.None? {
      course := Unanswered(registered, run);
      assert course.Records()[1..] == [run];
      LeftExactlyWhen(course, base, confirm, image, ok);
    } else {
      AnsweredIsStarted(response.value, name, task.value);
      ok, course := SeeThrough(aws, task.value, registered, run, base, confirm, image, old(aws.started));
      TwoThen(old(aws.log), registered, run, course.Records());
    }
  }

  lemma TwoThen(log: seq<Record>, first: Record, second: Record, records: seq<Record>)
    requires [first, second] <= records
    ensures [first] <= records && log + [second] + records[2..] == log + records[1..]
  {
    assert records[1..] == [second] + records[2..];
  }

  lemma StartedWith(log: seq<Record>, first: Record, records: seq<Record>)
    requires [first] <= records
    ensures log + [first] + records[1..] == log + records
  {
  }

  /** Everything after the recheck: the network settings, the registration and the one task. */
  method Launch(aws: Aws, definition: TaskDef, ghost base: TaskDef, ghost confirm: Call, ghost image: string)
    returns (ok: bool, ghost course: Course)
    requires Replaces(base, "migration", image, definition)
    requires aws.log != [] && aws.log[|aws.log| - 1].call == confirm
    modifies aws`clock, aws`log, aws`definitions, aws`started, aws`stopped
    ensures aws.log == old(aws.log) + course.Records()
    ensures Follows(course, base, confirm, image, ok) && Accounted(aws, old(aws.started), course, ok)
  {
    ok, course := false, NotRun([]);
    var snapshot := aws.log[|aws.log| - 1].call;
    if snapshot.Snap? && snapshot.response.Some? { SubnetsMean(snapshot.response.value); }
    if snapshot.Snap? && snapshot.response.Some? && HasSubnets(snapshot.response.value) {
      var next := aws.RegisterTaskDefinition(definition);
      ghost var registered := aws.log[|aws.log| - 1];
      course := NotRun([registered]);
      if next.Some? {
        ok, course := RunOnce(aws, next.value, registered, base, confirm, image);
        StartedWith(old(aws.log), registered, course.Records());
      }
    }
  }

  /** The whole script. Its exit status is zero exactly when `ok`. */
  method Migrate(aws: Aws, s: Settings)
    returns (ok: bool, report: Option<Report>, ghost cleared: seq<Record>, ghost course: Course)
    modifies aws`clock, aws`log, aws`definitions, aws`started, aws`stopped
    ensures report.None? ==>
      && !ok && aws.log == old(aws.log) + cleared && aws.started == old(aws.started)
      && ReadOnly(cleared) && Unmigratable(cleared, aws.repositoryUri, s, aws.definitions)
    ensures report.Some? ==>
      && Cleared(aws.start, old(aws.log), cleared, report.value, aws.repositoryUri, s.digest, old(aws.definitions))
      && Described(cleared, s.migration, old(aws.definitions))
      && aws.log == old(aws.log) + cleared + course.Records()
      && Follows(course, old(aws.definitions)[s.migration], cleared[|cleared| - 1].call, aws.repositoryUri + "@" + s.digest, ok)
      && Accounted(aws, old(aws.started), course, ok)
  {
    var definition;
    ok, course := false, NotRun([]);
    report, definition, cleared := Clear(aws, s);
    if report.None? { return; }
    ghost var base, confirm := aws.definitions[s.migration], cleared[|cleared| - 1].call;
    ok, course := Launch(aws, definition, base, confirm, aws.repositoryUri + "@" + s.digest);
  }
}
