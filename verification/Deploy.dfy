/**
  The deployment script: gate, recheck, register, update, verify, and roll back on any doubt.
  Every schedule of AWS failures, ambiguous responses and circuit breaker reversions is covered.
*/
module Deploy {
  import opened Common
  import opened Json
  import opened Names
  import opened Baseline
  import opened Cloud
  import opened Gate
  import LockNames

  /** What one run did after the recheck, cut at its updates of the service. */
  datatype Course =
    | Refused(records: seq<Record>)
    | Kept(before: seq<Record>, first: Record, middle: seq<Record>, seen: Record, rest: seq<Record>)
    | Undone(before: seq<Record>, first: Record, middle: seq<Record>, second: Record, rest: seq<Record>)
  {
    function Records(): seq<Record> {
      match this
      case Refused(records) => records
      case Kept(before, first, middle, seen, rest) => before + [first] + middle + [seen] + rest
      case Undone(before, first, middle, second, rest) => before + [first] + middle + [second] + rest
    }

    predicate Calm() { Unmeddled(DriftOf(Records())) }
  }

  predicate Updates(c: Call, task: string, count: int) { c.Update? && c.task == task && c.count == count }

  /** The described definition of the running revision, and its registration under the new name. */
  ghost predicate Registered(before: seq<Record>, b: Report, base: TaskDef, image: string, next: string) {
    && |before| == 2 && before[0].call == Lookup(b.task, Some(base))
    && Registers(before[1].call, base, "inventory", image, Some(next))
  }

  /** No next revision came out: no definition, not one application container, or no valid registered name. */
  ghost predicate Unregistered(records: seq<Record>, b: Report, base: TaskDef, image: string) {
    && 1 <= |records| <= 2 && records[0].call.Lookup? && records[0].call.task == b.task
    && var found := records[0].call.found;
       if |records| == 1 then found.None? || !NamesOne(found.value.containers, "inventory")
       else
         && found == Some(base) && records[1].call.Register?
         && Registers(records[1].call, base, "inventory", image, records[1].call.answer)
         && (records[1].call.answer.None? || !TaskArn(records[1].call.answer.value))
  }

  predicate Fails(c: Call, next: string) {
    c == Wait(false) || (c.Observe? && c != Observe(Some(next))) || c == Probe(false)
  }

  /** An accepted update is waited for, and nothing follows one that is not. */
  predicate Awaited(update: Call, rest: seq<Record>) {
    update.Update? && if update.accepted then |rest| == 1 && rest[0].call.Wait? else rest == []
  }

  /** The reason for a rollback: the first thing after the update that was not as intended. */
  predicate Doubted(first: Record, middle: seq<Record>, next: string) {
    if !first.call.Update? || !first.call.accepted then middle == []
    else middle != [] && Fails(middle[|middle| - 1].call, next)
  }

  /** The shape of a run for report `b`, the described definition `base`, new revision `next` and count `desired`. */
  ghost predicate Follows(c: Course, b: Report, base: TaskDef, image: string, next: string, desired: int, ok: bool) {
    match c
    case Refused(records) => !ok && Unregistered(records, b, base, image)
    case Kept(before, first, middle, seen, rest) =>
      && ok && Registered(before, b, base, image, next) && ReadOnly(middle) && ReadOnly(rest)
      && first.call == Update(next, desired, true, true) && seen.call == Observe(Some(next))
      && middle != [] && middle[0].call == Wait(true)
      && After(Service(b.task, b.count, b.task), before + [first] + middle + [seen]).task == next
      && rest != [] && rest[|rest| - 1].call == Probe(true)
    case Undone(before, first, middle, second, rest) =>
      && !ok && Registered(before, b, base, image, next) && ReadOnly(middle) && ReadOnly(rest)
      && Updates(first.call, next, desired) && Updates(second.call, b.task, b.count) && Doubted(first, middle, next)
      && Awaited(second.call, rest)
  }

  // ---------------------------------------------------------------- where the service ends up

  lemma UnmeddledSplit(d: seq<Drift>, e: seq<Drift>)
    requires Unmeddled(d + e)
    ensures Unmeddled(d) && Unmeddled(e)
  {
    assert d == (d + e)[..|d|] && e == (d + e)[|d|..];
  }

  lemma UnmeddledParts(a: seq<Record>, b: seq<Record>)
    requires Unmeddled(DriftOf(a + b))
    ensures Unmeddled(DriftOf(a)) && Unmeddled(DriftOf(b))
  {
    DriftOfAppend(a, b);
    UnmeddledSplit(DriftOf(a), DriftOf(b));
  }

  /** One update after undisturbed records, and the drift that follows it. */
  lemma AfterUpdate(s: Service, before: seq<Record>, update: Record, rest: seq<Record>)
    requires Inert(before) && Inert(rest) && update.call.Update?
    requires Unmeddled(DriftOf(before + [update] + rest))
    ensures
      var d0 := DriftOf(before + [update]);
      var d1 := DriftOf(rest);
      var settled := if SettlesFirst(d0) then s.task else s.completed;
      var t := if update.call.took then update.call.task else if RevertsFirst(d0) then s.completed else s.task;
      After(s, before + [update] + rest) == Service(
        if RevertsFirst(d1) then settled else t,
        if update.call.took then update.call.count else s.count,
        if SettlesFirst(d1) then t else settled)
  {
    UnmeddledParts(before + [update], rest);
    AfterAppend(s, before + [update], rest);
    assert (before + [update])[..|before|] == before;
    OnlyDriftCounts(s, before);
    DriftOfAppend(before, [update]);
    assert DriftOf([update]) == update.drift + [] == update.drift;
    DriftsAppend(s, DriftOf(before), update.drift);
    FirstDriftDecides(s, DriftOf(before + [update]));
    var s' := After(s, before + [update]);
    OnlyDriftCounts(s', rest);
    FirstDriftDecides(s', DriftOf(rest));
  }

  /**
    A failed deployment whose rollback update took effect: the service has its old count, and
    it runs the old revision unless the abandoned revision had completed before the rollback
    and the circuit breaker then reverted the rollback itself.
  */
  lemma RollbackRestores(c: Course, b: Report, base: TaskDef, image: string, next: string, desired: int)
    requires Follows(c, b, base, image, next, desired, false) && c.Undone? && c.second.call.took && c.Calm()
    ensures
      var t := After(Service(b.task, b.count, b.task), c.Records());
      var abandoned := c.first.call.took && SettlesFirst(DriftOf(c.middle + [c.second])) && RevertsFirst(DriftOf(c.rest));
      && t.count == b.count
      && t.task == (if abandoned then next else b.task)
  {
    var s := Service(b.task, b.count, b.task);
    assert c.Records() == (c.before + [c.first] + []) + (c.middle + [c.second] + c.rest);
    UnmeddledParts(c.before + [c.first] + [], c.middle + [c.second] + c.rest);
    AfterUpdate(s, c.before, c.first, []);
    AfterAppend(s, c.before + [c.first] + [], c.middle + [c.second] + c.rest);
    AfterUpdate(After(s, c.before + [c.first] + []), c.middle, c.second, c.rest);
  }

  /**
    A successful deployment: the desired count is in force, and so is the new revision unless
    the circuit breaker reverts it after the script looked and before it has completed.
  */
  lemma SuccessLasts(c: Course, b: Report, base: TaskDef, image: string, next: string, desired: int)
    requires Follows(c, b, base, image, next, desired, true) && c.Kept? && c.Calm() && next != b.task
    ensures
      var t := After(Service(b.task, b.count, b.task), c.Records());
      var reverted := RevertsFirst(DriftOf(c.rest)) && !SettlesFirst(DriftOf(c.middle + [c.seen]));
      && t.count == desired
      && t.task == (if reverted then b.task else next)
  {
    var s := Service(b.task, b.count, b.task);
    var till := c.before + [c.first] + (c.middle + [c.seen]);
    assert c.Records() == till + c.rest;
    assert till == c.before + [c.first] + c.middle + [c.seen];
    UnmeddledParts(till, c.rest);
    AfterUpdate(s, c.before, c.first, c.middle + [c.seen]);
    AfterAppend(s, till, c.rest);
    OnlyDriftCounts(After(s, till), c.rest);
    FirstDriftDecides(After(s, till), DriftOf(c.rest));
  }

  /** A definition with one application container, and the same with another image. */
  function Plain(image: string): TaskDef { TaskDef([Container(Some("inventory"), image, Null)], map[]) }

  lemma PlainReplaces(from: string, image: string)
    ensures Replaces(Plain(from), "inventory", image, Plain(image))
  {
    assert ReplacesAt(Plain(from), "inventory", image, Plain(image), 0);
  }

  function PlainBefore(b: Report, image: string, next: string): seq<Record> {
    [Record([], Lookup(b.task, Some(Plain("")))), Record([], Register(Plain(image), true, Some(next)))]
  }

  function Reverted(b: Report, image: string, next: string, desired: int): Course {
    Undone(PlainBefore(b, image, next), Record([], Update(next, desired, true, true)), [Record([Settles], Wait(false))],
           Record([], Update(b.task, b.count, true, true)), [Record([Reverts], Wait(true))])
  }

  lemma RevertedDrift(b: Report, image: string, next: string, desired: int)
    ensures var c := Reverted(b, image, next, desired);
            && DriftOf(c.middle + [c.second]) == [Settles] && DriftOf(c.rest) == [Reverts]
            && DriftOf(c.Records()) == [Settles, Reverts]
  {
    var c := Reverted(b, image, next, desired);
    DriftOfQuiet(c.before + [c.first]);
    DriftOfOne(c.middle[0]);
    DriftOfOne(c.second);
    DriftOfOne(c.rest[0]);
    DriftOfAppend(c.middle, [c.second]);
    DriftOfAppend(c.before + [c.first], c.middle + [c.second]);
    DriftOfAppend(c.before + [c.first] + (c.middle + [c.second]), c.rest);
    assert c.Records() == c.before + [c.first] + (c.middle + [c.second]) + c.rest;
  }

  /** It happens: the abandoned revision completes while the script gives up on it, and the rollback is reverted. */
  lemma RollbackCanBeUndone(b: Report, image: string, next: string, desired: int) returns (c: Course)
    ensures Follows(c, b, Plain(""), image, next, desired, false) && c.Undone? && c.second.call.took && c.Calm()
    ensures After(Service(b.task, b.count, b.task), c.Records()).task == next
  {
    PlainReplaces("", image);
    c := Reverted(b, image, next, desired);
    RevertedDrift(b, image, next, desired);
    RollbackRestores(c, b, Plain(""), image, next, desired);
  }

  function ShortLived(b: Report, image: string, next: string, desired: int): Course {
    Kept(PlainBefore(b, image, next), Record([], Update(next, desired, true, true)), [Record([], Wait(true))],
         Record([], Observe(Some(next))), [Record([Reverts], Probe(true))])
  }

  lemma ShortLivedDrift(b: Report, image: string, next: string, desired: int)
    ensures var c := ShortLived(b, image, next, desired);
            && DriftOf(c.middle + [c.seen]) == [] && DriftOf(c.rest) == [Reverts] && DriftOf(c.Records()) == [Reverts]
            && DriftOf(c.before + [c.first] + (c.middle + [c.seen])) == []
  {
    var c := ShortLived(b, image, next, desired);
    DriftOfQuiet(c.middle + [c.seen]);
    DriftOfQuiet(c.before + [c.first] + (c.middle + [c.seen]));
    DriftOfOne(c.rest[0]);
    DriftOfAppend(c.before + [c.first] + (c.middle + [c.seen]), c.rest);
    assert c.Records() == c.before + [c.first] + (c.middle + [c.seen]) + c.rest;
  }

  lemma ShortLivedSeen(b: Report, image: string, next: string, desired: int)
    ensures var c := ShortLived(b, image, next, desired);
            After(Service(b.task, b.count, b.task), c.before + [c.first] + c.middle + [c.seen]).task == next
  {
    var c := ShortLived(b, image, next, desired);
    ShortLivedDrift(b, image, next, desired);
    AfterUpdate(Service(b.task, b.count, b.task), c.before, c.first, c.middle + [c.seen]);
    assert c.before + [c.first] + (c.middle + [c.seen]) == c.before + [c.first] + c.middle + [c.seen];
  }

  /** It happens: the breaker reverts a revision that was seen in force but had not completed. */
  lemma SuccessCanBeReverted(b: Report, image: string, next: string, desired: int) returns (c: Course)
    requires next != b.task
    ensures Follows(c, b, Plain(""), image, next, desired, true) && c.Kept? && c.Calm()
    ensures After(Service(b.task, b.count, b.task), c.Records()).task == b.task
  {
    PlainReplaces("", image);
    c := ShortLived(b, image, next, desired);
    ShortLivedDrift(b, image, next, desired);
    ShortLivedSeen(b, image, next, desired);
    SuccessLasts(c, b, Plain(""), image, next, desired);
  }

  // ---------------------------------------------------------------- the script

  /** The gate, the repository lookup and the recheck: nothing is changed up to here. */
  method Clear(aws: Aws, s: Settings) returns (report: Option<Report>, ghost run: seq<Record>)
    modifies aws`clock, aws`log
    ensures aws.log == old(aws.log) + run && ReadOnly(run)
    ensures report.Some? ==>
      && Cleared(aws.start, old(aws.log), run, report.value, aws.repositoryUri, s.digest, aws.definitions)
      && KnownBefore(run)
    ensures report.None? ==> Refuses(run, aws.repositoryUri, s) || Changed(run, aws.repositoryUri, s.digest, aws.definitions)
  {
    report, run := Verify(aws, s);
    if report.None? { return; }
    report, run := Confirmed(aws, report.value, run, old(aws.log), s);
  }

  /** The lookups and the recheck, for a verified report. */
  method Confirmed(aws: Aws, b: Report, ghost verified: seq<Record>, ghost log: seq<Record>, s: Settings)
    returns (report: Option<Report>, ghost run: seq<Record>)
    requires aws.log == log + verified && ReadOnly(verified)
    requires Verified(verified, b, aws.repositoryUri, s.digest, aws.definitions)
    modifies aws`clock, aws`log
    ensures aws.log == log + run && ReadOnly(run)
    ensures report.Some? ==>
      && Cleared(aws.start, log, run, report.value, aws.repositoryUri, s.digest, aws.definitions) && KnownBefore(run)
    ensures report.None? ==> Refuses(run, aws.repositoryUri, s) || Changed(run, aws.repositoryUri, s.digest, aws.definitions)
  {
    var found, more := Lookups(aws);
    Joined(log, verified, more);
    if !found { return None, verified + more; }
    Extend(verified, more, b, aws.repositoryUri, s.digest, aws.definitions);
    var confirmed;
    confirmed, run := Recheck(aws, b, verified + more, log, s);
    KnownThen(verified, more, run);
    report := if confirmed.Some? then Some(b) else None;
  }

  /** Repository and image were found right before the last record. */
  ghost predicate KnownBefore(run: seq<Record>) { |run| >= 3 && AllTrue(run[|run| - 3..|run| - 1]) }

  lemma KnownThen(verified: seq<Record>, more: seq<Record>, run: seq<Record>)
    requires AllTrue(more) && |more| == 2 && verified + more <= run && |run| == |verified + more| + 1
    ensures KnownBefore(run)
  {
    assert run[|run| - 3..|run| - 1] == (verified + more)[|verified|..] == more;
  }

  /** Repository and image; both lookups must succeed. */
  method Lookups(aws: Aws) returns (found: bool, ghost run: seq<Record>)
    modifies aws`clock, aws`log
    ensures aws.log == old(aws.log) + run && ReadOnly(run) && run != []
    ensures run[|run| - 1].call == Query(found)
    ensures found ==> AllTrue(run) && |run| == 2
  {
    var uri := aws.DescribeRepository();
    found, run := uri.Some?, [aws.log[|aws.log| - 1]];
    if found {
      found := aws.Succeed();
      run := run + [aws.log[|aws.log| - 1]];
    }
  }

  /** Derives the next definition from the running one and registers it. */
  method RegisterNext(aws: Aws, b: Report, image: string)
    returns (next: Option<string>, ghost base: TaskDef, ghost before: seq<Record>)
    modifies aws`clock, aws`log, aws`definitions
    ensures aws.log == old(aws.log) + before
    ensures next.Some? ==>
      && b.task in old(aws.definitions) && base == old(aws.definitions)[b.task]
      && Registered(before, b, base, image, next.value) && TaskArn(next.value) && next.value !in old(aws.definitions)
      && aws.definitions == old(aws.definitions)[next.value := before[1].call.definition]
    ensures next.None? ==> Unregistered(before, b, base, image)
  {
    var current := aws.DescribeTaskDefinition(b.task);
    before := [aws.log[|aws.log| - 1]];
    next, base := None, TaskDef([], map[]);
    if current.None? { return; }
    base := current.value;
    var definition := NextDefinition(current.value, "inventory", image);
    NextDefinitionReplaces(base, "inventory", image);
    if definition.None? { return; }
    next := aws.RegisterTaskDefinition(definition.value);
    before := before + [aws.log[|aws.log| - 1]];
    if next.Some? && !TaskArn(next.value) {
      next := None;
    }
  }

  /** Restores the verified revision and count; a failed update ends the script at once. */
  method Rollback(aws: Aws, b: Report) returns (ghost second: Record, ghost rest: seq<Record>)
    modifies aws`clock, aws`log
    ensures aws.log == old(aws.log) + [second] + rest && ReadOnly(rest)
    ensures Updates(second.call, b.task, b.count) && Awaited(second.call, rest)
  {
    var ok := aws.UpdateService(b.task, b.count);
    second, rest := aws.log[|aws.log| - 1], [];
    if ok {
      var _ := aws.WaitServicesStable();
      rest := [aws.log[|aws.log| - 1]];
    }
  }

  /** Everything after the update was accepted: stability, the intended revision, readiness. */
  method Confirm(aws: Aws, next: string)
    returns (ok: bool, ghost middle: seq<Record>, ghost seen: Record, ghost rest: seq<Record>)
    modifies aws`clock, aws`log
    ensures !ok ==>
      aws.log == old(aws.log) + middle && ReadOnly(middle) && middle != [] && Fails(middle[|middle| - 1].call, next)
    ensures ok ==>
      && aws.log == old(aws.log) + middle + [seen] + rest && ReadOnly(middle) && ReadOnly(rest)
      && seen.call == Observe(Some(next)) && After(aws.start, old(aws.log) + middle + [seen]).task == next
      && middle != [] && middle[0].call == Wait(true) && rest != [] && rest[|rest| - 1].call == Probe(true)
  {
    ok, middle, rest := false, [], [];
    var stable := aws.WaitServicesStable();
    middle := [aws.log[|aws.log| - 1]];
    seen := middle[0];
    if !stable { return; }
    var current := aws.DescribeCurrentTask();
    seen := aws.log[|aws.log| - 1];
    ghost var here := aws.log;
    assert here == old(aws.log) + middle + [seen];
    if current != Some(next) {
      middle := middle + [seen];
      return;
    }
    var reply := aws.Readiness();
    if reply.Some? { UpMeans(reply.value.0, reply.value.1); }
    rest := [aws.log[|aws.log| - 1]];
    if reply.None? || reply.value.0 != "200" || !Up(reply.value.0, reply.value.1) {
      middle := middle + [seen] + rest;
      return;
    }
    ok := true;
  }

  method Rollout(aws: Aws, b: Report, next: string, desired: int)
    returns (ok: bool, ghost first: Record, ghost middle: seq<Record>, ghost last: Record, ghost rest: seq<Record>)
    modifies aws`clock, aws`log
    ensures aws.log == old(aws.log) + [first] + middle + [last] + rest && ReadOnly(middle) && ReadOnly(rest)
    ensures Updates(first.call, next, desired)
    ensures ok ==>
      && first.call.took && first.call.accepted && last.call == Observe(Some(next))
      && After(aws.start, old(aws.log) + [first] + middle + [last]).task == next
      && middle != [] && middle[0].call == Wait(true) && rest != [] && rest[|rest| - 1].call == Probe(true)
    ensures !ok ==> Updates(last.call, b.task, b.count) && Doubted(first, middle, next) && Awaited(last.call, rest)
  {
    ok := aws.UpdateService(next, desired);
    first, middle := aws.log[|aws.log| - 1], [];
    if ok {
      ok, middle, last, rest := Confirm(aws, next);
    }
    if !ok {
      last, rest := Rollback(aws, b);
    }
  }

  /** The rollout as a course of the run that follows the recheck. */
  method Release(aws: Aws, b: Report, next: string, desired: int,
    ghost log: seq<Record>, ghost before: seq<Record>, ghost base: TaskDef, ghost image: string)
    returns (ok: bool, ghost course: Course)
    requires aws.log == log + before && Registered(before, b, base, image, next)
    requires After(aws.start, log) == Service(b.task, b.count, b.task)
    modifies aws`clock, aws`log
    ensures aws.log == log + course.Records() && Follows(course, b, base, image, next, desired, ok) && !course.Refused?
  {
    ghost var first, middle, last, rest;
    ok, first, middle, last, rest := Rollout(aws, b, next, desired);
    Laid(log, before, [first], middle, [last], rest);
    AfterAppend(aws.start, log, before + [first] + middle + [last]);
    course := if ok then Kept(before, first, middle, last, rest) else Undone(before, first, middle, last, rest);
  }

  predicate Deployable(s: Settings) {
    Configured(s) && Starts(s.url, "https://") && 1 <= DesiredCount(s.desired) <= 4
  }

  /** The count that is asked for: a number from 1 to 4 in decimal, or nothing for 1. */
  ghost predicate Asks(desired: string, n: int) {
    1 <= n <= 4 && if desired == "" then n == 1 else desired == LockNames.Decimal(n)
  }

  /** The settings under which a deployment is tried. */
  ghost predicate Permitted(s: Settings) {
    ProperSettings(s) && (exists host :: s.url == "https://" + host) && exists n :: Asks(s.desired, n)
  }

  lemma CountMeans(desired: string, n: int)
    ensures 1 <= n <= 4 && DesiredCount(desired) == n <==> Asks(desired, n)
  {
    if 1 <= n <= 4 { assert LockNames.Decimal(n) == [LockNames.DigitChar(n)]; }
  }

  /** The script refuses for its settings exactly when they are incomplete, not secure or ask for no count from 1 to 4. */
  lemma DeployableMeans(s: Settings)
    ensures Deployable(s) <==> Permitted(s)
  {
    SettingsMean(s);
    CountMeans(s.desired, DesiredCount(s.desired));
    if Starts(s.url, "https://") { assert s.url == "https://" + s.url[8..]; }
    if n :| Asks(s.desired, n) { CountMeans(s.desired, n); }
  }

  /** The new revision is a fresh name for the running one's definition with only the image replaced. */
  ghost predicate NewRevision(before: map<string, TaskDef>, after: map<string, TaskDef>, b: Report, base: TaskDef, image: string,
    next: string)
  {
    && b.task in before && base == before[b.task] && TaskArn(next) && next !in before
    && next in after && Replaces(base, "inventory", image, after[next]) && after == before[next := after[next]]
  }

  /** The whole script. Its exit status is zero exactly when `ok`. */
  method Deploy(aws: Aws, s: Settings)
    returns (ok: bool, report: Option<Report>, ghost cleared: seq<Record>,
      ghost base: TaskDef, ghost next: string, ghost desired: int, ghost course: Course)
    modifies aws`clock, aws`log, aws`definitions
    ensures report.None? ==> !ok && aws.log == old(aws.log) + cleared && ReadOnly(cleared)
    ensures report.None? ==>
      || !Permitted(s)
      || Refuses(cleared, aws.repositoryUri, s) || Changed(cleared, aws.repositoryUri, s.digest, aws.definitions)
    ensures report.Some? ==>
      var b := report.value;
      && Permitted(s) && Asks(s.desired, desired)
      && Cleared(aws.start, old(aws.log), cleared, b, aws.repositoryUri, s.digest, old(aws.definitions)) && KnownBefore(cleared)
      && aws.log == old(aws.log) + cleared + course.Records()
      && aws.Now() == After(Service(b.task, b.count, b.task), course.Records())
      && Follows(course, b, base, aws.repositoryUri + "@" + s.digest, next, desired, ok)
      && (!course.Refused? ==>
            NewRevision(old(aws.definitions), aws.definitions, b, base, aws.repositoryUri + "@" + s.digest, next))
  {
    ok, report, cleared, base, next, course := false, None, [], TaskDef([], map[]), "", Refused([]);
    desired := DesiredCount(s.desired);
    DeployableMeans(s);
    CountMeans(s.desired, desired);
    if !Deployable(s) { return; }
    report, cleared := Clear(aws, s);
    if report.None? { return; }
    var b := report.value;
    ghost var log := aws.log;
    var task;
    ghost var before;
    task, base, before := RegisterNext(aws, b, aws.repositoryUri + "@" + s.digest);
    if task.None? {
      course := Refused(before);
    } else {
      next := task.value;
      ok, course := Release(aws, b, task.value, DesiredCount(s.desired), log, before, base, aws.repositoryUri + "@" + s.digest);
    }
    AfterAppend(aws.start, log, course.Records());
  }

  lemma Laid(log: seq<Record>, a: seq<Record>, b: seq<Record>, c: seq<Record>, d: seq<Record>, e: seq<Record>)
    ensures log + a + b + c + d + e == log + (a + b + c + d + e)
    ensures log + a + b + c + d == log + (a + b + c + d)
  {
  }

  /** `DESIRED_COUNT`, one when unset, zero when it is not a single digit from 1 to 4. */
  function DesiredCount(desired: string): int {
    if desired == "" then 1
    else if |desired| == 1 && '1' <= desired[0] <= '4' then desired[0] as int - '0' as int
    else 0
  }
}
