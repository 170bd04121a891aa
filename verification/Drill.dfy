/** The drill fixture: it tracks what it may have created, and removes nothing else. */
module Drill {
  import opened Common
  import opened Names
  import opened Docker
  import LockNames

  predicate Zero(c: char) { c == '0' }

  const PURPOSE := "disposable-local-verification"

  // ---------------------------------------------------------------- what the engine's log shows

  predicate Migrates(a: Act, database: string) { a.Launched? && a.job.Migration? && a.job.database == database }

  /**
    The job launched at `i` migrated the database with that password, its container was waited
    for with a zero exit code, was then inspected as exited with zero, and no migration of that
    database was launched after it.
  */
  ghost predicate ConfirmedAt(log: seq<Act>, database: string, password: string, i: int, j: int, k: int) {
    && 0 <= i < j < k < |log|
    && log[i].Launched? && log[i].job == Migration(database, password)
    && log[j].Waited? && log[j].name == log[i].name && log[j].code != "" && All(log[j].code, Zero)
    && log[k].Inspected? && log[k].what == Resource(Container, log[i].name) && log[k].state == RunState("exited", 0)
    && forall m | i < m < |log| :: !Migrates(log[m], database)
  }

  /** The latest launched migration of the database used that password and was confirmed. */
  ghost predicate Backed(log: seq<Act>, database: string, password: string) {
    exists i, j, k :: ConfirmedAt(log, database, password, i, j, k)
  }

  /** There is only one such password. */
  lemma OnePassword(log: seq<Act>, database: string, p: string, q: string)
    requires Backed(log, database, p) && Backed(log, database, q)
    ensures p == q
  {
    var i, j, k :| ConfirmedAt(log, database, p, i, j, k);
    var i', j', k' :| ConfirmedAt(log, database, q, i', j', k');
    assert Migrates(log[i], database) && Migrates(log[i'], database);
  }

  /** Every application that was launched got the password of the migration that backed its database then. */
  ghost predicate StartsAreBacked(log: seq<Act>) {
    log == [] ||
      var n := |log| - 1;
      && StartsAreBacked(log[..n])
      && (log[n].Launched? && log[n].job.App? ==> Backed(log[..n], log[n].job.database, log[n].job.password))
  }

  lemma {:induction false} StartWasBacked(log: seq<Act>, k: nat)
    requires StartsAreBacked(log) && k < |log| && log[k].Launched? && log[k].job.App?
    ensures Backed(log[..k], log[k].job.database, log[k].job.password)
  {
    var n := |log| - 1;
    if k < n {
      StartWasBacked(log[..n], k);
      assert log[..n][..k] == log[..k];
    }
  }

  ghost predicate MarksAreBacked(log: seq<Act>, prepared: set<string>, passwords: map<string, string>) {
    forall database | database in prepared :: database in passwords && Backed(log, database, passwords[database])
  }

  /** A launch that the marks allow. */
  predicate Allowed(job: Job, prepared: set<string>, passwords: map<string, string>) {
    match job
    case Database => true
    case Migration(database, _) => database !in prepared
    case App(database, password) => database in prepared && database in passwords && passwords[database] == password
  }

  lemma StillBacked(log: seq<Act>, a: Act, database: string, password: string)
    requires Backed(log, database, password) && !Migrates(a, database)
    ensures Backed(log + [a], database, password)
  {
    var i, j, k :| ConfirmedAt(log, database, password, i, j, k);
    assert forall m | 0 <= m < |log| :: (log + [a])[m] == log[m];
    assert ConfirmedAt(log + [a], database, password, i, j, k);
  }

  lemma StartsGrow(log: seq<Act>, a: Act)
    requires StartsAreBacked(log)
    requires a.Launched? && a.job.App? ==> Backed(log, a.job.database, a.job.password)
    ensures StartsAreBacked(log + [a])
  {
    assert (log + [a])[..|log|] == log;
  }

  /** One more act keeps the account straight, if it is an allowed launch or no launch at all. */
  lemma ActKeeps(log: seq<Act>, a: Act, prepared: set<string>, passwords: map<string, string>)
    requires StartsAreBacked(log) && MarksAreBacked(log, prepared, passwords)
    requires a.Launched? ==> Allowed(a.job, prepared, passwords)
    ensures StartsAreBacked(log + [a]) && MarksAreBacked(log + [a], prepared, passwords)
  {
    StartsGrow(log, a);
    forall database | database in prepared ensures Backed(log + [a], database, passwords[database]) {
      StillBacked(log, a, database, passwords[database]);
    }
  }

  lemma MarkConfirmed(log: seq<Act>, prepared: set<string>, passwords: map<string, string>, database: string, password: string)
    requires MarksAreBacked(log, prepared, passwords) && Backed(log, database, password)
    ensures MarksAreBacked(log, prepared + {database}, passwords[database := password])
  {
  }

  /** Only answers were added. */
  ghost predicate Quiet(before: seq<Act>, after: seq<Act>) { Adds(before, after, None) }

  /** Only answers and launches of one job under one name were added. */
  ghost predicate Adds(before: seq<Act>, after: seq<Act>, launch: Option<Act>) {
    && before <= after
    && forall k | |before| <= k < |after| :: IsAnswer(after[k]) || Some(after[k]) == launch
  }

  predicate IsAnswer(a: Act) { a.Inspected? || a.Waited? || a.Answered? }

  lemma LaunchAdds(before: seq<Act>, after: seq<Act>, launch: Act)
    requires Quiet(before + [launch], after)
    ensures Adds(before, after, Some(launch)) && |before| < |after| && after[|before|] == launch
  {
    assert after[|before|] == (before + [launch])[|before|];
  }

  lemma AddsThen(a: seq<Act>, b: seq<Act>, c: seq<Act>, launch: Option<Act>)
    requires Adds(a, b, launch) || Quiet(a, b)
    requires Adds(b, c, launch) || Quiet(b, c)
    ensures Adds(a, c, launch)
    ensures Quiet(a, b) && Quiet(b, c) ==> Quiet(a, c)
  {
  }

  /** The act is among the added ones. */
  ghost predicate Shows(before: seq<Act>, after: seq<Act>, a: Act) {
    exists k :: |before| <= k < |after| && after[k] == a
  }

  /** The new entries end with an inspection of the resource in that state. */
  ghost predicate LastSeen(before: seq<Act>, after: seq<Act>, what: Resource, state: RunState) {
    exists item | |before| < |after| :: after[|after| - 1] == Inspected(what, item, state)
  }

  predicate Vouches(a: Act, what: Resource, run: string) {
    a.Inspected? && a.what == what && a.item.owner == Some(run) && a.item.purpose == Some("disposable-local-verification")
  }

  /** The new entries begin with an inspection of the resource that showed both labels of the run. */
  ghost predicate Vouched(before: seq<Act>, after: seq<Act>, what: Resource, run: string) {
    |before| < |after| && Vouches(after[|before|], what, run)
  }

  lemma VouchedStays(before: seq<Act>, seen: seq<Act>, after: seq<Act>, what: Resource, run: string)
    requires Vouched(before, seen, what, run) && seen <= after
    ensures Vouched(before, after, what, run)
  {
    assert after[|before|] == seen[|before|];
  }

  /** The container was launched for that job, and at last it answered. */
  ghost predicate Served(before: seq<Act>, after: seq<Act>, name: string, image: string, job: Job) {
    Shows(before, after, Launched(name, image, job)) && after[|after| - 1] == Answered(name)
  }

  lemma ServedThen(before: seq<Act>, launched: seq<Act>, after: seq<Act>, name: string, image: string, job: Job)
    requires |before| < |launched| && launched[|before|] == Launched(name, image, job) && launched <= after
    requires after[|after| - 1] == Answered(name)
    ensures Served(before, after, name, image, job)
  {
    assert after[|before|] == launched[|before|];
  }

  /** The resource was listed while its creation was still outstanding. */
  ghost predicate Missed(before: seq<Act>, after: seq<Act>, what: Resource) { Shows(before, after, Listed(what, false, true)) }

  /** The entry shows that the resource is not there, or that its removal was confirmed. */
  predicate ShowsGone(a: Act, what: Resource) {
    (a.Listed? && a.what == what && !a.found) || (a.Removed? && a.what == what && a.confirmed)
  }

  ghost predicate Gone(before: seq<Act>, after: seq<Act>, what: Resource) {
    exists k :: |before| <= k < |after| && ShowsGone(after[k], what)
  }

  lemma GoneSplit(a: seq<Act>, b: seq<Act>, c: seq<Act>, what: Resource)
    requires a <= b <= c
    ensures Gone(a, c, what) <==> Gone(a, b, what) || Gone(b, c, what)
  {
    if Gone(a, c, what) {
      var k :| |a| <= k < |c| && ShowsGone(c[k], what);
      assert k < |b| ==> b[k] == c[k];
    }
    if Gone(a, b, what) {
      var k :| |a| <= k < |b| && ShowsGone(b[k], what);
      assert b[k] == c[k];
    }
  }

  /** New listings and removals concern that resource only. */
  ghost predicate OnlyAbout(before: seq<Act>, after: seq<Act>, what: Resource) {
    before <= after && forall k | |before| <= k < |after| && (after[k].Listed? || after[k].Removed?) :: after[k].what == what
  }

  lemma MissedSplit(a: seq<Act>, b: seq<Act>, c: seq<Act>, what: Resource)
    requires a <= b <= c
    ensures Missed(a, c, what) <==> Missed(a, b, what) || Missed(b, c, what)
  {
    if Missed(a, c, what) {
      var k :| |a| <= k < |c| && c[k] == Listed(what, false, true);
      assert k < |b| ==> b[k] == c[k];
    }
  }

  lemma {:induction false} DecimalZero(n: nat)
    ensures LockNames.Decimal(n) != "" && All(LockNames.Decimal(n), Digit)
    ensures All(LockNames.Decimal(n), Zero) <==> n == 0
  {
    var s := LockNames.Decimal(n);
    assert forall k | 0 <= k < |s| :: s[k] in s;
    if n >= 10 {
      DecimalZero(n / 10);
      assert forall k | 0 <= k < |s| - 1 :: s[k] == LockNames.Decimal(n / 10)[k];
    } else {
      assert s[0] == LockNames.DigitChar(n);
    }
  }

  /** Since position `n`, a job under that name migrated the database and was confirmed. */
  ghost predicate Ran(log: seq<Act>, n: nat, name: string, database: string, password: string) {
    exists i, j, k :: n <= i && ConfirmedAt(log, database, password, i, j, k) && log[i].name == name
  }

  function Containers(names: seq<string>): set<Resource> { set name | name in names :: Resource(Container, name) }

  lemma NamedOnce(names: seq<string>, i: nat)
    requires i < |names| && multiset(names)[names[i]] <= 1
    ensures Resource(Container, names[i]) !in Containers(names[i + 1..])
    ensures Containers(names[i..]) == Containers(names[i + 1..]) + {Resource(Container, names[i])}
  {
    assert names == names[..i] + [names[i]] + names[i + 1..];
    assert names[i..] == [names[i]] + names[i + 1..];
  }

  datatype MigrationRun = MigrationRun(role: string, exitCode: string)

  class Fixture {
    const engine: Engine
    const prefix: string
    const image: string
    const databaseImage: string
    const initialPassword: string
    var containers: seq<string>
    var networkCreated: bool
    var prepared: set<string>
    var passwords: map<string, string>
    var migrationRuns: seq<MigrationRun>

    constructor (engine: Engine, prefix: string, image: string, databaseImage: string, initialPassword: string)
      requires engine.mine == map[] && engine.log == []
      ensures Valid() && this.engine == engine && containers == [] && prepared == {}
    {
      this.engine, this.prefix, this.image, this.databaseImage := engine, prefix, image, databaseImage;
      this.initialPassword := initialPassword;
      containers, networkCreated, prepared, passwords, migrationRuns := [], false, {}, map[], [];
    }

    function NetworkName(): string { prefix + "-network" }

    function Labelled(image: string): Item { Item(Some(engine.run), Some(PURPOSE), image) }

    predicate Tracked(what: Resource)
      reads this
    {
      match what.kind
      case Container => what.name in containers
      case Network => what.name == NetworkName() && networkCreated
    }

    /** What the fixture took away carried both labels and was on its list. */
    ghost predicate OnlyOwnRemoved()
      reads this, engine
    {
      forall k | 0 <= k < |engine.log| && engine.log[k].Removed? ::
        && Tracked(engine.log[k].what)
        && engine.log[k].item.owner == Some(engine.run) && engine.log[k].item.purpose == Some("disposable-local-verification")
    }

    /** Whatever the run created, or may yet have created, is on the list. */
    ghost predicate MineTracked()
      reads this, engine
    {
      forall r | r in engine.mine ::
        Tracked(r) && engine.mine[r].item.owner == Some(engine.run) && engine.mine[r].item.purpose == Some(PURPOSE)
    }

    ghost predicate Valid()
      reads this, engine
    {
      && (forall name | name in containers :: Starts(name, prefix + "-"))
      && (forall name :: multiset(containers)[name] <= 1)
      && MineTracked() && OnlyOwnRemoved()
      && StartsAreBacked(engine.log) && MarksAreBacked(engine.log, prepared, passwords)
    }

    /** The engine works from now on, and nobody else's names contain the fixture's prefix. */
    ghost predicate Obliging()
      reads engine`clock
    {
      engine.Obliging(prefix)
    }

    lemma Unclaimed(what: Resource, a: Answer)
      requires Starts(what.name, prefix + "-") && Obliges(a, prefix)
      ensures what !in a.others
    {
      assert what.name[..|prefix|] == (prefix + "-")[..|prefix|] == prefix;
      StartContains(what.name, prefix);
    }

    lemma Working()
      ensures Obliging() ==> Works(engine.schedule(engine.clock))
    {
      if Obliging() { assert Obliges(engine.schedule(engine.clock), prefix); }
    }

    /** Remembers the attempt before the engine answers. */
    method CreateNetwork() returns (ok: bool)
      requires Valid()
      modifies this`networkCreated, engine`clock, engine`others, engine`mine, engine`log
      ensures Valid() && networkCreated
      ensures ok ==> engine.Ours(Resource(Network, prefix + "-network"))
      ensures engine.clock == old(engine.clock) + 1
      ensures var a, network := engine.schedule(old(engine.clock)), Resource(Network, NetworkName());
        a.effect.Later? && network !in a.others && network !in old(engine.mine) ==>
          network in engine.mine && engine.mine[network].stage.Coming?
    {
      networkCreated := true;
      ghost var log := engine.log;
      ok := engine.Create(Resource(Network, NetworkName()), Labelled(""));
      ActKeeps(log, Created(Resource(Network, NetworkName()), Labelled("")), prepared, passwords);
    }

    lemma TrackedNames(what: Resource)
      requires Valid()
      ensures Tracked(what) ==> Starts(what.name, prefix + "-")
    {
    }

    /** The ownership check before every use of a resource; an answered inspection ends the log. */
    method Owned(what: Resource) returns (state: Option<RunState>)
      requires Valid()
      modifies engine`clock, engine`others, engine`mine, engine`log
      ensures Valid() && Ages(old(engine.mine), engine.mine) && Quiet(old(engine.log), engine.log)
      ensures engine.Outstanding(old(engine.mine), engine.mine)
      ensures state.Some? ==> Tracked(what) && engine.Shown(what, state.value)
      ensures state.Some? ==> LastSeen(old(engine.log), engine.log, what, state.value)
      ensures state.Some? ==> Vouched(old(engine.log), engine.log, what, engine.run)
      ensures engine.clock >= old(engine.clock)
      ensures old(Obliging() && Tracked(what) && engine.Ours(what)) ==>
        state.Some? && (old(engine.Runs(what)) ==> engine.Runs(what))
    {
      TrackedNames(what);
      Working();
      state := None;
      if Starts(what.name, prefix + "-") && Tracked(what) {
        ghost var log := engine.log;
        var found := engine.Inspect(what);
        if found.Some? {
          ActKeeps(log, Inspected(what, found.value.0, found.value.1), prepared, passwords);
          if found.value.0.owner == Some(engine.run) && found.value.0.purpose == Some(PURPOSE) {
            state := Some(found.value.1);
          }
        }
      }
    }

    /** The launch of a tracked container. */
    method Launch(name: string, image: string, job: Job) returns (ok: bool)
      requires Valid() && Allowed(job, prepared, passwords) && Tracked(Resource(Container, name))
      modifies engine`clock, engine`others, engine`mine, engine`log
      ensures Valid() && engine.log == old(engine.log) + [Launched(name, image, job)] && engine.clock == old(engine.clock) + 1
      ensures old(engine.mine).Keys <= engine.mine.Keys
      ensures ok ==> Running(name)
      ensures old(Obliging()) && Resource(Container, name) !in old(engine.mine) ==> ok
    {
      TrackedNames(Resource(Container, name));
      if Obliging() { Unclaimed(Resource(Container, name), engine.schedule(engine.clock)); }
      ActKeeps(engine.log, Launched(name, image, job), prepared, passwords);
      ok := engine.Launch(name, Labelled(image), job);
    }

    /** The launch and the ownership check behind it. */
    method Start(name: string, image: string, job: Job) returns (ok: bool)
      requires Valid() && Allowed(job, prepared, passwords) && Tracked(Resource(Container, name))
      modifies engine`clock, engine`others, engine`mine, engine`log
      ensures Valid() && Quiet(old(engine.log) + [Launched(name, image, job)], engine.log)
      ensures old(engine.mine).Keys <= engine.mine.Keys && engine.clock >= old(engine.clock)
      ensures old(Obliging()) && Resource(Container, name) !in old(engine.mine) ==> ok && Running(name)
    {
      ok := Launch(name, image, job);
      if ok {
        var state := Owned(Resource(Container, name));
        ok := state.Some?;
      }
    }

    /** The container is tracked and exists. */
    ghost predicate Live(name: string)
      reads this, engine
    {
      Tracked(Resource(Container, name)) && engine.Ours(Resource(Container, name))
    }

    /** And it has not exited. */
    ghost predicate Running(name: string)
      reads this, engine
    {
      Live(name) && engine.Runs(Resource(Container, name))
    }

    /** Tracks the name first, so that a container whose start was not confirmed is still cleaned up. */
    method RunContainer(role: string, image: string, job: Job) returns (name: Option<string>)
      requires Valid() && Allowed(job, prepared, passwords)
      modifies this`containers, engine`clock, engine`others, engine`mine, engine`log
      ensures Valid()
      ensures containers == old(containers) || containers == old(containers) + [prefix + "-" + role]
      ensures Adds(old(engine.log), engine.log, Some(Launched(prefix + "-" + role, image, job)))
      ensures name.Some? ==>
        && name.value == prefix + "-" + role && |old(engine.log)| < |engine.log|
        && engine.log[|old(engine.log)|] == Launched(name.value, image, job)
        && Quiet(old(engine.log) + [Launched(name.value, image, job)], engine.log)
      ensures engine.clock >= old(engine.clock)
      ensures old(engine.mine).Keys <= engine.mine.Keys
      ensures old(Obliging()) && prefix + "-" + role !in old(containers) ==> name.Some? && Running(name.value)
    {
      name := None;
      var chosen := prefix + "-" + role;
      if chosen !in containers {
        containers := containers + [chosen];
        var ok := Start(chosen, image, job);
        LaunchAdds(old(engine.log), engine.log, Launched(chosen, image, job));
        if ok { name := Some(chosen); }
      }
    }

    /** The database counts as started once it answers. */
    method StartDatabase(role: string) returns (name: Option<string>)
      requires Valid()
      modifies this`containers, engine`clock, engine`others, engine`mine, engine`log
      ensures Valid()
      ensures Adds(old(engine.log), engine.log, Some(Launched(prefix + "-" + role, databaseImage, Database)))
      ensures name.Some? ==> Running(name.value) && Served(old(engine.log), engine.log, name.value, databaseImage, Database)
      ensures old(Obliging()) && prefix + "-" + role !in old(containers) ==> name.Some?
    {
      name := Serve(role, databaseImage, Database);
    }

    /** The account of the log does not depend on waiting. */
    method WaitFor(name: string) returns (code: Option<string>)
      requires Valid()
      modifies engine`clock, engine`others, engine`mine, engine`log
      ensures Valid() && Ages(old(engine.mine), engine.mine) && engine.clock == old(engine.clock) + 1
      ensures engine.log == if code.None? then old(engine.log) else old(engine.log) + [Waited(name, code.value)]
      ensures code.Some? ==> engine.Ended(Resource(Container, name))
      ensures old(Obliging() && Live(name)) ==> code == Some(LockNames.Decimal(engine.codes(name)))
    {
      ghost var log := engine.log;
      Working();
      code := engine.Wait(name);
      if code.Some? { ActKeeps(log, Waited(name, code.value), prepared, passwords); }
    }

    /** The printed exit code of a job, which must be a number, and then the inspected state. */
    method Collect(name: string) returns (code: Option<string>, state: RunState)
      requires Valid()
      modifies engine`clock, engine`others, engine`mine, engine`log
      ensures Valid() && Quiet(old(engine.log), engine.log)
      ensures code.Some? ==>
        && code.value != "" && All(code.value, Digit)
        && |old(engine.log)| < |engine.log| - 1 && engine.log[|old(engine.log)|] == Waited(name, code.value)
        && LastSeen(old(engine.log), engine.log, Resource(Container, name), state)
        && engine.Ended(Resource(Container, name)) && engine.Shown(Resource(Container, name), state)
      ensures old(Obliging() && Live(name)) ==> code == Some(LockNames.Decimal(engine.codes(name)))
    {
      code, state := None, RunState("", 0);
      DecimalZero(engine.codes(name));
      var output := WaitFor(name);
      if output.Some? && output.value != "" && All(output.value, Digit) {
        var ended := Owned(Resource(Container, name));
        if ended.Some? { code, state := output, ended.value; }
      }
    }

    /** Waits for a job and inspects how it ended; `j` is where the log shows the wait, before the last entry. */
    method AwaitExit(name: string) returns (code: Option<string>, state: RunState, ghost j: int)
      requires Valid()
      modifies engine`clock, engine`others, engine`mine, engine`log
      ensures Valid() && Quiet(old(engine.log), engine.log)
      ensures code.Some? ==>
        && code.value != "" && All(code.value, Digit)
        && |old(engine.log)| <= j < |engine.log| - 1 && engine.log[j] == Waited(name, code.value)
        && LastSeen(old(engine.log), engine.log, Resource(Container, name), state)
        && engine.Ended(Resource(Container, name)) && engine.Shown(Resource(Container, name), state)
      ensures old(Obliging() && Live(name)) ==> code == Some(LockNames.Decimal(engine.codes(name)))
    {
      code, state, j := None, RunState("", 0), 0;
      var started := Owned(Resource(Container, name));
      if started.Some? {
        ghost var before := engine.log;
        j := |before|;
        code, state := Collect(name);
        AddsThen(old(engine.log), before, engine.log, None);
      }
    }

    /** The entry at `j` is a wait that printed zero, and the last one an inspection that shows it. */
    ghost predicate EndedWell(log: seq<Act>, j: int, name: string) {
      && 0 <= j < |log| && log[j].Waited? && log[j].name == name && log[j].code != "" && All(log[j].code, Zero)
      && LastSeen([], log, Resource(Container, name), RunState("exited", 0))
    }

    lemma LaterConfirmed(log: seq<Act>, i: nat, j: nat, name: string, database: string, password: string)
      requires i < j < |log| - 1 && log[i].Launched? && log[i].name == name && log[i].job == Migration(database, password)
      requires Quiet(log[..i + 1], log)
      requires EndedWell(log, j, name)
      ensures Ran(log, i, name, database, password)
    {
      assert ConfirmedAt(log, database, password, i, j, |log| - 1);
    }

    /** Records how a job ended; it ended well if both its exit code and its final state say so. */
    method Judge(role: string, name: string) returns (ok: bool, ghost j: int)
      requires Valid()
      modifies this`migrationRuns, engine`clock, engine`others, engine`mine, engine`log
      ensures Valid() && Quiet(old(engine.log), engine.log)
      ensures ok ==>
        && |old(engine.log)| <= j < |engine.log| - 1 && EndedWell(engine.log, j, name)
        && (exists zeros :: All(zeros, Zero) && migrationRuns == old(migrationRuns) + [MigrationRun(role, zeros)])
        && engine.codes(name) == 0
      ensures old(Obliging() && Live(name)) && engine.codes(name) == 0 ==> ok
    {
      DecimalZero(engine.codes(name));
      var code, state;
      code, state, j := AwaitExit(name);
      if code.Some? { migrationRuns := migrationRuns + [MigrationRun(role, code.value)]; }
      ok := code.Some? && All(code.value, Zero) && state.status == "exited" && state.exitCode == 0;
    }

    /** The migration job up to its exit code and the inspected final state. */
    method RunMigration(role: string, database: string, password: string) returns (name: Option<string>)
      requires Valid() && database !in prepared
      modifies this`containers, this`migrationRuns, engine`clock, engine`others, engine`mine, engine`log
      ensures Valid()
      ensures Adds(old(engine.log), engine.log, Some(Launched(prefix + "-" + role, image, Migration(database, password))))
      ensures name.Some? ==>
        name.value == prefix + "-" + role && Ran(engine.log, |old(engine.log)|, name.value, database, password)
      ensures name.Some? ==> exists zeros :: All(zeros, Zero) && migrationRuns == old(migrationRuns) + [MigrationRun(role, zeros)]
      ensures name.Some? ==> engine.codes(prefix + "-" + role) == 0
      ensures old(Obliging()) && prefix + "-" + role !in old(containers) && engine.codes(prefix + "-" + role) == 0 ==> name.Some?
    {
      ghost var i := |engine.log|;
      name := RunContainer(role, image, Migration(database, password));
      if name.Some? {
        ghost var launched := engine.log;
        var ok;
        ghost var j;
        ok, j := Judge(role, name.value);
        AddsThen(old(engine.log), launched, engine.log,
                 Some(Launched(prefix + "-" + role, image, Migration(database, password))));
        if ok {
          AddsThen(old(engine.log) + [Launched(name.value, image, Migration(database, password))], launched, engine.log, None);
          LaterConfirmed(engine.log, i, j, name.value, database, password);
        } else {
          name := None;
        }
      }
    }

    /**
      A migration attempt withdraws the database's mark. It comes back, with the attempt's
      password, only after the job was launched, exited with zero and was inspected as such.
    */
    method MigrateDatabase(role: string, database: string, runtimePassword: Option<string>) returns (name: Option<string>)
      requires Valid()
      modifies this, engine`clock, engine`others, engine`mine, engine`log
      ensures Valid() && networkCreated == old(networkCreated)
      ensures var password := if runtimePassword.None? then initialPassword else runtimePassword.value;
        && Adds(old(engine.log), engine.log, Some(Launched(prefix + "-" + role, image, Migration(database, password))))
        && (name.Some? ==>
              && name.value == prefix + "-" + role && Ran(engine.log, |old(engine.log)|, name.value, database, password)
              && prepared == old(prepared) + {database} && passwords == old(passwords)[database := password]
              && (exists zeros :: All(zeros, Zero) && migrationRuns == old(migrationRuns) + [MigrationRun(role, zeros)])
              && engine.codes(name.value) == 0)
        && (name.None? ==>
              && passwords == old(passwords)
              && (prepared == old(prepared) - {database} || (prepared == old(prepared) && Quiet(old(engine.log), engine.log))))
      ensures old(Obliging() && Live(database)) && prefix + "-" + role !in old(containers) ==>
        (name.Some? <==> engine.codes(prefix + "-" + role) == 0)
      ensures
        Quiet(old(engine.log), engine.log) || Vouched(old(engine.log), engine.log, Resource(Container, database), engine.run)
    {
      name := None;
      ghost var log := engine.log;
      var state := Owned(Resource(Container, database));
      ghost var seen := engine.log;
      if state.Some? {
        var password := if runtimePassword.None? then initialPassword else runtimePassword.value;
        prepared := prepared - {database};
        name := Attempt(role, database, password, log);
        VouchedStays(log, seen, engine.log, Resource(Container, database), engine.run);
        Withdrawn(old(prepared), database);
      }
    }

    lemma Withdrawn(marks: set<string>, database: string)
      ensures marks - {database} + {database} == marks + {database}
    {
    }

    /** The attempt itself, once the database is known to be the fixture's and its mark is withdrawn. */
    method Attempt(role: string, database: string, password: string, ghost log: seq<Act>) returns (name: Option<string>)
      requires Valid() && Quiet(log, engine.log) && database !in prepared
      modifies this`containers, this`migrationRuns, this`prepared, this`passwords
      modifies engine`clock, engine`others, engine`mine, engine`log
      ensures Valid()
      ensures Adds(log, engine.log, Some(Launched(prefix + "-" + role, image, Migration(database, password))))
      ensures old(engine.log) <= engine.log
      ensures name.Some? ==>
        && name.value == prefix + "-" + role && Ran(engine.log, |log|, name.value, database, password)
        && prepared == old(prepared) + {database} && passwords == old(passwords)[database := password]
        && (exists zeros :: All(zeros, Zero) && migrationRuns == old(migrationRuns) + [MigrationRun(role, zeros)])
        && engine.codes(name.value) == 0
      ensures name.None? ==> passwords == old(passwords) && prepared == old(prepared)
      ensures old(Obliging()) && prefix + "-" + role !in old(containers) && engine.codes(prefix + "-" + role) == 0 ==> name.Some?
    {
      ghost var before := engine.log;
      name := RunMigration(role, database, password);
      AddsThen(log, before, engine.log, Some(Launched(prefix + "-" + role, image, Migration(database, password))));
      if name.Some? {
        RanEarlier(engine.log, |log|, |before|, name.value, database, password);
        MarkConfirmed(engine.log, prepared, passwords, database, password);
        passwords := passwords[database := password];
        prepared := prepared + {database};
      }
    }

    lemma RanEarlier(log: seq<Act>, m: nat, n: nat, name: string, database: string, password: string)
      requires m <= n && Ran(log, n, name, database, password)
      ensures Ran(log, m, name, database, password) && Backed(log, database, password)
    {
      var i, j, k :| n <= i && ConfirmedAt(log, database, password, i, j, k) && log[i].name == name;
    }

    method Halt(name: string) returns (ok: bool)
      requires Valid()
      modifies engine`clock, engine`others, engine`mine
      ensures Valid() && Ages(old(engine.mine), engine.mine) && engine.clock == old(engine.clock) + 1
      ensures ok ==> engine.Ended(Resource(Container, name))
      ensures old(Obliging() && Live(name)) ==> ok
    {
      Working();
      ok := engine.Stop(name);
    }

    /** The stop and the inspection after it. */
    method Halted(name: string) returns (state: Option<RunState>)
      requires Valid()
      modifies engine`clock, engine`others, engine`mine, engine`log
      ensures Valid() && Ages(old(engine.mine), engine.mine) && Quiet(old(engine.log), engine.log)
      ensures state.Some? ==>
        && LastSeen(old(engine.log), engine.log, Resource(Container, name), state.value)
        && Live(name) && state.value == RunState("exited", engine.codes(name)) && !Running(name)
      ensures old(Obliging() && Live(name)) ==> state.Some?
    {
      state := None;
      var stopped := Halt(name);
      if stopped { state := Owned(Resource(Container, name)); }
    }

    /** Succeeds only when the container was last seen as exited. */
    method StopContainer(name: string) returns (ok: bool)
      requires Valid()
      modifies engine`clock, engine`others, engine`mine, engine`log
      ensures Valid() && Ages(old(engine.mine), engine.mine) && Quiet(old(engine.log), engine.log)
      ensures ok ==>
        && LastSeen(old(engine.log), engine.log, Resource(Container, name), RunState("exited", engine.codes(name)))
        && Live(name) && !Running(name)
      ensures old(Obliging() && Live(name)) ==> ok
    {
      ok := false;
      var state := Owned(Resource(Container, name));
      if state.Some? {
        state := Halted(name);
        ok := state.Some? && state.value.status == "exited";
      }
    }

    /** The application is launched only on a prepared database, and only with that migration's password. */
    method StartApp(role: string, database: string) returns (name: Option<string>)
      requires Valid()
      modifies this`containers, engine`clock, engine`others, engine`mine, engine`log
      ensures Valid()
      ensures database !in prepared ==> name.None? && Quiet(old(engine.log), engine.log)
      ensures database in prepared ==>
        && database in passwords
        && Adds(old(engine.log), engine.log, Some(Launched(prefix + "-" + role, image, App(database, passwords[database]))))
        && (name.Some? ==>
              Running(name.value) && Served(old(engine.log), engine.log, name.value, image, App(database, passwords[database])))
      ensures old(Obliging() && Live(database)) && database in prepared && prefix + "-" + role !in old(containers) ==> name.Some?
      ensures
        Quiet(old(engine.log), engine.log) || Vouched(old(engine.log), engine.log, Resource(Container, database), engine.run)
    {
      name := None;
      ghost var log := engine.log;
      var state := Owned(Resource(Container, database));
      ghost var before := engine.log;
      if state.Some? && database in prepared {
        name := Serve(role, image, App(database, passwords[database]));
        AddsThen(log, before, engine.log, Some(Launched(prefix + "-" + role, image, App(database, passwords[database]))));
        VouchedStays(log, before, engine.log, Resource(Container, database), engine.run);
      }
    }

    /** Runs a container and waits until it answers. */
    method Serve(role: string, image: string, job: Job) returns (name: Option<string>)
      requires Valid() && Allowed(job, prepared, passwords)
      modifies this`containers, engine`clock, engine`others, engine`mine, engine`log
      ensures Valid()
      ensures Adds(old(engine.log), engine.log, Some(Launched(prefix + "-" + role, image, job)))
      ensures name.Some? ==> Running(name.value) && Served(old(engine.log), engine.log, name.value, image, job)
      ensures old(Obliging()) && prefix + "-" + role !in old(containers) ==> name.Some?
    {
      name := RunContainer(role, image, job);
      if name.Some? {
        ghost var launched := engine.log;
        var ready := Checked(name.value);
        AddsThen(old(engine.log), launched, engine.log, Some(Launched(prefix + "-" + role, image, job)));
        if ready {
          ServedThen(old(engine.log), launched, engine.log, name.value, image, job);
        } else {
          name := None;
        }
      }
    }

    /** The ownership check before the readiness probes. */
    method Checked(name: string) returns (ok: bool)
      requires Valid()
      modifies engine`clock, engine`others, engine`mine, engine`log
      ensures Valid() && Quiet(old(engine.log), engine.log)
      ensures ok ==> Running(name) && |engine.log| > |old(engine.log)| && engine.log[|engine.log| - 1] == Answered(name)
      ensures old(Obliging() && Running(name)) ==> ok
    {
      ok := false;
      var state := Owned(Resource(Container, name));
      if state.Some? { ok := Ready(name); }
    }

    /** The readiness probes, as one command that finally succeeds or not. */
    method Ready(name: string) returns (ok: bool)
      requires Valid() && Live(name)
      modifies engine`clock, engine`others, engine`mine, engine`log
      ensures Valid()
      ensures engine.log == if ok then old(engine.log) + [Answered(name)] else old(engine.log)
      ensures ok ==> Running(name)
      ensures old(Obliging() && Running(name)) ==> ok
    {
      Working();
      ghost var log := engine.log;
      ok := engine.Probe(name);
      if ok { ActKeeps(log, Answered(name), prepared, passwords); }
    }

    /** The removal itself, of a resource that is on the list and carries both labels. */
    method Take(what: Resource) returns (ok: bool)
      requires Valid() && engine.Ours(what)
      modifies engine`clock, engine`others, engine`mine, engine`log
      ensures Valid() && Leaves(old(engine.mine), engine.mine) && old(engine.mine).Keys - {what} <= engine.mine.Keys
      ensures engine.log == old(engine.log) || exists item :: engine.log == old(engine.log) + [Removed(what, item, ok)]
      ensures ok <==> Gone(old(engine.log), engine.log, what)
      ensures engine.Outstanding(old(engine.mine), engine.mine)
      ensures ok ==> what !in engine.mine
      ensures engine.clock >= old(engine.clock)
      ensures old(Obliging()) ==> ok
    {
      Working();
      ghost var log := engine.log;
      ok := engine.Remove(what);
      if engine.log != log {
        ActKeeps(log, engine.log[|log|], prepared, passwords);
        assert ok ==> ShowsGone(engine.log[|log|], what);
      }
    }

    /** The ownership check and the removal of a listed resource. */
    method RemoveListed(what: Resource) returns (ok: bool)
      requires Valid()
      modifies engine`clock, engine`others, engine`mine, engine`log
      ensures Valid() && Leaves(old(engine.mine), engine.mine) && old(engine.mine).Keys - {what} <= engine.mine.Keys
      ensures OnlyAbout(old(engine.log), engine.log, what)
      ensures forall k | |old(engine.log)| <= k < |engine.log| :: !engine.log[k].Listed?
      ensures engine.Outstanding(old(engine.mine), engine.mine)
      ensures ok ==> what !in engine.mine
      ensures ok <==> Gone(old(engine.log), engine.log, what)
      ensures engine.clock >= old(engine.clock)
      ensures old(Obliging() && Tracked(what) && engine.Ours(what)) ==> ok
    {
      ok := false;
      var state := Owned(what);
      if state.Some? {
        ghost var seen, mine := engine.log, engine.mine;
        ok := Take(what);
        LeavesThen(old(engine.mine), mine, engine.mine);
        GoneSplit(old(engine.log), seen, engine.log, what);
      }
    }

    /** The listing: it finds the resource, or shows whether its creation is still outstanding. */
    method Find(what: Resource) returns (found: Option<bool>)
      requires Valid() && Tracked(what)
      modifies engine`clock, engine`others, engine`mine, engine`log
      ensures Valid() && Ages(old(engine.mine), engine.mine)
      ensures engine.Outstanding(old(engine.mine), engine.mine)
      ensures found.None? ==> engine.log == old(engine.log)
      ensures found.Some? ==>
        engine.log == old(engine.log) + [Listed(what, found.value, what in engine.mine && !engine.Ours(what))]
      ensures found == Some(false) ==> !engine.Ours(what)
      ensures found == Some(true) ==> what !in engine.mine || engine.Ours(what)
      ensures engine.clock >= old(engine.clock)
      ensures old(Obliging()) ==> found.Some? && (found.value ==> engine.Ours(what))
    {
      TrackedNames(what);
      ghost var log := engine.log;
      if Obliging() { Unclaimed(what, engine.schedule(engine.clock)); }
      found := engine.List(what);
      if found.Some? { ActKeeps(log, engine.log[|log|], prepared, passwords); }
    }

    /** One step of the cleanup: gone or not there yet, or an error. */
    method RemoveOwned(what: Resource) returns (ok: bool)
      requires Valid() && Tracked(what)
      modifies engine`clock, engine`others, engine`mine, engine`log
      ensures Valid() && Leaves(old(engine.mine), engine.mine) && old(engine.mine).Keys - {what} <= engine.mine.Keys
      ensures OnlyAbout(old(engine.log), engine.log, what)
      ensures ok <==> Gone(old(engine.log), engine.log, what)
      ensures engine.Outstanding(old(engine.mine), engine.mine)
      ensures ok ==> (what in engine.mine <==> Missed(old(engine.log), engine.log, what))
      ensures engine.clock >= old(engine.clock)
      ensures old(Obliging()) ==> ok
    {
      ok := false;
      ghost var log := engine.log;
      var found := Find(what);
      if found.Some? {
        ok := true;
        if found.value {
          ghost var listed, mine := engine.log, engine.mine;
          ok := RemoveListed(what);
          LeavesThen(old(engine.mine), mine, engine.mine);
          MissedSplit(log, listed, engine.log, what);
          GoneSplit(log, listed, engine.log, what);
        }
      }
    }

    /** The resources of `done` have been listed, and the ones that remain are in the errors or were missed. */
    ghost predicate Processed(log: seq<Act>, done: set<Resource>, errors: seq<string>)
      reads this, engine
    {
      && log <= engine.log
      && (forall k | |log| <= k < |engine.log| && (engine.log[k].Listed? || engine.log[k].Removed?) :: engine.log[k].what in done)
      && (forall r | r in done :: r.name in errors || Gone(log, engine.log, r))
      && (forall name | name in errors :: exists r :: r in done && r.name == name && !Gone(log, engine.log, r))
      && (forall r | r in done && r in engine.mine :: r.name in errors || Missed(log, engine.log, r))
      && (errors == [] ==> forall r | r in done && Missed(log, engine.log, r) :: r in engine.mine)
    }

    method CleanOne(what: Resource, ghost log: seq<Act>, ghost done: set<Resource>, ghost errors: seq<string>)
      returns (ok: bool)
      requires Valid() && Tracked(what) && what !in done && Processed(log, done, errors)
      modifies engine`clock, engine`others, engine`mine, engine`log
      ensures Valid() && Leaves(old(engine.mine), engine.mine)
      ensures engine.Outstanding(old(engine.mine), engine.mine)
      ensures OnlyAbout(old(engine.log), engine.log, what)
      ensures Processed(log, done + {what}, if ok then errors else errors + [what.name])
      ensures engine.clock >= old(engine.clock) && (old(Obliging()) ==> ok)
    {
      ghost var before := engine.log;
      ok := RemoveOwned(what);
      forall r ensures Missed(log, engine.log, r) <==> Missed(log, before, r) || Missed(before, engine.log, r) {
        MissedSplit(log, before, engine.log, r);
      }
      forall r ensures Gone(log, engine.log, r) <==> Gone(log, before, r) || Gone(before, engine.log, r) {
        GoneSplit(log, before, engine.log, r);
      }
    }

    /** The containers, last first. */
    method CleanContainers() returns (errors: seq<string>, ghost done: set<Resource>)
      requires Valid()
      modifies engine`clock, engine`others, engine`mine, engine`log
      ensures Valid() && Leaves(old(engine.mine), engine.mine)
      ensures engine.Outstanding(old(engine.mine), engine.mine)
      ensures Processed(old(engine.log), done, errors)
      ensures done == Containers(containers)
      ensures engine.clock >= old(engine.clock) && (old(Obliging()) ==> errors == [])
    {
      errors := [];
      var i := |containers|;
      assert Containers(containers[i..]) == {};
      while i > 0
        invariant 0 <= i <= |containers| && Valid() && Leaves(old(engine.mine), engine.mine)
        invariant engine.Outstanding(old(engine.mine), engine.mine)
        invariant Processed(old(engine.log), Containers(containers[i..]), errors)
        invariant engine.clock >= old(engine.clock) && (old(Obliging()) ==> errors == [])
      {
        i := i - 1;
        NamedOnce(containers, i);
        var ok := CleanOne(Resource(Container, containers[i]), old(engine.log), Containers(containers[i + 1..]), errors);
        errors := if ok then errors else errors + [containers[i]];
      }
      done := Containers(containers);
      assert containers[0..] == containers;
    }

    /** Nothing is listed behind the network but the network: every container had its turn before. */
    ghost predicate NetworkLast(log: seq<Act>)
      reads engine`log
    {
      forall i, j | |log| <= i < j < |engine.log| && engine.log[i].Listed? && engine.log[j].Listed? ::
        engine.log[i].what.kind.Network? ==> engine.log[j].what.kind.Network?
    }

    lemma AllDone(log: seq<Act>, done: set<Resource>, errors: seq<string>)
      requires Valid() && Processed(log, done, errors)
      requires forall r :: Tracked(r) <==> r in done
      ensures forall r | Tracked(r) :: r.name in errors || Gone(log, engine.log, r)
      ensures forall name | name in errors :: exists r :: Tracked(r) && r.name == name && !Gone(log, engine.log, r)
      ensures forall r | r in engine.mine :: r.name in errors || Missed(log, engine.log, r)
      ensures errors == [] ==> forall r :: r in engine.mine <==> Missed(log, engine.log, r)
    {
    }

    /**
      A name is in the errors exactly when its resource was neither found absent nor removed with a
      confirmation. Whatever of the run remains is named there or was listed before it was created.
      So an empty list means that nothing remains exactly when no creation was outstanding.
    */
    method Cleanup() returns (errors: seq<string>)
      requires Valid()
      modifies engine`clock, engine`others, engine`mine, engine`log
      ensures Valid() && OnlyOwnRemoved() && Leaves(old(engine.mine), engine.mine) && old(engine.log) <= engine.log
      ensures engine.Outstanding(old(engine.mine), engine.mine)
      ensures forall r | Tracked(r) :: r.name in errors || Gone(old(engine.log), engine.log, r)
      ensures forall name | name in errors :: exists r :: Tracked(r) && r.name == name && !Gone(old(engine.log), engine.log, r)
      ensures NetworkLast(old(engine.log))
      ensures forall r | r in engine.mine :: r.name in errors || Missed(old(engine.log), engine.log, r)
      ensures errors == [] ==> forall r :: r in engine.mine <==> Missed(old(engine.log), engine.log, r)
      ensures old(Obliging()) ==> errors == []
    {
      ghost var done;
      errors, done := CleanContainers();
      if networkCreated {
        var ok := CleanOne(Resource(Network, NetworkName()), old(engine.log), done, errors);
        errors := if ok then errors else errors + [NetworkName()];
        done := done + {Resource(Network, NetworkName())};
      }
      AllDone(old(engine.log), done, errors);
    }
  }

  /** It happens: the creation of the network is accepted late, and the cleanup finds nothing to report. */
  method CleanupCanMiss() returns (fixture: Fixture, errors: seq<string>)
    ensures errors == [] && fresh(fixture) && fresh(fixture.engine)
    ensures Resource(Network, fixture.NetworkName()) in fixture.engine.mine
  {
    var schedule: nat -> Answer :=
      k => Answer(map[], {}, {}, if k == 0 then Later else Now, k > 0, None, RunState("", 0));
    var engine := new Engine("run", schedule, _ => 0, _ => None);
    fixture := new Fixture(engine, "drill", "", "", "");
    var _ := fixture.CreateNetwork();
    errors := fixture.Cleanup();
  }
}
