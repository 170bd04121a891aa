/**
  A Docker engine shared with others. A schedule decides for every command what the others
  did meanwhile, what became of earlier creations and of running containers, whether the
  command took effect and whether it reported success.
*/
module Docker {
  import opened Common
  import opened Json
  import opened Names
  import LockNames

  datatype Kind = Container | Network

  datatype Resource = Resource(kind: Kind, name: string)

  datatype Item = Item(owner: Option<string>, purpose: Option<string>, image: string)

  datatype RunState = RunState(status: string, exitCode: int)

  /** A creation holds its name from the start but may happen later; a container exits once. */
  datatype Stage = Coming | There | Exited

  datatype Own = Own(item: Item, stage: Stage)

  /** A creation may happen after the client has given up; any other command works at once or not at all. */
  datatype Effect = Now | Later | Nothing

  datatype Answer = Answer(
    others: map<Resource, Item>, late: set<Resource>, exits: set<Resource>,
    effect: Effect, ok: bool, garbled: Option<string>, state: RunState)

  /** What was asked of the engine and what it really did or answered. */
  datatype Act =
    | Launched(name: string, image: string, job: Job)
    | Created(what: Resource, item: Item)
    | Copied(what: Resource, item: Item)
    | Answered(name: string)
    | Waited(name: string, code: string)
    | Inspected(what: Resource, item: Item, state: RunState)
    | Listed(what: Resource, found: bool, outstanding: bool)
    | Removed(what: Resource, item: Item, confirmed: bool)

  datatype Job = Database | Migration(database: string, password: string) | App(database: string, password: string)

  /** The command works and prints what it should, and no container has exited of its own accord. */
  predicate Works(a: Answer) { a.effect.Now? && a.ok && a.garbled.None? && a.exits == {} }

  /** The answer of an engine that works, with nothing of the others' under the given name. */
  ghost predicate Obliges(a: Answer, mark: string) {
    Works(a) && forall r | r in a.others :: !Contains(r.name, mark)
  }

  function Step(o: Own, arrives: bool, exits: bool): Own {
    match o.stage
    case Coming => if arrives then o.(stage := There) else o
    case There => if exits then o.(stage := Exited) else o
    case Exited => o
  }

  function Aged(mine: map<Resource, Own>, a: Answer): map<Resource, Own> {
    map r | r in mine :: Step(mine[r], r in a.late, r in a.exits)
  }

  /** The same resources, each as far as before or further. */
  ghost predicate Ages(before: map<Resource, Own>, after: map<Resource, Own>) {
    before.Keys == after.Keys && Keeps(before, after)
  }

  /** Nothing new, and what is left is as far as before or further. */
  ghost predicate Leaves(before: map<Resource, Own>, after: map<Resource, Own>) {
    after.Keys <= before.Keys && Keeps(before, after)
  }

  ghost predicate Keeps(before: map<Resource, Own>, after: map<Resource, Own>) {
    forall r | r in before && r in after :: Further(before[r], after[r])
  }

  predicate Further(before: Own, after: Own) {
    before.item == after.item && (before.stage == after.stage || before.stage.Coming? || after.stage.Exited?)
  }

  /** No container has exited. */
  ghost predicate Calm(before: map<Resource, Own>, after: map<Resource, Own>) {
    forall r | r in before && r in after && before[r].stage.There? :: after[r].stage.There?
  }

  lemma AgedAges(mine: map<Resource, Own>, a: Answer)
    ensures Passes(mine, Aged(mine, a), a)
  {
  }

  lemma LeavesThen(a: map<Resource, Own>, b: map<Resource, Own>, c: map<Resource, Own>)
    requires Leaves(a, b) && Leaves(b, c)
    ensures Leaves(a, c) && (Ages(a, b) && Ages(b, c) ==> Ages(a, c))
  {
  }

  /** What time does to the run's resources. */
  ghost predicate Passes(before: map<Resource, Own>, after: map<Resource, Own>, a: Answer) {
    && Ages(before, after) && (a.exits == {} ==> Calm(before, after))
    && forall r | r in before && before[r].stage.Coming? && r !in a.late :: after[r].stage.Coming?
  }

  /** The one new resource has been created, or will be. */
  ghost predicate Gains(before: map<Resource, Own>, after: map<Resource, Own>, what: Resource, item: Item) {
    && what !in before && after.Keys == before.Keys + {what} && Keeps(before, after)
    && after[what].item == item && !after[what].stage.Exited?
  }

  /** A creation under a free name, which may have happened, may happen later or never. */
  ghost predicate Makes(before: map<Resource, Own>, after: map<Resource, Own>, what: Resource, item: Item, a: Answer, ok: bool) {
    && (Ages(before, after) || Gains(before, after, what, item))
    && (ok ==> Gains(before, after, what, item) && after[what].stage.There?)
    && (a.effect.Later? && what !in a.others && what !in before ==> Gains(before, after, what, item) && after[what].stage.Coming?)
    && (Works(a) && what !in a.others && what !in before ==> ok)
  }

  class Engine {
    /** The label value that nobody else's resources carry. */
    const run: string
    const schedule: nat -> Answer
    /** The exit code of a container of that name, and what an image holds as its release contract. */
    const codes: string -> nat
    const files: string -> Option<Doc>
    var clock: nat
    var others: map<Resource, Item>
    var mine: map<Resource, Own>
    var log: seq<Act>

    constructor (run: string, schedule: nat -> Answer, codes: string -> nat, files: string -> Option<Doc>)
      ensures this.run == run && this.schedule == schedule && this.codes == codes && this.files == files
      ensures log == [] && mine == map[] && clock == 0
    {
      this.run, this.schedule, this.codes, this.files := run, schedule, codes, files;
      clock, others, mine, log := 0, map[], map[], [];
    }

    predicate Exists(what: Resource)
      reads this`others, this`mine
    {
      what in others || Ours(what)
    }

    /** The run's own commands created the resource. */
    predicate Ours(what: Resource)
      reads this`mine
    {
      what in mine && !mine[what].stage.Coming?
    }

    predicate Runs(what: Resource)
      reads this`mine
    {
      what in mine && mine[what].stage.There?
    }

    predicate Ended(what: Resource)
      reads this`mine
    {
      what in mine && mine[what].stage.Exited?
    }

    /** The resources that never come to be stay outstanding. */
    ghost predicate Outstanding(before: map<Resource, Own>, after: map<Resource, Own>) {
      forall r | r in before && before[r].stage.Coming? && Never(r) :: r in after && after[r].stage.Coming?
    }

    /** A creation that is accepted late does not happen while the schedule lasts. */
    ghost predicate Never(r: Resource) { forall k: nat :: r !in schedule(k).late }

    /** The state is the one the container is in. */
    predicate Shown(what: Resource, state: RunState)
      reads this`mine
    {
      && Ours(what)
      && (if Ended(what) then state == RunState("exited", codes(what.name)) else state.status != "exited")
    }

    /** From now on every command works, and no container exits of its own accord. */
    ghost predicate Obliging(mark: string)
      reads this`clock
    {
      forall k: nat | k >= clock :: Obliges(schedule(k), mark)
    }

    /** Time passes: the others' resources become whatever the schedule says. */
    method Tick() returns (a: Answer)
      modifies this`clock, this`others, this`mine
      ensures a == schedule(old(clock)) && clock == old(clock) + 1 && Passes(old(mine), mine, a)
      ensures forall r | r in others :: r in a.others && r !in mine && others[r].owner != Some(run)
    {
      a := schedule(clock);
      AgedAges(mine, a);
      clock := clock + 1;
      mine := Aged(mine, a);
      others := map r | r in a.others && r !in mine && a.others[r].owner != Some(run) :: a.others[r];
    }

    /** Creates a resource if its name is free, perhaps later; the caller may not learn that it did. */
    method Make(what: Resource, item: Item) returns (ok: bool)
      modifies this`clock, this`others, this`mine
      ensures clock == old(clock) + 1
      ensures Makes(old(mine), mine, what, item, schedule(old(clock)), ok)
    {
      var a := Tick();
      ok := !Exists(what) && what !in mine && a.effect.Now?;
      if ok {
        mine := mine[what := Own(item, There)];
      } else if !Exists(what) && what !in mine && a.effect.Later? {
        mine := mine[what := Own(item, Coming)];
      }
      ok := ok && a.ok;
    }

    /** A creation whose log entry says that it happened at once. */
    method Create(what: Resource, item: Item) returns (ok: bool)
      modifies this`clock, this`others, this`mine, this`log
      ensures clock == old(clock) + 1
      ensures Makes(old(mine), mine, what, item, schedule(old(clock)), ok)
      ensures log == old(log) + [Created(what, item)] || (log == old(log) && !ok)
    {
      ok := Make(what, item);
      if what in mine && mine[what] == Own(item, There) { log := log + [Created(what, item)]; }
    }

    method Launch(name: string, item: Item, job: Job) returns (ok: bool)
      modifies this`clock, this`others, this`mine, this`log
      ensures clock == old(clock) + 1 && log == old(log) + [Launched(name, item.image, job)]
      ensures Makes(old(mine), mine, Resource(Container, name), item, schedule(old(clock)), ok)
    {
      ok := Make(Resource(Container, name), item);
      log := log + [Launched(name, item.image, job)];
    }

    /** Whether the resource exists, or None when the engine does not answer. */
    method List(what: Resource) returns (found: Option<bool>)
      modifies this`clock, this`others, this`mine, this`log
      ensures clock == old(clock) + 1 && Passes(old(mine), mine, schedule(old(clock)))
      ensures found.Some? ==> found.value == Exists(what)
      ensures log ==
        if found.None? then old(log) else old(log) + [Listed(what, found.value, what in mine && mine[what].stage.Coming?)]
      ensures schedule(old(clock)).ok ==> found.Some?
      ensures what in others ==> what in schedule(old(clock)).others && what !in mine
    {
      var a := Tick();
      found := if a.ok then Some(Exists(what)) else None;
      if found.Some? { log := log + [Listed(what, found.value, what in mine && mine[what].stage.Coming?)]; }
    }

    /** The containers whose names contain the given text, or None when the engine does not answer. */
    method ListContaining(name: string) returns (found: Option<set<Resource>>)
      modifies this`clock, this`others, this`mine
      ensures clock == old(clock) + 1 && Passes(old(mine), mine, schedule(old(clock)))
      ensures found.Some? ==>
        forall r :: r in found.value <==> Exists(r) && r.kind == Container && Contains(r.name, name)
      ensures schedule(old(clock)).ok ==> found.Some?
      ensures forall r | r in others :: r in schedule(old(clock)).others
    {
      var a := Tick();
      found := if a.ok then
        Some(set r | r in others.Keys + mine.Keys && Exists(r) && r.kind == Container && Contains(r.name, name)) else None;
    }

    method Inspect(what: Resource) returns (found: Option<(Item, RunState)>)
      modifies this`clock, this`others, this`mine, this`log
      ensures clock == old(clock) + 1 && Passes(old(mine), mine, schedule(old(clock)))
      ensures found.Some? ==>
        if what in mine then found.value.0 == mine[what].item && Shown(what, found.value.1) else found.value.0.owner != Some(run)
      ensures schedule(old(clock)).ok && Ours(what) ==> found.Some?
      ensures log == if found.None? then old(log) else old(log) + [Inspected(what, found.value.0, found.value.1)]
    {
      var a := Tick();
      found := None;
      if a.ok && Exists(what) {
        found := Some(if what in mine then (mine[what].item, StateOf(what, a.state)) else (others[what], a.state));
        log := log + [Inspected(what, found.value.0, found.value.1)];
      }
    }

    /** Any state but the exited one is possible before the container has exited. */
    function StateOf(what: Resource, seen: RunState): (state: RunState)
      requires Ours(what)
      reads this`mine
      ensures Shown(what, state)
    {
      if mine[what].stage.Exited? then RunState("exited", codes(what.name))
      else if seen.status == "exited" then RunState("running", 0)
      else seen
    }

    /** A command that works makes a running container exit. */
    method End(name: string) returns (a: Answer)
      modifies this`clock, this`others, this`mine
      ensures a == schedule(old(clock)) && clock == old(clock) + 1 && Ages(old(mine), mine)
      ensures var what := Resource(Container, name); a.effect.Now? && old(Runs(what)) ==> Ended(what)
    {
      a := Tick();
      var what := Resource(Container, name);
      if a.effect.Now? && Runs(what) {
        mine := mine[what := mine[what].(stage := Exited)];
      }
    }

    /** Waits for a container to exit: the printed exit code, unless the output is something else. */
    method Wait(name: string) returns (code: Option<string>)
      modifies this`clock, this`others, this`mine, this`log
      ensures clock == old(clock) + 1 && Ages(old(mine), mine)
      ensures var what := Resource(Container, name);
        && (code.Some? ==> Ended(what))
        && (old(Ours(what)) && Works(schedule(old(clock))) ==> code == Some(LockNames.Decimal(codes(name))))
      ensures log == if code.None? then old(log) else old(log) + [Waited(name, code.value)]
    {
      var a := End(name);
      var what := Resource(Container, name);
      code := None;
      if a.ok && Ended(what) {
        code := Some(if a.garbled.Some? then a.garbled.value else LockNames.Decimal(codes(name)));
        log := log + [Waited(name, code.value)];
      }
    }

    /** Asks a container to stop. */
    method Stop(name: string) returns (ok: bool)
      modifies this`clock, this`others, this`mine
      ensures clock == old(clock) + 1 && Ages(old(mine), mine)
      ensures var what := Resource(Container, name);
        && (ok ==> Ended(what))
        && (old(Ours(what)) && Works(schedule(old(clock))) ==> ok)
    {
      var a := End(name);
      var what := Resource(Container, name);
      ok := a.ok && Ended(what);
    }

    /** Probes a running container until it answers. */
    method Probe(name: string) returns (ok: bool)
      modifies this`clock, this`others, this`mine, this`log
      ensures clock == old(clock) + 1 && Passes(old(mine), mine, schedule(old(clock)))
      ensures var what := Resource(Container, name);
        && (ok ==> Runs(what))
        && (old(Runs(what)) && Works(schedule(old(clock))) ==> ok)
      ensures log == if ok then old(log) + [Answered(name)] else old(log)
    {
      var a := Tick();
      var what := Resource(Container, name);
      ok := a.ok && Runs(what);
      if ok { log := log + [Answered(name)]; }
    }

    /** Copies the release contract out of a container: what its image holds there. */
    method Copy(name: string) returns (file: Option<Option<Doc>>)
      modifies this`clock, this`others, this`mine, this`log
      ensures clock == old(clock) + 1 && Passes(old(mine), mine, schedule(old(clock)))
      ensures var what := Resource(Container, name);
        && (file.Some? ==>
              Ours(what) && file.value == files(mine[what].item.image) && log == old(log) + [Copied(what, mine[what].item)])
        && (file.None? ==> log == old(log))
        && (schedule(old(clock)).ok && Ours(what) ==> file.Some?)
    {
      var a := Tick();
      var what := Resource(Container, name);
      file := None;
      if a.ok && Ours(what) {
        file := Some(files(mine[what].item.image));
        log := log + [Copied(what, mine[what].item)];
      }
    }

    /** Removes a resource; the caller may not learn that it did. */
    method Remove(what: Resource) returns (ok: bool)
      modifies this`clock, this`others, this`mine, this`log
      ensures clock == old(clock) + 1
      ensures Outstanding(old(mine), mine)
      ensures
        || (Ages(old(mine), mine) && log == old(log) && !ok)
        || (&& Leaves(old(mine), mine) && mine.Keys == old(mine).Keys - {what} && !Exists(what)
            && exists item :: log == old(log) + [Removed(what, item, ok)] && (what in old(mine) ==> item == old(mine)[what].item))
      ensures Works(schedule(old(clock))) && old(Ours(what)) ==> ok
    {
      var a := Tick();
      ok := a.effect.Now? && Exists(what);
      if ok {
        log := log + [Removed(what, if what in mine then mine[what].item else others[what], a.ok)];
        mine, others := mine - {what}, others - {what};
      }
      ok := ok && a.ok;
    }
  }
}
