/**
  The image gate that both release scripts pass before they change anything: the verifier,
  then the recheck of a later snapshot against its report.
*/
module Gate {
  import opened Common
  import opened Json
  import opened Names
  import opened Patterns
  import opened Baseline
  import opened Cloud

  datatype Settings = Settings(
    region: string, cluster: string, service: string, repository: string, digest: string,
    url: string, desired: string, migration: string, dockerHost: string)

  predicate Mutates(c: Call) { c.Register? || c.Update? || c.Run? || c.Stop? }

  ghost predicate ReadOnly(run: seq<Record>) { forall k | 0 <= k < |run| :: !Mutates(run[k].call) }

  ghost predicate Inspected(run: seq<Record>, image: string) {
    exists k | 0 <= k < |run| :: run[k].call == Inspect(image, true)
  }

  function ImageOf(containers: seq<Container>, name: string): string
    requires Named(containers, name) > 0
  {
    if containers[0].name == Some(name) then containers[0].image else ImageOf(containers[1..], name)
  }

  /** The definition runs a digest of this repository in its one application container. */
  predicate OwnImage(d: TaskDef, uri: string) {
    && Named(d.containers, "inventory") == 1
    && RegistryImage(ImageOf(d.containers, "inventory")) && Starts(ImageOf(d.containers, "inventory"), uri + "@")
  }

  /**
    What `OwnImage` comes to: exactly one container is the application, and what it runs is a
    digest of this repository.
  */
  ghost predicate RunsDigest(d: TaskDef, uri: string, image: string) { exists k, digest :: RunsAt(d, uri, image, k, digest) }

  ghost predicate RunsAt(d: TaskDef, uri: string, image: string, k: int, digest: string) {
    && OnlyNamed(d.containers, "inventory", k) && d.containers[k].image == image
    && Matches(DIGEST, digest) && image == uri + "@" + digest
  }

  ghost predicate RunsOwn(d: TaskDef, uri: string) { exists image :: RunsDigest(d, uri, image) }

  lemma {:induction false} ImageOfOnly(containers: seq<Container>, name: string, k: nat)
    requires OnlyNamed(containers, name, k)
    ensures Named(containers, name) == 1 && ImageOf(containers, name) == containers[k].image
  {
    OnlyNamedCounts(containers, name, k);
    if k > 0 {
      assert forall j | 0 < j < |containers| :: containers[j] == containers[1..][j - 1];
      ImageOfOnly(containers[1..], name, k - 1);
    }
  }

  lemma OnlyOf(containers: seq<Container>, name: string) returns (k: nat)
    requires Named(containers, name) == 1
    ensures OnlyNamed(containers, name, k) && ImageOf(containers, name) == containers[k].image
  {
    k := WithImageOneNamed(containers, name, "");
    ImageOfOnly(containers, name, k);
  }

  lemma OneAt(image: string, uri: string, n: nat)
    requires n < |image| && image[n] == '@' && '@' !in image[..n] && '@' !in uri && Starts(image, uri + "@")
    ensures n == |uri| && image == uri + "@" + image[n + 1..]
  {
    assert image[|uri|] == (uri + "@")[|uri|] == '@';
    assert forall k | 0 <= k < |uri| :: image[k] == (uri + "@")[k] == uri[k] && uri[k] in uri;
    assert forall k | 0 <= k < n :: image[..n][k] == image[k];
    assert image[..|uri| + 1] == uri + "@";
  }

  /** An address of a repository holds no `@`, so what follows the first one is the digest. */
  lemma DigestFollows(image: string, uri: string)
    requires RegistryRepository(uri)
    ensures RegistryImage(image) && Starts(image, uri + "@") <==>
      exists digest :: Matches(DIGEST, digest) && image == uri + "@" + digest
  {
    if RegistryImage(image) && Starts(image, uri + "@") {
      var digest := image[|image| - 71..];
      DigestMatches(digest);
      RepositoryHasNoAt(uri);
      RepositoryHasNoAt(image[..|image| - 72]);
      OneAt(image, uri, |image| - 72);
    }
    if digest :| Matches(DIGEST, digest) && image == uri + "@" + digest {
      DigestMatches(digest);
      assert image[..|image| - 72] == uri && image[|image| - 71..] == digest;
    }
  }

  /** The verifier's own test of a definition is that description. */
  lemma OwnImageMeans(d: TaskDef, uri: string, image: string)
    requires RegistryRepository(uri)
    ensures OwnImage(d, uri) && ImageOf(d.containers, "inventory") == image <==> RunsDigest(d, uri, image)
  {
    DigestFollows(image, uri);
    if OwnImage(d, uri) && ImageOf(d.containers, "inventory") == image {
      var k := OnlyOf(d.containers, "inventory");
      var digest :| Matches(DIGEST, digest) && image == uri + "@" + digest;
      assert RunsAt(d, uri, image, k, digest);
    }
    if RunsDigest(d, uri, image) {
      var k, digest :| RunsAt(d, uri, image, k, digest);
      ImageOfOnly(d.containers, "inventory", k);
    }
  }

  ghost predicate Reported(run: seq<Record>, b: Report) {
    exists k | 0 <= k < |run| ::
      run[k].call.Snap? && run[k].call.response.Some? && Snapshot(run[k].call.response.value) == Ok(b)
  }

  /** A snapshot showed this settled state. */
  ghost predicate SeenSettled(run: seq<Record>, b: Report) {
    exists k | 0 <= k < |run| ::
      run[k].call.Snap? && run[k].call.response.Some? && ShowsSettled(run[k].call.response.value, b)
  }

  ghost predicate ShowsSettled(v: Json, b: Report) { Settled(b) && Describes(v, b) && WholeCounts(v) }

  lemma SnapshotMeans(v: Json, b: Report)
    ensures Snapshot(v) == Ok(b) <==> ShowsSettled(v, b)
  {
    if Snapshot(v).Ok? { ReportsAreSettled(v); }
    if Settled(b) { VerifierMeans(b, v); }
  }

  ghost predicate LookedUp(run: seq<Record>, task: string, d: TaskDef) {
    exists k | 0 <= k < |run| :: run[k].call == Lookup(task, Some(d))
  }

  /** The definition of the running revision was described, and the image it runs was inspected. */
  ghost predicate LiveInspected(run: seq<Record>, task: string, d: TaskDef, uri: string) {
    LookedUp(run, task, d) && OwnImage(d, uri) && Inspected(run, ImageOf(d.containers, "inventory"))
  }

  /** The candidate's contract passed, and so did that of the image the reported revision runs, unless nothing runs. */
  ghost predicate Verified(run: seq<Record>, b: Report, uri: string, digest: string, definitions: map<string, TaskDef>) {
    && Settled(b) && Reported(run, b) && Inspected(run, uri + "@" + digest)
    && (b.count > 0 ==> b.task in definitions && LiveInspected(run, b.task, definitions[b.task], uri))
  }

  /** The same said of the image itself: a digest of this repository, run by the one application container. */
  ghost predicate LiveAdmitted(run: seq<Record>, b: Report, uri: string, definitions: map<string, TaskDef>) {
    SeenSettled(run, b) && (b.count > 0 ==>
      && b.task in definitions && LookedUp(run, b.task, definitions[b.task])
      && exists image :: RunsDigest(definitions[b.task], uri, image) && Inspected(run, image))
  }

  lemma VerifiedMeans(run: seq<Record>, b: Report, uri: string, digest: string, definitions: map<string, TaskDef>)
    requires Verified(run, b, uri, digest, definitions) && RegistryRepository(uri)
    ensures LiveAdmitted(run, b, uri, definitions)
  {
    var k :| 0 <= k < |run| && run[k].call.Snap? && run[k].call.response.Some? && Snapshot(run[k].call.response.value) == Ok(b);
    SnapshotMeans(run[k].call.response.value, b);
    if b.count > 0 { OwnMeans(definitions[b.task], uri); }
  }

  /** The run verified the report before its last record. */
  ghost predicate VerifiedFirst(v: seq<Record>, run: seq<Record>, b: Report, uri: string, digest: string,
    definitions: map<string, TaskDef>)
  {
    v < run && Verified(v, b, uri, digest, definitions)
  }

  predicate Shows(c: Call, snapshot: Json) { c.Snap? && c.response.Some? && c.response.value == snapshot }

  predicate Confirms(c: Call, b: Report) { c.Snap? && c.response.Some? && Accepts(b, c.response.value) }

  /**
    A run that verifies a report and then ends by confirming it with another snapshot: it changed
    nothing, and at its last record the service really is in the reported, completed state.
  */
  ghost predicate Cleared(start: Service, log: seq<Record>, run: seq<Record>, b: Report, uri: string, digest: string,
    definitions: map<string, TaskDef>)
  {
    && run != [] && ReadOnly(run) && (exists v :: VerifiedFirst(v, run, b, uri, digest, definitions))
    && Confirms(run[|run| - 1].call, b)
    && After(start, log + run) == Service(b.task, b.count, b.task)
  }

  lemma Extend(run: seq<Record>, more: seq<Record>, b: Report, uri: string, digest: string, definitions: map<string, TaskDef>)
    ensures Verified(run, b, uri, digest, definitions) ==> Verified(run + more, b, uri, digest, definitions)
    ensures ReadOnly(run) && ReadOnly(more) ==> ReadOnly(run + more)
  {
    ExtendSeen(run, more);
  }

  /** What a run has seen it has seen in every longer run. */
  lemma ExtendSeen(run: seq<Record>, more: seq<Record>)
    ensures forall image | Inspected(run, image) :: Inspected(run + more, image)
    ensures forall task, d | LookedUp(run, task, d) :: LookedUp(run + more, task, d)
    ensures forall b | Reported(run, b) :: Reported(run + more, b)
  {
    assert forall k | 0 <= k < |run| :: (run + more)[k] == run[k];
  }

  lemma SeenLater(run: seq<Record>, more: seq<Record>)
    ensures forall image | Inspected(more, image) :: Inspected(run + more, image)
    ensures forall task, d | LookedUp(more, task, d) :: LookedUp(run + more, task, d)
  {
    assert forall k | 0 <= k < |more| :: (run + more)[|run| + k] == more[k];
  }

  /**
    The only change of the rollout before it acts: `c` registers the definition `base` with
    nothing but the image of the named container replaced, and answers the new name.
  */
  ghost predicate Registers(c: Call, base: TaskDef, name: string, image: string, answer: Option<string>) {
    c.Register? && Replaces(base, name, image, c.definition) && c.answer == answer && (answer.Some? ==> c.took)
  }

  predicate Configured(s: Settings) {
    s.region != "" && s.cluster != "" && s.service != "" && s.repository != "" && s.digest != "" && ImageDigest(s.digest)
  }

  predicate Addressed(uri: string, s: Settings) {
    RegistryImage(uri + "@" + s.digest) && Contains(uri + "@" + s.digest, ".ecr." + s.region + ".amazonaws.com/")
  }

  /** Every setting is given, and the digest is one. */
  ghost predicate ProperSettings(s: Settings) {
    && (forall text | text in [s.region, s.cluster, s.service, s.repository, s.digest] :: text != "")
    && Matches(DIGEST, s.digest)
  }

  /** The candidate is an image of a registry in the given region. */
  ghost predicate InRegion(uri: string, s: Settings) {
    && Matches(REGISTRY_IMAGE, uri + "@" + s.digest)
    && exists a, b :: uri + "@" + s.digest == a + (".ecr." + s.region + ".amazonaws.com/") + b
  }

  lemma SettingsMean(s: Settings)
    ensures Configured(s) <==> ProperSettings(s)
  {
    DigestMatches(s.digest);
    var all := [s.region, s.cluster, s.service, s.repository, s.digest];
    assert all[0] in all && all[1] in all && all[2] in all && all[3] in all && all[4] in all;
  }

  lemma ContainsMeans(s: string, part: string)
    ensures Contains(s, part) <==> exists a, b :: s == a + part + b
  {
    if Contains(s, part) {
      var k :| 0 <= k <= |s| && Starts(s[k..], part);
      assert s == s[..k] + part + s[k + |part|..];
    }
    if a, b :| s == a + part + b {
      assert s[|a|..] == part + b;
    }
  }

  lemma AddressMeans(uri: string, s: Settings)
    ensures Addressed(uri, s) <==> InRegion(uri, s)
    ensures Addressed(uri, s) && ImageDigest(s.digest) ==> RegistryRepository(uri)
  {
    RegistryImageMatches(uri + "@" + s.digest);
    ContainsMeans(uri + "@" + s.digest, ".ecr." + s.region + ".amazonaws.com/");
    if Addressed(uri, s) && ImageDigest(s.digest) {
      assert (uri + "@" + s.digest)[..|uri + "@" + s.digest| - 72] == uri;
    }
  }

  /** The results on which the verifier refuses. */
  predicate Objects(c: Call, uri: string) {
    || c == Query(false)
    || (c.Snap? && (c.response.None? || Snapshot(c.response.value).Err?))
    || (c.Lookup? && (c.found.None? || !OwnImage(c.found.value, uri)))
    || (c.Inspect? && !c.passed)
  }

  /** The snapshot shows no settled state of the service. */
  ghost predicate Unsettled(v: Json) { !exists b :: ShowsSettled(v, b) }

  lemma UnsettledMeans(v: Json)
    ensures Snapshot(v).Err? <==> Unsettled(v)
  {
    if Snapshot(v).Ok? { SnapshotMeans(v, Snapshot(v).value); }
    if b :| ShowsSettled(v, b) { SnapshotMeans(v, b); }
  }

  ghost predicate EndsIn(run: seq<Record>, uri: string) { run != [] && Objects(run[|run| - 1].call, uri) }

  /** The verifier refuses for its settings or for the last thing it was told, never otherwise. */
  ghost predicate Refuses(run: seq<Record>, uri: string, s: Settings) {
    !Configured(s) || !Addressed(uri, s) || EndsIn(run, uri)
  }

  /** The same in plain words. */
  ghost predicate RefusesPlainly(run: seq<Record>, uri: string, s: Settings) {
    || !ProperSettings(s) || !InRegion(uri, s)
    || (run != [] && ObjectsPlainly(run[|run| - 1].call, uri))
  }

  ghost predicate ObjectsPlainly(c: Call, uri: string) {
    || c == Query(false)
    || (c.Snap? && (c.response.None? || Unsettled(c.response.value)))
    || (c.Lookup? && (c.found.None? || !RunsOwn(c.found.value, uri)))
    || (c.Inspect? && !c.passed)
  }

  lemma ObjectsMeans(c: Call, uri: string)
    requires RegistryRepository(uri)
    ensures Objects(c, uri) <==> ObjectsPlainly(c, uri)
  {
    if c.Snap? && c.response.Some? { UnsettledMeans(c.response.value); }
    if c.Lookup? && c.found.Some? { OwnMeans(c.found.value, uri); }
  }

  /** A settled state, a live image of the repository and a passed contract are never a reason to refuse; all else is. */
  lemma RefusesMeans(run: seq<Record>, uri: string, s: Settings)
    ensures Refuses(run, uri, s) <==> RefusesPlainly(run, uri, s)
  {
    SettingsMean(s);
    AddressMeans(uri, s);
    if Configured(s) && Addressed(uri, s) && run != [] { ObjectsMeans(run[|run| - 1].call, uri); }
  }

  /** The recheck refuses when the last snapshot no longer confirms a verified report. */
  ghost predicate Changed(run: seq<Record>, uri: string, digest: string, definitions: map<string, TaskDef>) {
    exists b :: ChangedFrom(run, b, uri, digest, definitions)
  }

  ghost predicate ChangedFrom(run: seq<Record>, b: Report, uri: string, digest: string, definitions: map<string, TaskDef>) {
    && run != [] && run[|run| - 1].call.Snap?
    && Verified(run[..|run| - 1], b, uri, digest, definitions) && !Confirms(run[|run| - 1].call, b)
  }

  /** The image of the running revision, which must be a digest of this repository; none when nothing runs. */
  method LiveImage(aws: Aws, b: Report, uri: string) returns (ok: bool, image: Option<string>, ghost run: seq<Record>)
    modifies aws`clock, aws`log
    ensures aws.log == old(aws.log) + run && ReadOnly(run)
    ensures ok ==> (image.Some? <==> b.Live())
    ensures ok && b.Live() ==>
      && b.task in aws.definitions && LookedUp(run, b.task, aws.definitions[b.task])
      && OwnImage(aws.definitions[b.task], uri) && image == Some(ImageOf(aws.definitions[b.task].containers, "inventory"))
    ensures !ok ==> EndsIn(run, uri)
  {
    if !b.Live() { return true, None, []; }
    var definition := aws.DescribeTaskDefinition(b.task);
    ok, image, run := false, None, [aws.log[|aws.log| - 1]];
    assert run[0].call == Lookup(b.task, definition);
    if definition.Some? && OwnImage(definition.value, uri) {
      ok, image := true, Some(ImageOf(definition.value.containers, "inventory"));
    }
  }

  lemma OwnMeans(d: TaskDef, uri: string)
    requires RegistryRepository(uri)
    ensures OwnImage(d, uri) <==> RunsOwn(d, uri)
    ensures OwnImage(d, uri) ==> RunsDigest(d, uri, ImageOf(d.containers, "inventory"))
  {
    if OwnImage(d, uri) { OwnImageMeans(d, uri, ImageOf(d.containers, "inventory")); }
    if image :| RunsDigest(d, uri, image) { OwnImageMeans(d, uri, image); }
  }

  /** The commands of the login: the engine's address unless it is given, the password, the login itself. */
  function Steps(dockerHost: string): nat { if dockerHost == "" then 3 else 2 }

  ghost predicate AllTrue(run: seq<Record>) { forall k | 0 <= k < |run| :: run[k].call == Query(true) }

  /** The candidate was inspected right after `n` commands that succeeded. */
  ghost predicate LoggedIn(run: seq<Record>, candidate: string, n: nat) {
    exists m: nat :: LoggedInAt(run, candidate, n, m)
  }

  ghost predicate LoggedInAt(run: seq<Record>, candidate: string, n: nat, m: nat) {
    m + n < |run| && AllTrue(run[m..m + n]) && run[m + n].call == Inspect(candidate, true)
  }

  lemma LoggedInLater(before: seq<Record>, login: seq<Record>, more: seq<Record>, candidate: string)
    requires AllTrue(login) && more != [] && more[0].call == Inspect(candidate, true)
    ensures LoggedIn(before + (login + more), candidate, |login|)
  {
    var all := before + (login + more);
    var m := |before|;
    assert all[m..m + |login|] == login;
    assert all[m + |login|] == more[0];
    assert LoggedInAt(all, candidate, |login|, m);
  }

  lemma LoggedInAfter(before: seq<Record>, run: seq<Record>, candidate: string, n: nat)
    requires LoggedIn(run, candidate, n)
    ensures LoggedIn(before + run, candidate, n)
  {
    var m: nat :| LoggedInAt(run, candidate, n, m);
    var all := before + run;
    assert all[|before| + m..|before| + m + n] == run[m..m + n];
    assert all[|before| + m + n] == run[m + n];
    assert LoggedInAt(all, candidate, n, |before| + m);
  }

  /** The isolated registry login: every step of it must succeed. */
  method Login(aws: Aws, dockerHost: string, ghost uri: string) returns (ok: bool, ghost run: seq<Record>)
    modifies aws`clock, aws`log
    ensures aws.log == old(aws.log) + run && ReadOnly(run)
    ensures ok ==> |run| == Steps(dockerHost) && AllTrue(run)
    ensures !ok ==> EndsIn(run, uri)
  {
    ok, run := true, [];
    if dockerHost == "" {
      ok := aws.Succeed();
      run := [aws.log[|aws.log| - 1]];
    }
    if ok {
      ok := aws.Succeed();
      ghost var password := aws.log[|aws.log| - 1];
      Joined(old(aws.log), run, [password]);
      run := run + [password];
    }
    if ok {
      ok := aws.Succeed();
      ghost var login := aws.log[|aws.log| - 1];
      Joined(old(aws.log), run, [login]);
      run := run + [login];
    }
  }

  /** The candidate's contract, then that of the live image if there is one. */
  method InspectImages(aws: Aws, candidate: string, live: Option<string>, ghost uri: string)
    returns (ok: bool, ghost run: seq<Record>)
    modifies aws`clock, aws`log
    ensures aws.log == old(aws.log) + run && ReadOnly(run)
    ensures ok ==> Inspected(run, candidate) && (live.Some? ==> Inspected(run, live.value))
    ensures ok ==> run != [] && run[0].call == Inspect(candidate, true)
    ensures !ok ==> EndsIn(run, uri)
  {
    ok := aws.InspectContract(candidate);
    run := [aws.log[|aws.log| - 1]];
    assert run[0].call == Inspect(candidate, ok);
    if ok && live.Some? {
      ok := aws.InspectContract(live.value);
      run := run + [aws.log[|aws.log| - 1]];
      assert run[0].call == Inspect(candidate, true) && run[1].call == Inspect(live.value, ok);
    }
  }

  /** The login and the inspections behind it. */
  method Images(aws: Aws, candidate: string, live: Option<string>, ghost uri: string, dockerHost: string)
    returns (ok: bool, ghost run: seq<Record>)
    modifies aws`clock, aws`log
    ensures aws.log == old(aws.log) + run && ReadOnly(run)
    ensures ok ==> Inspected(run, candidate) && (live.Some? ==> Inspected(run, live.value))
    ensures ok ==> LoggedIn(run, candidate, Steps(dockerHost))
    ensures !ok ==> EndsIn(run, uri)
  {
    ok, run := Login(aws, dockerHost, uri);
    if ok {
      ghost var more;
      ok, more := InspectImages(aws, candidate, live, uri);
      Joined(old(aws.log), run, more);
      SeenLater(run, more);
      if ok {
        LoggedInLater([], run, more, candidate);
        assert [] + (run + more) == run + more;
      }
      run := run + more;
    }
  }

  /** The settled baseline in a fresh snapshot. */
  method ReadSnapshot(aws: Aws, ghost uri: string) returns (baseline: Option<Report>, ghost run: seq<Record>)
    modifies aws`clock, aws`log
    ensures aws.log == old(aws.log) + run && ReadOnly(run) && run != []
    ensures baseline.Some? ==> Reported(run, baseline.value)
    ensures baseline.None? ==> EndsIn(run, uri)
  {
    var response := aws.DescribeService();
    baseline, run := None, [aws.log[|aws.log| - 1]];
    assert run[0].call == Snap(response);
    if response.Some? && Snapshot(response.value).Ok? {
      baseline := Some(Snapshot(response.value).value);
    }
  }

  /** The verifier up to the image checks: the candidate's repository and the settled baseline. */
  method ReadBaseline(aws: Aws, s: Settings) returns (baseline: Option<(string, Report)>, ghost run: seq<Record>)
    modifies aws`clock, aws`log
    ensures aws.log == old(aws.log) + run && ReadOnly(run)
    ensures baseline.Some? ==>
      && baseline.value.0 == aws.repositoryUri && Reported(run, baseline.value.1)
    ensures baseline.Some? ==> Configured(s) && Addressed(baseline.value.0, s) && run != [] && run[0].call == Query(true)
    ensures baseline.None? ==> Refuses(run, aws.repositoryUri, s)
  {
    baseline, run := None, [];
    if Configured(s) {
      var uri := aws.DescribeRepository();
      run := [aws.log[|aws.log| - 1]];
      AddressMeans(aws.repositoryUri, s);
      if uri.Some? && Addressed(uri.value, s) {
        var report;
        ghost var more;
        report, more := ReadSnapshot(aws, aws.repositoryUri);
        Joined(old(aws.log), run, more);
        ReportedLater(run, more);
        run := run + more;
        if report.Some? { baseline := Some((uri.value, report.value)); }
      }
    }
  }

  lemma ReportedLater(run: seq<Record>, more: seq<Record>)
    ensures forall b | Reported(more, b) :: Reported(run + more, b)
  {
    assert forall k | 0 <= k < |more| :: (run + more)[|run| + k] == more[k];
  }

  /** The checks of `verify_deployment`, one after the other. */
  method Examine(aws: Aws, s: Settings) returns (report: Option<Report>, ghost run: seq<Record>)
    modifies aws`clock, aws`log
    ensures aws.log == old(aws.log) + run && ReadOnly(run)
    ensures report.Some? ==>
      && Verified(run, report.value, aws.repositoryUri, s.digest, aws.definitions)
      && Configured(s) && Addressed(aws.repositoryUri, s) && run != [] && run[0].call == Query(true)
      && LoggedIn(run, aws.repositoryUri + "@" + s.digest, Steps(s.dockerHost))
    ensures report.None? ==> Refuses(run, aws.repositoryUri, s)
  {
    report := None;
    var baseline;
    baseline, run := ReadBaseline(aws, s);
    if baseline.None? { return; }
    var (uri, b) := baseline.value;
    ghost var first := run;
    ReportIsSettled(first, b);
    var ok, live, looked := LiveImage(aws, b, uri);
    Joined(old(aws.log), run, looked);
    run := run + looked;
    if !ok { return; }
    ghost var last;
    ok, last := Images(aws, uri + "@" + s.digest, live, uri, s.dockerHost);
    Joined(old(aws.log), run, last);
    if ok {
      VerifiedParts(first, looked, last, b, uri, s.digest, live, aws.definitions);
      LoggedInAfter(first + looked, last, uri + "@" + s.digest, Steps(s.dockerHost));
      report := Some(b);
    }
    run := run + last;
  }

  /** `verify_deployment` */
  method Verify(aws: Aws, s: Settings) returns (report: Option<Report>, ghost run: seq<Record>)
    modifies aws`clock, aws`log
    ensures aws.log == old(aws.log) + run && ReadOnly(run)
    ensures report.Some? ==>
      && Verified(run, report.value, aws.repositoryUri, s.digest, aws.definitions)
      && LiveAdmitted(run, report.value, aws.repositoryUri, aws.definitions)
      && ProperSettings(s) && InRegion(aws.repositoryUri, s) && run != [] && run[0].call == Query(true)
      && LoggedIn(run, aws.repositoryUri + "@" + s.digest, Steps(s.dockerHost))
    ensures report.None? ==> Refuses(run, aws.repositoryUri, s) && RefusesPlainly(run, aws.repositoryUri, s)
  {
    report, run := Examine(aws, s);
    SettingsMean(s);
    AddressMeans(aws.repositoryUri, s);
    if report.Some? {
      VerifiedMeans(run, report.value, aws.repositoryUri, s.digest, aws.definitions);
    } else {
      RefusesMeans(run, aws.repositoryUri, s);
    }
  }

  lemma Joined(log: seq<Record>, a: seq<Record>, b: seq<Record>)
    ensures log + a + b == log + (a + b)
    ensures ReadOnly(a) && ReadOnly(b) ==> ReadOnly(a + b)
    ensures b != [] ==> (a + b)[|a + b| - 1] == b[|b| - 1]
  {
  }

  lemma VerifiedParts(first: seq<Record>, looked: seq<Record>, last: seq<Record>,
    b: Report, uri: string, digest: string, live: Option<string>, definitions: map<string, TaskDef>)
    requires Reported(first, b) && Inspected(last, uri + "@" + digest)
    requires b.Live() ==>
      && b.task in definitions && LookedUp(looked, b.task, definitions[b.task])
      && OwnImage(definitions[b.task], uri)
      && live == Some(ImageOf(definitions[b.task].containers, "inventory")) && Inspected(last, live.value)
    ensures Verified(first + looked + last, b, uri, digest, definitions)
  {
    ReportIsSettled(first, b);
    SeenLater(first, looked);
    ExtendSeen(first, looked);
    ExtendSeen(first + looked, last);
    SeenLater(first + looked, last);
  }

  lemma ReportIsSettled(run: seq<Record>, b: Report)
    requires Reported(run, b)
    ensures Settled(b) && (b.Live() <==> b.count > 0)
  {
    var k :| 0 <= k < |run| && run[k].call.Snap? && run[k].call.response.Some? && Snapshot(run[k].call.response.value) == Ok(b);
    ReportsAreSettled(run[k].call.response.value);
  }

  /** The fresh snapshot and its comparison with the report. */
  method Recheck(aws: Aws, b: Report, ghost run: seq<Record>, ghost log: seq<Record>, s: Settings)
    returns (confirmed: Option<Json>, ghost all: seq<Record>)
    requires aws.log == log + run && ReadOnly(run) && Verified(run, b, aws.repositoryUri, s.digest, aws.definitions)
    modifies aws`clock, aws`log
    ensures aws.log == log + all && ReadOnly(all) && |all| == |run| + 1 && run <= all
    ensures confirmed.Some? ==>
      Cleared(aws.start, log, all, b, aws.repositoryUri, s.digest, aws.definitions) && Shows(all[|all| - 1].call, confirmed.value)
    ensures confirmed.None? ==> Changed(all, aws.repositoryUri, s.digest, aws.definitions)
  {
    var response := aws.DescribeService();
    ghost var last := aws.log[|aws.log| - 1];
    all := run + [last];
    assert log + run + [last] == log + all;
    assert all[..|all| - 1] == run;
    confirmed := None;
    if response.Some? && Accepts(b, response.value) {
      assert VerifiedFirst(run, all, b, aws.repositoryUri, s.digest, aws.definitions);
      RecheckMeans(b, response.value);
      TruthfulSettled(response.value, aws.Now(), b);
      confirmed := response;
    } else {
      assert ChangedFrom(all, b, aws.repositoryUri, s.digest, aws.definitions);
    }
  }
}
