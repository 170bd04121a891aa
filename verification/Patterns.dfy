/**
  Regular expressions, as the scripts and the entity classes write them, and what it means to
  match one from end to end. The recognizers of the model accept exactly what they match.
*/
module Patterns {
  import opened Common
  import opened Names
  import opened Validation

  const DIGITS := "0123456789"
  const LOWER := "abcdefghijklmnopqrstuvwxyz"
  const UPPER := "ABCDEFGHIJKLMNOPQRSTUVWXYZ"

  datatype Pattern =
    | Text(text: string)
    | Run(chars: string, low: nat, high: Option<nat>)   // `[chars]{low,high}`
    | Then(first: Pattern, second: Pattern)
    | Many(item: Pattern)                               // `(item)*`

  ghost predicate Matches(p: Pattern, s: string)
    decreases |s|, p
  {
    match p
    case Text(text) => s == text
    case Run(chars, low, high) =>
      low <= |s| && (high.Some? ==> |s| <= high.value) && forall k | 0 <= k < |s| :: s[k] in chars
    case Then(first, second) => exists k | 0 <= k <= |s| :: Matches(first, s[..k]) && Matches(second, s[k..])
    case Many(item) => s == "" || exists k | 0 < k <= |s| :: Matches(item, s[..k]) && Matches(p, s[k..])
  }

  lemma DigitIs(c: char)
    ensures Digit(c) <==> c in DIGITS
  {
    if Digit(c) { assert DIGITS[c as int - '0' as int] == c; }
  }

  lemma LowerIs(c: char)
    ensures Lower(c) <==> c in LOWER
  {
    if Lower(c) { assert LOWER[c as int - 'a' as int] == c; }
  }

  lemma UpperIs(c: char)
    ensures Upper(c) <==> c in UPPER
  {
    if Upper(c) { assert UPPER[c as int - 'A' as int] == c; }
  }

  // ---------------------------------------------------------------- the scripts' expressions

  const ALNUM := LOWER + DIGITS

  /** `sha256:[a-f0-9]{64}` */
  const DIGEST := Then(Text("sha256:"), Run("abcdef0123456789", 64, Some(64)))

  /** `[._/-][a-z0-9]+` */
  const SEGMENT := Then(Run("._/-", 1, Some(1)), Run(ALNUM, 1, None))

  /** `[a-z0-9]+(?:[._/-][a-z0-9]+)*` */
  const PATH := Then(Run(ALNUM, 1, None), Many(SEGMENT))

  /** `\d{12}\.dkr\.ecr\.[a-z0-9-]+\.amazonaws\.com/` and the path */
  const REPOSITORY :=
    Then(Run(DIGITS, 12, Some(12)), Then(Text(".dkr.ecr."),
    Then(Run(ALNUM + "-", 1, None), Then(Text(".amazonaws.com/"), PATH))))

  const REGISTRY_IMAGE := Then(REPOSITORY, Then(Text("@"), DIGEST))

  /** `arn:aws:ecs:[a-z0-9-]+:\d{12}:task-definition/[A-Za-z0-9_-]+:\d+` */
  const TASK_ARN := Then(Text("arn:aws:ecs:"), Then(Run(ALNUM + "-", 1, None), ACCOUNT_AND_NAME))

  const ACCOUNT_AND_NAME := Then(Text(":"), Then(Run(DIGITS, 12, Some(12)), Then(Text(":task-definition/"), FAMILY)))

  const FAMILY := Then(Run(UPPER + ALNUM + "_-", 1, None), REVISION)

  const REVISION := Then(Text(":"), Run(DIGITS, 1, None))

  /** `[A-Z0-9][A-Z0-9._-]{0,63}` */
  const SKU := Then(Run(UPPER + DIGITS, 1, Some(1)), Run(UPPER + DIGITS + "._-", 0, Some(63)))

  /** `[A-Za-z0-9][A-Za-z0-9._:-]{0,127}` */
  const KEY := Then(Run(UPPER + ALNUM, 1, Some(1)), Run(UPPER + ALNUM + "._:-", 0, Some(127)))

  /** A first part of known length. */
  lemma FixedFirst(chars: string, n: nat, second: Pattern, s: string)
    ensures Matches(Then(Run(chars, n, Some(n)), second), s) <==>
      |s| >= n && (forall k | 0 <= k < n :: s[k] in chars) && Matches(second, s[n..])
  {
    if |s| >= n && (forall k | 0 <= k < n :: s[k] in chars) && Matches(second, s[n..]) {
      assert Matches(Run(chars, n, Some(n)), s[..n]);
    }
  }

  lemma TextFirst(text: string, second: Pattern, s: string)
    ensures Matches(Then(Text(text), second), s) <==> Starts(s, text) && Matches(second, s[|text|..])
  {
    if Starts(s, text) && Matches(second, s[|text|..]) {
      assert s[..|text|] == text && Matches(Text(text), s[..|text|]);
    }
  }

  lemma SeparatorIs(c: char)
    ensures Separator(c) <==> c in "._/-"
  {
  }

  lemma AlnumIs(c: char)
    ensures LowerOrDigit(c) <==> c in ALNUM
    ensures RegionChar(c) <==> c in ALNUM + "-"
    ensures FamilyChar(c) <==> c in UPPER + ALNUM + "_-"
    ensures SkuStart(c) <==> c in UPPER + DIGITS
    ensures SkuChar(c) <==> c in UPPER + DIGITS + "._-"
    ensures KeyStart(c) <==> c in UPPER + ALNUM
    ensures KeyChar(c) <==> c in UPPER + ALNUM + "._:-"
    ensures Separator(c) <==> c in "._/-"
    ensures Hex(c) <==> c in "abcdef0123456789"
  {
    DigitIs(c);
    LowerIs(c);
    UpperIs(c);
  }

  ghost predicate Means(chars: string, kind: char -> bool) { forall c :: kind(c) <==> c in chars }

  lemma Alphabets()
    ensures Means(ALNUM, LowerOrDigit) && Means(ALNUM + "-", RegionChar) && Means(UPPER + ALNUM + "_-", FamilyChar)
    ensures Means(DIGITS, Digit) && Means("._/-", Separator) && Means("abcdef0123456789", Hex)
    ensures Means(UPPER + DIGITS, SkuStart) && Means(UPPER + DIGITS + "._-", SkuChar)
    ensures Means(UPPER + ALNUM, KeyStart) && Means(UPPER + ALNUM + "._:-", KeyChar)
  {
    forall c ensures Digit(c) <==> c in DIGITS { DigitIs(c); }
    forall c ensures LowerOrDigit(c) <==> c in ALNUM { AlnumIs(c); }
    forall c ensures RegionChar(c) <==> c in ALNUM + "-" { AlnumIs(c); }
    forall c ensures FamilyChar(c) <==> c in UPPER + ALNUM + "_-" { AlnumIs(c); }
    forall c ensures SkuStart(c) <==> c in UPPER + DIGITS { AlnumIs(c); }
    forall c ensures SkuChar(c) <==> c in UPPER + DIGITS + "._-" { AlnumIs(c); }
    forall c ensures KeyStart(c) <==> c in UPPER + ALNUM { AlnumIs(c); }
    forall c ensures KeyChar(c) <==> c in UPPER + ALNUM + "._:-" { AlnumIs(c); }
    forall c ensures Hex(c) <==> c in "abcdef0123456789" { AlnumIs(c); }
  }

  lemma RunMatches(chars: string, low: nat, high: Option<nat>, s: string, kind: char -> bool)
    requires Means(chars, kind)
    ensures Matches(Run(chars, low, high), s) <==> low <= |s| && (high.Some? ==> |s| <= high.value) && All(s, kind)
  {
  }

  /** One character of one kind, and then up to `n` of another. */
  lemma OneThenRun(a: string, b: string, n: nat, s: string, start: char -> bool, rest: char -> bool)
    requires Means(a, start) && Means(b, rest)
    ensures Matches(Then(Run(a, 1, Some(1)), Run(b, 0, Some(n))), s) <==>
      1 <= |s| <= n + 1 && start(s[0]) && All(s[1..], rest)
  {
    FixedFirst(a, 1, Run(b, 0, Some(n)), s);
    if s != "" { RunMatches(b, 0, Some(n), s[1..], rest); }
  }

  lemma AllMembers(s: string, kind: char -> bool)
    ensures All(s, kind) <==> forall c | c in s :: kind(c)
  {
    if forall c | c in s :: kind(c) {
      assert forall k | 0 <= k < |s| :: s[k] in s;
    }
  }

  lemma AllAfterFirst(s: string, kind: char -> bool)
    requires s != "" && kind(s[0])
    ensures All(s, kind) <==> All(s[1..], kind)
  {
    assert forall k | 0 < k < |s| :: s[k] == s[1..][k - 1];
  }

  /** The stored SKU format. */
  lemma SkuMatches(s: string)
    ensures SkuShape(s) <==> Matches(SKU, s)
  {
    Alphabets();
    OneThenRun(UPPER + DIGITS, UPPER + DIGITS + "._-", 63, s, SkuStart, SkuChar);
    if s != "" && SkuStart(s[0]) {
      AllMembers(s, SkuChar);
      AllAfterFirst(s, SkuChar);
    }
  }

  /** The idempotency keys. */
  lemma KeyMatches(s: string)
    ensures ValidKey(Some(s)) <==> Matches(KEY, s)
  {
    Alphabets();
    OneThenRun(UPPER + ALNUM, UPPER + ALNUM + "._:-", 127, s, KeyStart, KeyChar);
    if s != "" && KeyStart(s[0]) {
      AllMembers(s, KeyChar);
      AllAfterFirst(s, KeyChar);
    }
  }

  lemma DigestMatches(s: string)
    ensures ImageDigest(s) <==> Matches(DIGEST, s)
  {
    TextFirst("sha256:", DIGEST.second, s);
    if Starts(s, "sha256:") {
      Alphabets();
      RunMatches("abcdef0123456789", 64, Some(64), s[7..], Hex);
      if |s| == 71 { assert forall k | 7 <= k < 71 :: s[k] == s[7..][k - 7]; }
    }
  }

  // ---------------------------------------------------------------- repository paths

  lemma {:induction false} TailMatches(s: string)
    ensures Matches(Many(SEGMENT), s) <==> s == "" || (Separator(s[0]) && RepositoryPath(s[1..]))
    decreases |s|, 1
  {
    if s != "" && Matches(Many(SEGMENT), s) { TailIsPath(s); }
    if s != "" && Separator(s[0]) && RepositoryPath(s[1..]) { PathIsTail(s); }
  }

  lemma {:induction false} TailIsPath(s: string)
    requires s != "" && Matches(Many(SEGMENT), s)
    ensures Separator(s[0]) && RepositoryPath(s[1..])
    decreases |s|, 0
  {
    var k :| 0 < k <= |s| && Matches(SEGMENT, s[..k]) && Matches(Many(SEGMENT), s[k..]);
    FixedFirst("._/-", 1, SEGMENT.second, s[..k]);
    SeparatorIs(s[0]);
    assert s[..k][1..] == s[1..][..k - 1] && s[k..] == s[1..][k - 1..];
    PathMatches(s[1..]);
  }

  lemma {:induction false} PathIsTail(s: string)
    requires s != "" && Separator(s[0]) && RepositoryPath(s[1..])
    ensures Matches(Many(SEGMENT), s)
    decreases |s|, 0
  {
    var t := s[1..];
    PathMatches(t);
    var k :| 0 <= k <= |t| && Matches(PATH.first, t[..k]) && Matches(Many(SEGMENT), t[k..]);
    SegmentMatches(s, k);
    assert s[k + 1..] == t[k..];
  }

  lemma SegmentMatches(s: string, k: nat)
    requires s != "" && Separator(s[0]) && k <= |s[1..]| && Matches(PATH.first, s[1..][..k])
    ensures Matches(SEGMENT, s[..k + 1])
  {
    SeparatorIs(s[0]);
    FixedFirst("._/-", 1, SEGMENT.second, s[..k + 1]);
    assert s[..k + 1][1..] == s[1..][..k];
  }

  function FirstSeparator(s: string): (k: nat)
    ensures k <= |s| && (forall j | 0 <= j < k :: !Separator(s[j])) && (k < |s| ==> Separator(s[k]))
  {
    if s == "" || Separator(s[0]) then 0 else 1 + FirstSeparator(s[1..])
  }

  /** The path ends with `s[..k]`, or goes on behind a separator. */
  ghost predicate PathAt(s: string, k: int) {
    0 < k <= |s| && All(s[..k], LowerOrDigit) && (k == |s| || (Separator(s[k]) && RepositoryPath(s[k + 1..])))
  }

  lemma PathSplits(s: string)
    requires RepositoryPath(s)
    ensures PathAt(s, FirstSeparator(s))
  {
    var k := FirstSeparator(s);
    if k < |s| { PathSuffix(s, k + 1); }
  }

  lemma PathSuffix(s: string, m: nat)
    requires RepositoryPath(s) && 0 < m < |s| && LowerOrDigit(s[m])
    ensures RepositoryPath(s[m..])
  {
    var t := s[m..];
    assert forall j | 0 <= j < |t| :: t[j] == s[m + j];
  }

  lemma PathJoins(s: string, k: nat)
    requires PathAt(s, k)
    ensures RepositoryPath(s)
  {
    assert forall j | 0 <= j < k :: s[..k][j] == s[j];
    if k < |s| {
      assert forall j | k < j < |s| :: s[k + 1..][j - k - 1] == s[j];
    }
  }

  /** The repository's path is as the expression's repeated group says. */
  lemma {:induction false} PathMatches(s: string)
    ensures RepositoryPath(s) <==> Matches(PATH, s)
    decreases |s|, 2
  {
    if RepositoryPath(s) {
      PathSplits(s);
      var k := FirstSeparator(s);
      assert k < |s| ==> s[k..][1..] == s[k + 1..];
      PathPart(s, k);
    }
    if Matches(PATH, s) {
      var k :| 0 <= k <= |s| && Matches(PATH.first, s[..k]) && Matches(Many(SEGMENT), s[k..]);
      assert k < |s| ==> s[k..][1..] == s[k + 1..];
      PathPart(s, k);
      PathJoins(s, k);
    }
  }

  lemma {:induction false} PathPart(s: string, k: nat)
    requires 0 < k <= |s|
    ensures PathAt(s, k) <==> Matches(PATH.first, s[..k]) && Matches(Many(SEGMENT), s[k..])
    decreases |s|, 1
  {
    Alphabets();
    RunMatches(ALNUM, 1, None, s[..k], LowerOrDigit);
    TailMatches(s[k..]);
    assert k < |s| ==> s[k..][1..] == s[k + 1..];
  }

  // ---------------------------------------------------------------- registry images and task definitions

  /** A first part of `n` digits. */
  lemma DigitsFirst(n: nat, second: Pattern, s: string)
    ensures Matches(Then(Run(DIGITS, n, Some(n)), second), s) <==> |s| >= n && All(s[..n], Digit) && Matches(second, s[n..])
  {
    Alphabets();
    FixedFirst(DIGITS, n, second, s);
    if |s| >= n { assert forall k | 0 <= k < n :: s[..n][k] == s[k]; }
  }

  /** Where the first part of what is left behind `m` can end. */
  lemma ThenAt(first: Pattern, second: Pattern, s: string, m: nat, at: int -> bool)
    requires m <= |s| && (forall i | at(i) :: m <= i <= |s|)
    requires forall i | m <= i <= |s| :: at(i) <==> Matches(first, s[m..i]) && Matches(second, s[i..])
    ensures Matches(Then(first, second), s[m..]) <==> exists i :: at(i)
  {
    var t := s[m..];
    if Matches(Then(first, second), t) {
      var n :| 0 <= n <= |t| && Matches(first, t[..n]) && Matches(second, t[n..]);
      assert t[..n] == s[m..m + n] && t[n..] == s[m + n..];
      assert at(m + n);
    }
    if i :| at(i) {
      assert t[..i - m] == s[m..i] && t[i - m..] == s[i..];
    }
  }

  const AFTER_REGION := Then(Text(".amazonaws.com/"), PATH)

  lemma AfterRegion(t: string)
    ensures Matches(AFTER_REGION, t) <==> Starts(t, ".amazonaws.com/") && RepositoryPath(t[15..])
  {
    TextFirst(".amazonaws.com/", PATH, t);
    if Starts(t, ".amazonaws.com/") { PathMatches(t[15..]); }
  }

  ghost predicate Host(s: string) { |s| >= 21 && All(s[..12], Digit) && Starts(s[12..], ".dkr.ecr.") }

  lemma HostMatches(s: string)
    ensures Matches(REPOSITORY, s) <==> Host(s) && Matches(REPOSITORY.second.second, s[21..])
  {
    DigitsFirst(12, REPOSITORY.second, s);
    if |s| >= 12 {
      TextFirst(".dkr.ecr.", REPOSITORY.second.second, s[12..]);
      if Starts(s[12..], ".dkr.ecr.") { assert s[12..][9..] == s[21..]; }
    }
  }

  ghost predicate RegionAt(s: string, i: int) {
    && 21 <= i <= |s| && s[21..i] != "" && All(s[21..i], RegionChar)
    && Starts(s[i..], ".amazonaws.com/") && RepositoryPath(s[i..][15..])
  }

  lemma RegionPart(s: string, i: int)
    requires 21 <= i <= |s|
    ensures RegionAt(s, i) <==> Matches(Run(ALNUM + "-", 1, None), s[21..i]) && Matches(AFTER_REGION, s[i..])
  {
    Alphabets();
    RunMatches(ALNUM + "-", 1, None, s[21..i], RegionChar);
    AfterRegion(s[i..]);
  }

  lemma RepositoryParts(s: string, i: int)
    requires 21 <= i <= |s|
    ensures RepositoryAt(s, i) <==> Host(s) && RegionAt(s, i)
  {
    if Starts(s[i..], ".amazonaws.com/") { assert s[i..][15..] == s[i + 15..]; }
  }

  /** The repository's address. */
  lemma RepositoryMatches(s: string)
    ensures RegistryRepository(s) <==> Matches(REPOSITORY, s)
  {
    HostMatches(s);
    if |s| >= 21 {
      forall i | 21 <= i <= |s| ensures RepositoryAt(s, i) <==> Host(s) && RegionAt(s, i) { RepositoryParts(s, i); }
      forall i | 21 <= i <= |s|
        ensures RegionAt(s, i) <==> Matches(Run(ALNUM + "-", 1, None), s[21..i]) && Matches(AFTER_REGION, s[i..])
      {
        RegionPart(s, i);
      }
      ThenAt(Run(ALNUM + "-", 1, None), AFTER_REGION, s, 21, (i: int) => RegionAt(s, i));
    }
  }

  ghost predicate Lacks(p: Pattern, c: char) {
    match p
    case Text(text) => c !in text
    case Run(chars, _, _) => c !in chars
    case Then(first, second) => Lacks(first, c) && Lacks(second, c)
    case Many(item) => Lacks(item, c)
  }

  lemma {:induction false} LacksMeans(p: Pattern, s: string, c: char)
    requires Matches(p, s) && Lacks(p, c)
    ensures c !in s
    decreases |s|, p
  {
    match p
    case Text(_) =>
    case Run(_, _, _) =>
    case Then(first, second) =>
      var k :| 0 <= k <= |s| && Matches(first, s[..k]) && Matches(second, s[k..]);
      LacksMeans(first, s[..k], c);
      LacksMeans(second, s[k..], c);
      assert s == s[..k] + s[k..];
    case Many(item) =>
      if s != "" {
        var k :| 0 < k <= |s| && Matches(item, s[..k]) && Matches(p, s[k..]);
        LacksMeans(item, s[..k], c);
        LacksMeans(p, s[k..], c);
        assert s == s[..k] + s[k..];
      }
  }

  lemma LacksThen(first: Pattern, second: Pattern, c: char)
    requires Lacks(first, c) && (Lacks(second, c) || (second.Many? && Lacks(second.item, c)))
    ensures Lacks(Then(first, second), c)
  {
  }

  lemma RepositoryHasNoAt(s: string)
    requires RegistryRepository(s)
    ensures '@' !in s
  {
    RepositoryMatches(s);
    AlnumIs('@');
    DigitIs('@');
    LacksThen(Run("._/-", 1, Some(1)), Run(ALNUM, 1, None), '@');
    LacksThen(Run(ALNUM, 1, None), Many(SEGMENT), '@');
    LacksThen(Text(".amazonaws.com/"), PATH, '@');
    LacksThen(Run(ALNUM + "-", 1, None), AFTER_REGION, '@');
    LacksThen(Text(".dkr.ecr."), REPOSITORY.second.second, '@');
    LacksThen(Run(DIGITS, 12, Some(12)), REPOSITORY.second, '@');
    LacksMeans(REPOSITORY, s, '@');
  }

  ghost predicate ImageAt(s: string, k: int) {
    0 <= k < |s| && RegistryRepository(s[..k]) && s[k] == '@' && ImageDigest(s[k + 1..])
  }

  lemma ImagePart(s: string, k: int)
    requires 0 <= k <= |s|
    ensures ImageAt(s, k) <==> Matches(REPOSITORY, s[0..k]) && Matches(REGISTRY_IMAGE.second, s[k..])
  {
    assert s[0..k] == s[..k];
    RepositoryMatches(s[..k]);
    TextFirst("@", DIGEST, s[k..]);
    if k < |s| {
      assert s[k..][1..] == s[k + 1..];
      DigestMatches(s[k + 1..]);
    }
  }

  lemma ImageParts(s: string)
    ensures RegistryImage(s) <==> exists k :: ImageAt(s, k)
  {
    if RegistryImage(s) { assert ImageAt(s, |s| - 72); }
  }

  /** Digest-pinned images in a private registry. */
  lemma RegistryImageMatches(s: string)
    ensures RegistryImage(s) <==> Matches(REGISTRY_IMAGE, s)
  {
    ImageParts(s);
    forall k | 0 <= k <= |s|
      ensures ImageAt(s, k) <==> Matches(REPOSITORY, s[0..k]) && Matches(REGISTRY_IMAGE.second, s[k..])
    {
      ImagePart(s, k);
    }
    ThenAt(REPOSITORY, REGISTRY_IMAGE.second, s, 0, (k: int) => ImageAt(s, k));
    assert s[0..] == s;
  }

  /** The family of a task definition ends at `k`, before its revision. */
  ghost predicate FamilyAt(s: string, m: int, k: int) {
    && 0 <= m <= k < |s| && s[m..k] != "" && All(s[m..k], FamilyChar)
    && s[k] == ':' && s[k + 1..] != "" && All(s[k + 1..], Digit)
  }

  ghost predicate HasFamily(s: string, m: int) { exists k :: FamilyAt(s, m, k) }

  lemma FamilyPart(s: string, m: nat, k: int)
    requires m <= k <= |s|
    ensures FamilyAt(s, m, k) <==> Matches(FAMILY.first, s[m..k]) && Matches(REVISION, s[k..])
  {
    Alphabets();
    RunMatches(UPPER + ALNUM + "_-", 1, None, s[m..k], FamilyChar);
    TextFirst(":", REVISION.second, s[k..]);
    if k < |s| {
      assert s[k..][1..] == s[k + 1..];
      RunMatches(DIGITS, 1, None, s[k + 1..], Digit);
    }
  }

  lemma FamilyMatches(s: string, m: nat)
    requires m <= |s|
    ensures Matches(FAMILY, s[m..]) <==> HasFamily(s, m)
  {
    forall k | m <= k <= |s| ensures FamilyAt(s, m, k) <==> Matches(FAMILY.first, s[m..k]) && Matches(REVISION, s[k..]) {
      FamilyPart(s, m, k);
    }
    ThenAt(FAMILY.first, REVISION, s, m, (k: int) => FamilyAt(s, m, k));
  }

  /** The account follows the region that ends at `i`. */
  ghost predicate AccountAt(s: string, i: int) {
    && 0 <= i && i + 30 <= |s| && s[i] == ':' && All(s[i + 1..i + 13], Digit) && Starts(s[i + 13..], ":task-definition/")
  }

  lemma AccountMatches(s: string, i: nat)
    requires i <= |s|
    ensures Matches(ACCOUNT_AND_NAME, s[i..]) <==> AccountAt(s, i) && Matches(FAMILY, s[i + 30..])
  {
    TextFirst(":", ACCOUNT_AND_NAME.second, s[i..]);
    if i < |s| {
      assert s[i..][1..] == s[i + 1..];
      DigitsFirst(12, ACCOUNT_AND_NAME.second.second, s[i + 1..]);
      if i + 13 <= |s| {
        assert s[i + 1..][..12] == s[i + 1..i + 13] && s[i + 1..][12..] == s[i + 13..];
        TextFirst(":task-definition/", FAMILY, s[i + 13..]);
        if Starts(s[i + 13..], ":task-definition/") { assert s[i + 13..][17..] == s[i + 30..]; }
      }
    }
  }

  ghost predicate NameHead(s: string, i: int) {
    12 <= i <= |s| && Starts(s, "arn:aws:ecs:") && s[12..i] != "" && All(s[12..i], RegionChar)
  }

  ghost predicate NameAt(s: string, i: int) {
    NameHead(s, i) && AccountAt(s, i) && HasFamily(s, i + 30)
  }

  lemma NamePart(s: string, i: int)
    requires 12 <= i <= |s| && Starts(s, "arn:aws:ecs:")
    ensures NameAt(s, i) <==> Matches(TASK_ARN.second.first, s[12..i]) && Matches(ACCOUNT_AND_NAME, s[i..])
  {
    Alphabets();
    RunMatches(ALNUM + "-", 1, None, s[12..i], RegionChar);
    AccountMatches(s, i);
    if AccountAt(s, i) { FamilyMatches(s, i + 30); }
  }

  lemma NamedAt(s: string, i: int, j: int, k: int)
    requires 12 <= i < j && j + 17 <= k < |s|
    ensures TaskArnAt(s, i, j, k) <==> j == i + 13 && NameHead(s, i) && AccountAt(s, i) && FamilyAt(s, i + 30, k)
  {
  }

  lemma NameParts(s: string)
    ensures TaskArn(s) <==> exists i :: NameAt(s, i)
  {
    if TaskArn(s) {
      var i, j, k :| 12 <= i < |s| && i < j < |s| && j + 17 <= k < |s| && TaskArnAt(s, i, j, k);
      NamedAt(s, i, j, k);
      assert NameAt(s, i);
    }
    if i :| NameAt(s, i) {
      var k :| FamilyAt(s, i + 30, k);
      NamedAt(s, i, i + 13, k);
    }
  }

  /** The full names of registered task definitions. */
  lemma TaskArnMatches(s: string)
    ensures TaskArn(s) <==> Matches(TASK_ARN, s)
  {
    NameParts(s);
    TextFirst("arn:aws:ecs:", TASK_ARN.second, s);
    if Starts(s, "arn:aws:ecs:") {
      forall i | 12 <= i <= |s|
        ensures NameAt(s, i) <==> Matches(TASK_ARN.second.first, s[12..i]) && Matches(ACCOUNT_AND_NAME, s[i..])
      {
        NamePart(s, i);
      }
      ThenAt(TASK_ARN.second.first, ACCOUNT_AND_NAME, s, 12, (i: int) => NameAt(s, i));
    }
  }

  // ---------------------------------------------------------------- trimming, case and blanks

  /** The characters for which `Character.isWhitespace` holds. */
  const WHITESPACE := ['\t', '\n', '\U{0B}', '\U{0C}', '\r', '\U{1C}', '\U{1D}', '\U{1E}', '\U{1F}', ' ', '\U{1680}',
    '\U{2000}', '\U{2001}', '\U{2002}', '\U{2003}', '\U{2004}', '\U{2005}', '\U{2006}', '\U{2008}', '\U{2009}', '\U{200A}',
    '\U{2028}', '\U{2029}', '\U{205F}', '\U{3000}']

  lemma WhitespaceIs(c: char)
    ensures JavaWhitespace(c) <==> c in WHITESPACE
  {
  }

  /** A text is blank when it holds nothing else. */
  lemma BlankMeans(s: string)
    ensures !Blank(s) <==> exists k :: 0 <= k < |s| && s[k] !in WHITESPACE
  {
    if c :| c in s && !JavaWhitespace(c) {
      WhitespaceIs(c);
      var k :| 0 <= k < |s| && s[k] == c;
    }
    if k :| 0 <= k < |s| && s[k] !in WHITESPACE {
      WhitespaceIs(s[k]);
      assert s[k] in s;
    }
  }

  predicate Padding(s: string) { forall k | 0 <= k < |s| :: s[k] <= ' ' }

  /** `t` is what is left of `s` without its leading and trailing characters up to the blank. */
  ghost predicate TrimsTo(s: string, t: string) {
    && (exists x, y :: Padding(x) && Padding(y) && s == x + t + y)
    && (t != "" ==> t[0] > ' ' && t[|t| - 1] > ' ')
  }

  lemma {:induction false} TrimLeftSplits(s: string) returns (x: string)
    ensures Padding(x) && s == x + TrimLeft(s)
    ensures TrimLeft(s) != "" ==> TrimLeft(s)[0] > ' '
  {
    x := "";
    if s != "" && s[0] <= ' ' {
      x := TrimLeftSplits(s[1..]);
      x := [s[0]] + x;
    }
  }

  lemma {:induction false} TrimRightSplits(s: string) returns (y: string)
    ensures Padding(y) && s == TrimRight(s) + y
    ensures TrimRight(s) != "" ==> TrimRight(s)[|TrimRight(s)| - 1] > ' ' && s[0] == TrimRight(s)[0]
  {
    y := "";
    if s != "" && s[|s| - 1] <= ' ' {
      y := TrimRightSplits(s[..|s| - 1]);
      y := y + [s[|s| - 1]];
    }
  }

  lemma TrimSplits(s: string)
    ensures TrimsTo(s, Trim(s))
  {
    var x := TrimLeftSplits(s);
    var y := TrimRightSplits(TrimLeft(s));
    assert s == x + Trim(s) + y;
  }

  lemma TrimsToOne(x: string, t: string, y: string)
    requires Padding(x) && Padding(y) && (t != "" ==> t[0] > ' ' && t[|t| - 1] > ' ')
    ensures Trim(x + t + y) == t
  {
    assert x + t + y == x + (t + y);
    TrimLeftPadding(x, t + y);
    TrimLeftAppend(t, y);
    TrimFixed(t);
  }

  /** `String.trim` removes the leading and trailing characters up to the blank, and no others. */
  lemma TrimMeans(s: string, t: string)
    ensures Trim(s) == t <==> TrimsTo(s, t)
  {
    TrimSplits(s);
    if TrimsTo(s, t) {
      var x, y :| Padding(x) && Padding(y) && s == x + t + y;
      TrimsToOne(x, t, y);
    }
  }

  /** `b` is `a` with its small letters as capitals. */
  ghost predicate Capitalizes(a: string, b: string) {
    && |a| == |b|
    && forall i | 0 <= i < |a| :: CapitalOf(a[i], b[i])
  }

  ghost predicate CapitalOf(c: char, d: char) {
    if c in LOWER then exists k :: 0 <= k < 26 && LOWER[k] == c && UPPER[k] == d else d == c
  }

  lemma CapitalIs(c: char, d: char)
    ensures UpperChar(c) == d <==> CapitalOf(c, d)
  {
    LowerIs(c);
    if Lower(c) {
      var n := c as int - 'a' as int;
      assert LOWER[n] == c && UPPER[n] == UpperChar(c);
      assert forall k | 0 <= k < 26 && LOWER[k] == c :: k == n;
    }
  }

  lemma UpperCaseMeans(a: string, b: string)
    ensures UpperCase(a) == b <==> Capitalizes(a, b)
  {
    forall i | 0 <= i < |a| && i < |b| ensures UpperChar(a[i]) == b[i] <==> CapitalOf(a[i], b[i]) {
      CapitalIs(a[i], b[i]);
    }
  }

  /** What is left of the given text after trimming reads, in capitals, like the SKU. */
  ghost predicate Spells(given: string, sku: string) {
    Matches(SKU, sku) && exists a :: SpelledBy(given, a, sku)
  }

  ghost predicate SpelledBy(given: string, a: string, sku: string) { TrimsTo(given, a) && Capitalizes(a, sku) }

  lemma SpelledMeans(given: string, a: string, sku: string)
    ensures SpelledBy(given, a, sku) <==> Trim(given) == a && UpperCase(a) == sku
  {
    TrimMeans(given, a);
    UpperCaseMeans(a, sku);
  }

  /** Normalization yields exactly the SKU that the given text spells, and fails when it spells none. */
  lemma NormalizeMeans(given: string, sku: string)
    ensures NormalizeSku(Some(given)) == Some(sku) <==> Spells(given, sku)
  {
    SkuMatches(sku);
    SpelledMeans(given, Trim(given), sku);
    if a :| SpelledBy(given, a, sku) {
      SpelledMeans(given, a, sku);
    }
  }
}
