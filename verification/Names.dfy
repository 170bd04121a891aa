/** The shapes of digests, image references and task definition names. */
module Names {
  predicate Digit(c: char) { '0' <= c <= '9' }

  predicate LowerOrDigit(c: char) { Digit(c) || 'a' <= c <= 'z' }

  predicate RegionChar(c: char) { LowerOrDigit(c) || c == '-' }

  predicate FamilyChar(c: char) { LowerOrDigit(c) || 'A' <= c <= 'Z' || c == '_' || c == '-' }

  predicate Hex(c: char) { Digit(c) || 'a' <= c <= 'f' }

  predicate Separator(c: char) { c == '.' || c == '_' || c == '/' || c == '-' }

  predicate Starts(s: string, prefix: string) { prefix <= s }

  predicate Contains(s: string, part: string) {
    exists k | 0 <= k <= |s| :: Starts(s[k..], part)
  }

  lemma StartContains(s: string, prefix: string)
    requires Starts(s, prefix)
    ensures Contains(s, prefix)
  {
    assert Starts(s[0..], prefix);
  }

  /** `^sha256:[0-9a-f]{64}$` */
  predicate ImageDigest(s: string) {
    Starts(s, "sha256:") && |s| == 71 && forall k | 7 <= k < 71 :: Hex(s[k])
  }

  /** `[a-z0-9]+([._/-][a-z0-9]+)*` */
  predicate RepositoryPath(s: string) {
    && s != [] && LowerOrDigit(s[0]) && LowerOrDigit(s[|s| - 1])
    && (forall k | 0 <= k < |s| :: LowerOrDigit(s[k]) || Separator(s[k]))
    && (forall k | 0 < k < |s| :: Separator(s[k]) ==> !Separator(s[k - 1]))
  }

  predicate All(s: string, kind: char -> bool) { forall k | 0 <= k < |s| :: kind(s[k]) }

  /** The repository name whose region ends at `i`. */
  predicate RepositoryAt(s: string, i: int)
    requires 21 <= i <= |s|
  {
    && All(s[..12], Digit) && Starts(s[12..], ".dkr.ecr.") && s[21..i] != "" && All(s[21..i], RegionChar)
    && Starts(s[i..], ".amazonaws.com/") && RepositoryPath(s[i + 15..])
  }

  predicate RegistryRepository(s: string) {
    exists i | 21 <= i <= |s| :: RepositoryAt(s, i)
  }

  /** A digest-pinned image in a private registry. */
  predicate RegistryImage(s: string) {
    |s| > 72 && s[|s| - 72] == '@' && ImageDigest(s[|s| - 71..]) && RegistryRepository(s[..|s| - 72])
  }

  /** The task definition name whose region, account and family end at `i`, `j` and `k`. */
  predicate TaskArnAt(s: string, i: int, j: int, k: int)
    requires 12 <= i < j && j + 17 <= k < |s|
  {
    && Starts(s, "arn:aws:ecs:") && s[12..i] != "" && All(s[12..i], RegionChar)
    && s[i] == ':' && j == i + 13 && All(s[i + 1..j], Digit)
    && Starts(s[j..], ":task-definition/") && s[j + 17..k] != "" && All(s[j + 17..k], FamilyChar)
    && s[k] == ':' && s[k + 1..] != "" && All(s[k + 1..], Digit)
  }

  /** The full name of a registered task definition. */
  predicate TaskArn(s: string) {
    exists i, j, k | 12 <= i < |s| && i < j < |s| && j + 17 <= k < |s| :: TaskArnAt(s, i, j, k)
  }
}
