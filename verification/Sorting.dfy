/** Stable sorting by a numeric key, and counting, as the load test uses them. */
module Sorting {

  function Insert<T>(x: T, s: seq<T>, key: T -> real): seq<T> {
    if s == [] || key(x) < key(s[0]) then [x] + s else [s[0]] + Insert(x, s[1..], key)
  }

  /** `sorted(s, key=key)` */
  function SortBy<T>(s: seq<T>, key: T -> real): seq<T> {
    if s == [] then [] else Insert(s[|s| - 1], SortBy(s[..|s| - 1], key), key)
  }

  function Matches<T>(s: seq<T>, p: T -> bool): nat {
    if s == [] then 0 else (if p(s[0]) then 1 else 0) + Matches(s[1..], p)
  }

  ghost predicate Ordered<T>(s: seq<T>, key: T -> real) {
    forall i, j | 0 <= i < j < |s| :: key(s[i]) <= key(s[j])
  }

  lemma {:induction false} MatchesAppend<T>(a: seq<T>, b: seq<T>, p: T -> bool)
    ensures Matches(a + b, p) == Matches(a, p) + Matches(b, p)
  {
    if a == [] {
      assert a + b == b;
    } else {
      assert (a + b)[1..] == a[1..] + b;
      MatchesAppend(a[1..], b, p);
    }
  }

  lemma {:induction false} InsertKeeps<T>(x: T, s: seq<T>, key: T -> real, p: T -> bool)
    requires Ordered(s, key)
    ensures Ordered(Insert(x, s, key), key) && |Insert(x, s, key)| == |s| + 1
    ensures Matches(Insert(x, s, key), p) == Matches(s, p) + (if p(x) then 1 else 0)
    ensures forall k | 0 <= k < |s| + 1 :: Insert(x, s, key)[k] == x || Insert(x, s, key)[k] in s
  {
    if s == [] || key(x) < key(s[0]) {
      assert ([x] + s)[1..] == s;
    } else {
      InsertKeeps(x, s[1..], key, p);
      var rest := Insert(x, s[1..], key);
      assert ([s[0]] + rest)[1..] == rest;
      forall k | 0 <= k < |rest| ensures key(s[0]) <= key(rest[k]) {
      }
    }
  }

  /** Sorting orders the elements and keeps every count of them. */
  lemma {:induction false} SortKeeps<T>(s: seq<T>, key: T -> real, p: T -> bool)
    ensures Ordered(SortBy(s, key), key) && |SortBy(s, key)| == |s|
    ensures Matches(SortBy(s, key), p) == Matches(s, p)
    ensures forall k | 0 <= k < |s| :: SortBy(s, key)[k] in s
  {
    if s != [] {
      var n := |s| - 1;
      SortKeeps(s[..n], key, p);
      InsertKeeps(s[n], SortBy(s[..n], key), key, p);
      assert s == s[..n] + [s[n]];
      MatchesAppend(s[..n], [s[n]], p);
    }
  }

  lemma {:induction false} MatchesAll<T>(s: seq<T>, p: T -> bool)
    ensures Matches(s, p) <= |s|
    ensures (forall k | 0 <= k < |s| :: p(s[k])) ==> Matches(s, p) == |s|
    ensures (forall k | 0 <= k < |s| :: !p(s[k])) ==> Matches(s, p) == 0
    ensures (exists k | 0 <= k < |s| :: p(s[k])) ==> Matches(s, p) > 0
  {
    if s != [] {
      MatchesAll(s[1..], p);
      assert forall k | 0 < k < |s| :: s[k] == s[1..][k - 1];
    }
  }

  lemma {:induction false} MatchesImplies<T>(s: seq<T>, p: T -> bool, q: T -> bool)
    requires forall k | 0 <= k < |s| :: p(s[k]) ==> q(s[k])
    ensures Matches(s, p) <= Matches(s, q)
  {
    if s != [] {
      assert forall k | 0 <= k < |s[1..]| :: s[1..][k] == s[k + 1];
      MatchesImplies(s[1..], p, q);
    }
  }

  lemma {:induction false} MatchAt<T>(s: seq<T>, p: T -> bool) returns (k: nat)
    requires Matches(s, p) > 0
    ensures k < |s| && p(s[k])
  {
    if p(s[0]) {
      k := 0;
    } else {
      k := MatchAt(s[1..], p);
      k := k + 1;
    }
  }
}
