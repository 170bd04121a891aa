/** The load test's nearest-rank percentile. */
module Percentile {
  import opened Common
  import opened Sorting

  datatype IndexError = IndexError

  function Same(v: real): real { v }

  function AtMost(x: real): real -> bool { v => v <= x }

  function Below(x: real): real -> bool { v => v < x }

  function Ceiling(x: real): int { -((-x).Floor) }

  /** The number of values that `percent` of them amount to. */
  function Share(values: seq<real>, percent: real): real { |values| as real * percent / 100.0 }

  function Rank(values: seq<real>, percent: real): nat {
    var k := Ceiling(Share(values, percent)) - 1;
    if k < 0 then 0 else k
  }

  /** None for no values; an index error past the end of the list. */
  function Percentile(values: seq<real>, percent: real): Result<Option<real>, IndexError> {
    if values == [] then Ok(None)
    else if Rank(values, percent) >= |values| then Err(IndexError)
    else
      SortKeeps(values, Same, AtMost(0.0));
      Ok(Some(SortBy(values, Same)[Rank(values, percent)]))
  }

  /** `x` has at least the share of values at or below it, and less than the share below it. */
  ghost predicate NearestRank(values: seq<real>, percent: real, x: real) {
    && x in values
    && Matches(values, AtMost(x)) as real >= Share(values, percent)
    && (Matches(values, Below(x)) as real) < Share(values, percent)
  }

  lemma CeilingIs(x: real)
    ensures Ceiling(x) as real >= x > Ceiling(x) as real - 1.0
  {
  }

  lemma ShareBounds(values: seq<real>, percent: real)
    requires values != []
    ensures percent > 0.0 <==> Share(values, percent) > 0.0
    ensures percent <= 100.0 <==> Share(values, percent) <= |values| as real
  {
    var n := |values| as real;
    assert n > 0.0;
    if percent > 0.0 {
      assert n * percent > 0.0;
    } else {
      assert n * percent <= 0.0;
    }
    if percent <= 100.0 {
      assert n * (100.0 - percent) >= 0.0;
    } else {
      assert n * (percent - 100.0) > 0.0;
    }
  }

  lemma CountUpTo(s: seq<real>, k: nat, x: real)
    requires k <= |s| && forall i | 0 <= i < k :: s[i] <= x
    ensures Matches(s, AtMost(x)) >= k
  {
    assert s == s[..k] + s[k..];
    MatchesAppend(s[..k], s[k..], AtMost(x));
    MatchesAll(s[..k], AtMost(x));
  }

  lemma CountBelow(s: seq<real>, k: nat, x: real)
    requires k <= |s| && forall i | k <= i < |s| :: x <= s[i]
    ensures Matches(s, Below(x)) <= k
  {
    assert s == s[..k] + s[k..];
    MatchesAppend(s[..k], s[k..], Below(x));
    MatchesAll(s[..k], Below(x));
    MatchesAll(s[k..], Below(x));
  }

  /** In an ordered list, the element at `k` has more than `k` values at or below it and at most `k` below it. */
  lemma OrderedCounts(s: seq<real>, k: nat)
    requires Ordered(s, Same) && k < |s|
    ensures Matches(s, AtMost(s[k])) >= k + 1 && Matches(s, Below(s[k])) <= k
  {
    forall i | 0 <= i < k ensures s[i] <= s[k] {
      assert Same(s[i]) <= Same(s[k]);
    }
    forall i | k < i < |s| ensures s[k] <= s[i] {
      assert Same(s[k]) <= Same(s[i]);
    }
    CountUpTo(s, k + 1, s[k]);
    CountBelow(s, k, s[k]);
  }

  /** Fewer values lie at or below a smaller member than below a larger one, inclusive. */
  lemma CountsOrder(values: seq<real>, x: real, y: real)
    requires x < y
    ensures Matches(values, AtMost(x)) <= Matches(values, Below(y))
  {
    MatchesImplies(values, AtMost(x), Below(y));
  }

  lemma OnlyOne(values: seq<real>, percent: real, x: real, y: real)
    requires NearestRank(values, percent, x) && NearestRank(values, percent, y)
    ensures x == y
  {
    if x < y { CountsOrder(values, x, y); }
    if y < x { CountsOrder(values, y, x); }
  }

  lemma PercentileRanks(values: seq<real>, percent: real)
    requires values != [] && 0.0 < percent <= 100.0
    ensures Percentile(values, percent).Ok? && Percentile(values, percent).value.Some?
    ensures NearestRank(values, percent, Percentile(values, percent).value.value)
  {
    ShareBounds(values, percent);
    var share := Share(values, percent);
    CeilingIs(share);
    var k := Rank(values, percent);
    assert k == Ceiling(share) - 1;
    SortKeeps(values, Same, AtMost(0.0));
    var s := SortBy(values, Same);
    OrderedCounts(s, k);
    SortKeeps(values, Same, AtMost(s[k]));
    SortKeeps(values, Same, Below(s[k]));
  }

  /** The result is exactly the one member with that share of values up to it and less below it. */
  lemma PercentileIsNearestRank(values: seq<real>, percent: real, x: real)
    requires 0.0 < percent <= 100.0
    ensures Percentile(values, percent) == Ok(Some(x)) <==> NearestRank(values, percent, x)
  {
    if values != [] {
      PercentileRanks(values, percent);
      if NearestRank(values, percent, x) {
        OnlyOne(values, percent, x, Percentile(values, percent).value.value);
      }
    }
  }

  lemma ProductNonNegative(a: real, b: real)
    requires a >= 0.0 && b >= 0.0
    ensures a * b >= 0.0
  {
  }

  lemma ProductDifference(n: real, p: real, q: real)
    ensures n * q - n * p == n * (q - p)
  {
  }

  lemma ShareGrows(values: seq<real>, p: real, q: real)
    requires p <= q
    ensures Rank(values, p) <= Rank(values, q)
  {
    ProductNonNegative(|values| as real, q - p);
    ProductDifference(|values| as real, p, q);
    CeilingIs(Share(values, q));
    CeilingIs(Share(values, p));
  }

  /** It fails exactly above one hundred percent of some values. */
  lemma PercentileFails(values: seq<real>, percent: real)
    ensures Percentile(values, percent).Err? <==> values != [] && percent > 100.0
  {
    if values != [] {
      ShareBounds(values, percent);
      CeilingIs(Share(values, percent));
    }
  }

  /** It grows with the percentage. */
  lemma PercentileMonotone(values: seq<real>, p: real, q: real)
    requires values != [] && p <= q <= 100.0
    ensures Percentile(values, p).Ok? && Percentile(values, q).Ok?
    ensures Percentile(values, p).value.value <= Percentile(values, q).value.value
  {
    PercentileFails(values, p);
    PercentileFails(values, q);
    ShareGrows(values, p, q);
    SortKeeps(values, Same, AtMost(0.0));
    var s := SortBy(values, Same);
    assert Same(s[Rank(values, p)]) <= Same(s[Rank(values, q)]);
  }

  lemma {:induction false} AllAtMost(values: seq<real>, x: real)
    requires Matches(values, AtMost(x)) >= |values|
    ensures forall k | 0 <= k < |values| :: values[k] <= x
  {
    if values != [] {
      MatchesAll(values[1..], AtMost(x));
      assert AtMost(x)(values[0]);
      AllAtMost(values[1..], x);
      assert forall k | 0 < k < |values| :: values[k] == values[1..][k - 1];
    }
  }

  /** At one hundred percent it is the maximum, which bounds every other percentile. */
  lemma PercentileBounded(values: seq<real>, percent: real)
    requires values != [] && percent <= 100.0
    ensures var top := Percentile(values, 100.0);
            top.Ok? && top.value.Some? && top.value.value in values
            && (forall k | 0 <= k < |values| :: values[k] <= top.value.value)
            && Percentile(values, percent).Ok? && Percentile(values, percent).value.value <= top.value.value
  {
    PercentileRanks(values, 100.0);
    AllAtMost(values, Percentile(values, 100.0).value.value);
    PercentileMonotone(values, percent, 100.0);
  }
}
