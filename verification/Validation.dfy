/**
  The pure input checks of the domain classes. A `char` stands for one UTF-16
  unit of a Java string.
*/
module Validation {
  import opened Common
  import opened Names

  const MAX_QUANTITY := 1_000_000

  /** The characters `String.trim` removes. */
  predicate TrimmedChar(c: char) { c <= ' ' }

  /** `Character.isWhitespace`, which `String.isBlank` uses. */
  predicate JavaWhitespace(c: char) {
    || '\t' <= c <= '\r' || '\U{1C}' <= c <= ' '
    || c == '\U{1680}' || '\U{2000}' <= c <= '\U{2006}' || '\U{2008}' <= c <= '\U{200A}'
    || c == '\U{2028}' || c == '\U{2029}' || c == '\U{205F}' || c == '\U{3000}'
  }

  predicate Blank(s: string) { forall c | c in s :: JavaWhitespace(c) }

  predicate Upper(c: char) { 'A' <= c <= 'Z' }
  predicate Lower(c: char) { 'a' <= c <= 'z' }

  function UpperChar(c: char): char {
    if Lower(c) then (c as int - 32) as char else c
  }

  function UpperCase(s: string): (r: string)
    ensures |r| == |s| && forall i | 0 <= i < |s| :: r[i] == UpperChar(s[i])
  {
    seq(|s|, i requires 0 <= i < |s| => UpperChar(s[i]))
  }

  function TrimLeft(s: string): string {
    if s != [] && TrimmedChar(s[0]) then TrimLeft(s[1..]) else s
  }

  function TrimRight(s: string): string {
    if s != [] && TrimmedChar(s[|s| - 1]) then TrimRight(s[..|s| - 1]) else s
  }

  function Trim(s: string): string { TrimRight(TrimLeft(s)) }

  predicate SkuStart(c: char) { Upper(c) || Digit(c) }
  predicate SkuChar(c: char) { SkuStart(c) || c == '.' || c == '_' || c == '-' }

  predicate SkuShape(s: string) {
    1 <= |s| <= 64 && SkuStart(s[0]) && forall c | c in s :: SkuChar(c)
  }

  function NormalizeSku(sku: Option<string>): Option<string> {
    if sku.None? then None
    else
      var normalized := UpperCase(Trim(sku.value));
      if SkuShape(normalized) then Some(normalized) else None
  }

  predicate ValidQuantity(quantity: int) { 1 <= quantity <= MAX_QUANTITY }

  predicate ValidCustomer(customer: Option<string>) {
    customer.Some? && !Blank(customer.value) && |customer.value| <= 200
  }

  predicate KeyStart(c: char) { Upper(c) || Lower(c) || Digit(c) }
  predicate KeyChar(c: char) { KeyStart(c) || c == '.' || c == '_' || c == ':' || c == '-' }

  predicate ValidKey(key: Option<string>) {
    key.Some? ==>
      1 <= |key.value| <= 128 && KeyStart(key.value[0]) && forall c | c in key.value :: KeyChar(c)
  }

  // ---------------------------------------------------------------- SKUs

  lemma TrimFixed(s: string)
    requires s == [] || (!TrimmedChar(s[0]) && !TrimmedChar(s[|s| - 1]))
    ensures Trim(s) == s
  {
  }

  /** A normalized SKU is a fixed point of normalization. */
  lemma NormalizeIdempotent(sku: Option<string>)
    requires NormalizeSku(sku).Some?
    ensures NormalizeSku(NormalizeSku(sku)) == NormalizeSku(sku)
  {
    ShapeIsFixed(NormalizeSku(sku).value);
  }

  /** The fixed points of normalization are exactly the strings of the stored shape. */
  lemma ShapeIsFixed(s: string)
    ensures SkuShape(s) <==> NormalizeSku(Some(s)) == Some(s)
  {
    if SkuShape(s) {
      assert s[0] in s && s[|s| - 1] in s;
      TrimFixed(s);
      forall i | 0 <= i < |s| ensures UpperChar(s[i]) == s[i] {
        assert SkuChar(s[i]);
      }
      assert UpperCase(s) == s;
    }
  }

  lemma {:induction false} TrimLeftPadding(pad: string, s: string)
    requires forall c | c in pad :: TrimmedChar(c)
    ensures TrimLeft(pad + s) == TrimLeft(s)
  {
    if pad == [] {
      assert pad + s == s;
    } else {
      assert (pad + s)[1..] == pad[1..] + s;
      TrimLeftPadding(pad[1..], s);
    }
  }

  lemma {:induction false} TrimRightPadding(s: string, pad: string)
    requires forall c | c in pad :: TrimmedChar(c)
    ensures TrimRight(s + pad) == TrimRight(s)
  {
    if pad == [] {
      assert s + pad == s;
    } else {
      assert (s + pad)[..|s + pad| - 1] == s + pad[..|pad| - 1];
      TrimRightPadding(s, pad[..|pad| - 1]);
    }
  }

  lemma {:induction false} TrimLeftAppend(s: string, pad: string)
    requires forall c | c in pad :: TrimmedChar(c)
    ensures TrimRight(TrimLeft(s + pad)) == TrimRight(TrimLeft(s))
  {
    if s == [] {
      assert s + pad == pad + [];
      TrimLeftPadding(pad, []);
    } else if TrimmedChar(s[0]) {
      assert (s + pad)[1..] == s[1..] + pad;
      TrimLeftAppend(s[1..], pad);
    } else {
      TrimRightPadding(s, pad);
    }
  }

  predicate EqualIgnoringCase(a: string, b: string) { UpperCase(a) == UpperCase(b) }

  lemma {:induction false} TrimIgnoresCase(a: string, b: string)
    requires EqualIgnoringCase(a, b)
    ensures EqualIgnoringCase(TrimLeft(a), TrimLeft(b))
    ensures EqualIgnoringCase(TrimRight(a), TrimRight(b))
    decreases |a|
  {
    assert |a| == |UpperCase(a)| == |b|;
    forall i | 0 <= i < |a| ensures TrimmedChar(a[i]) <==> TrimmedChar(b[i]) {
      assert UpperCase(a)[i] == UpperCase(b)[i];
    }
    if a != [] {
      var n := |a| - 1;
      assert UpperCase(a[1..]) == UpperCase(a)[1..] == UpperCase(b[1..]);
      assert UpperCase(a[..n]) == UpperCase(a)[..n] == UpperCase(b[..n]);
      TrimIgnoresCase(a[1..], b[1..]);
      TrimIgnoresCase(a[..n], b[..n]);
    }
  }

  /** Spellings that differ only in ASCII case and in surrounding blanks normalize alike. */
  lemma NormalizeIgnoresCaseAndPadding(before: string, a: string, after: string, b: string)
    requires forall c | c in before + after :: TrimmedChar(c)
    requires EqualIgnoringCase(a, b)
    ensures NormalizeSku(Some(before + a + after)) == NormalizeSku(Some(b))
  {
    assert before + a + after == before + (a + after);
    assert forall c | c in before :: c in before + after;
    assert forall c | c in after :: c in before + after;
    TrimLeftPadding(before, a + after);
    TrimLeftAppend(a, after);
    TrimIgnoresCase(a, b);
    TrimIgnoresCase(TrimLeft(a), TrimLeft(b));
  }
}

/** The text whose hash names the advisory lock of one customer's idempotency key. */
module LockNames {
  import opened Names

  function DigitChar(d: nat): char
    requires d < 10
  {
    '0' + d as char
  }

  /** The decimal digits of a length, as Java's string concatenation prints an int. */
  function Decimal(n: nat): (s: string)
    ensures |s| > 0 && forall c | c in s :: Digit(c)
  {
    if n < 10 then [DigitChar(n)] else Decimal(n / 10) + [DigitChar(n % 10)]
  }

  function LockName(customer: string, key: string): string {
    "reservation:" + Decimal(|customer|) + ":" + customer + ":" + key
  }

  function Parse(s: string): int
    requires forall c | c in s :: Digit(c)
  {
    if s == [] then 0 else 10 * Parse(s[..|s| - 1]) + (s[|s| - 1] as int - '0' as int)
  }

  lemma {:induction false} ParseDecimal(n: nat)
    ensures Parse(Decimal(n)) == n
  {
    if n >= 10 {
      var s := Decimal(n);
      assert s[..|s| - 1] == Decimal(n / 10) && s[|s| - 1] == DigitChar(n % 10);
      ParseDecimal(n / 10);
    }
  }

  function FirstColon(s: string): nat {
    if s == [] || s[0] == ':' then 0 else 1 + FirstColon(s[1..])
  }

  lemma {:induction false} DigitsEndAtColon(digits: string, rest: string)
    requires forall c | c in digits :: Digit(c)
    ensures FirstColon(digits + ":" + rest) == |digits|
  {
    var s := digits + ":" + rest;
    if digits != [] {
      assert s[0] == digits[0] && digits[0] in digits;
      assert s[1..] == digits[1..] + ":" + rest;
      DigitsEndAtColon(digits[1..], rest);
    }
  }

  /** No two customer and key pairs share a lock name, whatever characters they hold. */
  lemma LockNameInjective(c1: string, k1: string, c2: string, k2: string)
    requires LockName(c1, k1) == LockName(c2, k2)
    ensures c1 == c2 && k1 == k2
  {
    var d1, d2 := Decimal(|c1|), Decimal(|c2|);
    var r1, r2 := c1 + ":" + k1, c2 + ":" + k2;
    var prefix := "reservation:";
    assert LockName(c1, k1) == prefix + (d1 + ":" + r1);
    assert LockName(c2, k2) == prefix + (d2 + ":" + r2);
    assert d1 + ":" + r1 == LockName(c1, k1)[|prefix|..] == d2 + ":" + r2;
    DigitsEndAtColon(d1, r1);
    DigitsEndAtColon(d2, r2);
    assert d1 == (d1 + ":" + r1)[..|d1|] && d2 == (d2 + ":" + r2)[..|d2|];
    assert r1 == (d1 + ":" + r1)[|d1| + 1..] && r2 == (d2 + ":" + r2)[|d2| + 1..];
    ParseDecimal(|c1|);
    ParseDecimal(|c2|);
    assert c1 == r1[..|c1|] && c2 == r2[..|c2|];
    assert k1 == r1[|c1| + 1..] && k2 == r2[|c2| + 1..];
  }
}
