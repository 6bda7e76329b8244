/**
 * The conversion the parser applies to the text of an integer literal: a
 * 64-bit signed parse whose base is taken from the text (base 0), on texts
 * of decimal digits, which are the only texts the lexer gives an integer
 * token.
 */
module Strconv {
  import opened Tokens
  import opened Results

  const MaxInt64: int := 0x7FFF_FFFF_FFFF_FFFF

  function DigitValue(b: byte): int {
    b as int - '0' as int
  }

  /** Every byte of `s` is a digit of base `base`. */
  predicate DigitsOf(s: Bytes, base: nat)
    requires 2 <= base <= 10
  {
    forall k | 0 <= k < |s| :: '0' as byte <= s[k] && DigitValue(s[k]) < base
  }

  /** The number `s` writes in base `base`, most significant digit first; 0 for no digits. */
  function Value(s: Bytes, base: nat): nat
    requires 2 <= base <= 10 && DigitsOf(s, base)
  {
    if s == [] then 0 else Value(s[..|s| - 1], base) * base + DigitValue(s[|s| - 1])
  }

  /**
   * Base 0 takes the base from the text: a leading `0` makes the rest of the
   * text octal (so `0` alone is zero and `09` is an error), anything else is
   * decimal. A value above the largest 64-bit signed integer is an error.
   */
  function ParseInt64(s: Bytes): (r: Option<int>)
    ensures r.Some? ==> 0 <= r.value <= MaxInt64
  {
    if s == [] then None
    else
      var base := if s[0] == '0' as byte then 8 else 10;
      var digits := if s[0] == '0' as byte then s[1..] else s;
      if !DigitsOf(digits, base) || Value(digits, base) > MaxInt64 then None
      else Some(Value(digits, base))
  }

  /** The decimal text of `n`, without leading zeros. */
  function Decimal(n: nat): (s: Bytes)
    ensures |s| >= 1 && DigitsOf(s, 10)
    ensures n > 0 ==> s[0] != '0' as byte
  {
    if n < 10 then [('0' as int + n) as byte]
    else Decimal(n / 10) + [('0' as int + n % 10) as byte]
  }

  lemma {:induction false} ValueOfDecimal(n: nat)
    ensures Value(Decimal(n), 10) == n
  {
    if n >= 10 {
      var s := Decimal(n);
      assert s[..|s| - 1] == Decimal(n / 10);
      ValueOfDecimal(n / 10);
    }
  }

  /** Every value in range reads back from its decimal text. */
  lemma DecimalRoundTrip(n: nat)
    requires n <= MaxInt64
    ensures ParseInt64(Decimal(n)) == Some(n)
  {
    ValueOfDecimal(n);
    if n == 0 {
      assert Decimal(n)[1..] == [];
    }
  }

  /** Every value out of range is refused from its decimal text. */
  lemma DecimalOutOfRange(n: nat)
    requires n > MaxInt64
    ensures ParseInt64(Decimal(n)) == None
  {
    ValueOfDecimal(n);
  }

  function Pow(b: nat, e: nat): nat {
    if e == 0 then 1 else b * Pow(b, e - 1)
  }

  /** A number written with `k` digits, the first not zero, is at least `base^(k-1)`. */
  lemma {:induction false} ValueLowerBound(s: Bytes, base: nat)
    requires 2 <= base <= 10 && DigitsOf(s, base) && |s| >= 1 && s[0] != '0' as byte
    ensures Value(s, base) >= Pow(base, |s| - 1)
  {
    var front := s[..|s| - 1];
    if |s| > 1 {
      assert front[0] == s[0];
      ValueLowerBound(front, base);
      MultiplyBoth(Value(front, base), Pow(base, |s| - 2), base);
    } else {
      assert front == [];
    }
  }

  lemma MultiplyBoth(a: nat, b: nat, c: nat)
    requires a >= b
    ensures a * c >= b * c
  {
  }

  /**
   * A decimal literal of twenty digits or more that does not start with `0`
   * is out of range, whatever its digits.
   */
  lemma LongDecimalIsOutOfRange(s: Bytes)
    requires DigitsOf(s, 10) && |s| >= 20 && s[0] != '0' as byte
    ensures ParseInt64(s) == None
  {
    ValueLowerBound(s, 10);
    PowMonotone(10, 19, |s| - 1);
    assert Pow(10, 19) == Pow(10, 10) * Pow(10, 9);
  }

  lemma {:induction false} PowMonotone(b: nat, e1: nat, e2: nat)
    requires 1 <= b && e1 <= e2
    ensures Pow(b, e1) <= Pow(b, e2)
    decreases e2
  {
    if e1 < e2 {
      PowMonotone(b, e1, e2 - 1);
      MultiplyBoth(b, 1, Pow(b, e2 - 1));
    }
  }

  /** After a leading `0` only octal digits are accepted. */
  lemma LeadingZeroMeansOctal(s: Bytes, k: nat)
    requires |s| >= 2 && s[0] == '0' as byte && 1 <= k < |s|
    requires s[k] == '8' as byte || s[k] == '9' as byte
    ensures ParseInt64(s) == None
  {
    assert s[1..][k - 1] == s[k];
  }
}
