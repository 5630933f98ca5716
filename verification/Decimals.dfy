/**
 * Decimal text: `std::to_string` of an unsigned value and `std::stoull`, which skips leading blanks, takes a
 * sign, reads the longest run of digits and ignores what follows.
 */
module Decimals {
  import opened Basics

  predicate IsBlank(b: byte) {
    b == 32 || 9 <= b <= 13
  }

  predicate IsDigit(b: byte) {
    48 <= b <= 57
  }

  function ToString(n: nat): (text: Bytes)
    ensures text != []
    ensures forall b :: b in text ==> IsDigit(b)
  {
    if n < 10 then [48 + n] else ToString(n / 10) + [48 + n % 10]
  }

  function DigitsValue(digits: Bytes): nat
    requires forall b :: b in digits ==> IsDigit(b)
  {
    if digits == [] then 0
    else
      var last := digits[|digits| - 1];
      assert IsDigit(last);
      DigitsValue(digits[..|digits| - 1]) * 10 + (last - 48)
  }

  function SkipBlanks(text: Bytes): Bytes {
    if text != [] && IsBlank(text[0]) then SkipBlanks(text[1..]) else text
  }

  function LeadingDigits(text: Bytes): (digits: Bytes)
    ensures digits <= text
    ensures forall b :: b in digits ==> IsDigit(b)
    ensures digits == text || !IsDigit(text[|digits|])
  {
    if text != [] && IsDigit(text[0]) then [text[0]] + LeadingDigits(text[1..]) else []
  }

  /** `None` stands for the exceptions `std::invalid_argument` (no digits) and `std::out_of_range`. */
  function Stoull(text: Bytes): Option<uint64> {
    var unsigned := SkipBlanks(text);
    var signed := unsigned != [] && unsigned[0] in {43, 45};
    var digits := LeadingDigits(if signed then unsigned[1..] else unsigned);
    if digits == [] then None
    else
      var value := DigitsValue(digits);
      if value >= UINT64_LIMIT then None
      else if signed && unsigned[0] == 45 then Some((UINT64_LIMIT - value) % UINT64_LIMIT)
      else Some(value)
  }

  lemma {:induction false} ToStringValue(n: nat)
    ensures DigitsValue(ToString(n)) == n
  {
    if n >= 10 {
      ToStringValue(n / 10);
      assert ToString(n)[..|ToString(n)| - 1] == ToString(n / 10);
    }
  }

  lemma {:induction false} AllDigits(text: Bytes)
    requires forall b :: b in text ==> IsDigit(b)
    ensures LeadingDigits(text) == text
  {
    if text != [] {
      AllDigits(text[1..]);
    }
  }

  /** Reading back a printed value succeeds exactly for 64-bit values and returns the value. */
  lemma StoullToString(n: nat)
    ensures Stoull(ToString(n)) == if n < UINT64_LIMIT then Some(n) else None
  {
    var text := ToString(n);
    assert IsDigit(text[0]);
    ToStringValue(n);
    AllDigits(text);
  }

  function PowerOfTen(exponent: nat): nat {
    if exponent == 0 then 1 else 10 * PowerOfTen(exponent - 1)
  }

  lemma {:induction false} ToStringLength(n: nat, length: nat)
    requires length >= 1 && n < PowerOfTen(length)
    ensures |ToString(n)| <= length
  {
    if n >= 10 {
      ToStringLength(n / 10, length - 1);
    }
  }

  lemma ToStringLength64(n: uint64)
    ensures |ToString(n)| <= 20
  {
    assert PowerOfTen(5) == 100000;
    assert PowerOfTen(10) == 100000_00000;
    assert PowerOfTen(15) == 100000_00000_00000;
    assert PowerOfTen(20) == 100000_00000_00000_00000;
    ToStringLength(n, 20);
  }
}
