/** Decimal numbers in option values, digit by digit. */
module Numerals {
  import opened Basics
  import opened Decimals

  predicate Digits(text: Bytes) {
    forall i :: 0 <= i < |text| ==> 48 <= text[i] <= 57
  }

  /** What a row of digits is worth. */
  function Worth(digits: Bytes): int {
    if digits == [] then 0 else 10 * Worth(digits[..|digits| - 1]) + (digits[|digits| - 1] as int - 48)
  }

  lemma {:induction false} WorthIsValue(digits: Bytes)
    requires Digits(digits)
    ensures (forall b :: b in digits ==> IsDigit(b)) && DigitsValue(digits) == Worth(digits)
  {
    if digits != [] {
      WorthIsValue(digits[..|digits| - 1]);
    }
  }

  /** The usual way to write a number: no leading zero, unless it is the only digit. */
  predicate Plain(digits: Bytes) {
    digits != [] && Digits(digits) && (|digits| > 1 ==> digits[0] != 48)
  }

  lemma {:induction false} PlainPositive(digits: Bytes)
    requires Plain(digits)
    ensures Worth(digits) >= 0 && (|digits| > 1 ==> Worth(digits) >= 10)
  {
    if |digits| > 1 {
      PlainPositive(digits[..|digits| - 1]);
      if |digits| == 2 {
        assert digits[..1] == [digits[0]] && Worth([digits[0]]) == digits[0] as int - 48;
      }
    }
  }

  /** A number is printed in the usual way, and there is only one. */
  lemma {:induction false} Printed(n: nat, text: Bytes)
    ensures ToString(n) == text <==> Plain(text) && Worth(text) == n
    decreases n
  {
    PrintedPlainly(n);
    if Plain(text) && Worth(text) == n {
      PlainOnce(ToString(n), text);
    }
  }

  lemma {:induction false} PrintedPlainly(n: nat)
    ensures Plain(ToString(n)) && Worth(ToString(n)) == n && (n > 0 ==> ToString(n)[0] != 48)
  {
    var text := ToString(n);
    if n < 10 {
      assert text == [48 + n] && text[..0] == [];
    } else {
      PrintedPlainly(n / 10);
      assert text[..|text| - 1] == ToString(n / 10);
    }
  }

  lemma {:induction false} PlainOnce(one: Bytes, other: Bytes)
    requires Plain(one) && Plain(other) && Worth(one) == Worth(other)
    ensures one == other
    decreases |one|
  {
    PlainPositive(one);
    PlainPositive(other);
    if |one| == 1 || |other| == 1 {
      assert |one| == 1 ==> one == [one[0]] && Worth(one) == one[0] as int - 48 by {
        if |one| == 1 { assert one[..0] == []; }
      }
      assert |other| == 1 ==> other == [other[0]] && Worth(other) == other[0] as int - 48 by {
        if |other| == 1 { assert other[..0] == []; }
      }
    } else {
      var a, b := one[..|one| - 1], other[..|other| - 1];
      assert Worth(a) == Worth(b);
      PlainOnce(a, b);
      assert one == a + [one[|one| - 1]] && other == b + [other[|other| - 1]];
    }
  }

  // Reading

  predicate Blanks(text: Bytes) {
    forall i :: 0 <= i < |text| ==> text[i] == 32 || 9 <= text[i] <= 13
  }

  /** Blanks, a sign, a row of digits, and whatever follows it. */
  ghost predicate Consists(text: Bytes, blanks: Bytes, sign: Bytes, digits: Bytes, rest: Bytes) {
    && text == blanks + sign + digits + rest
    && Blanks(blanks) && sign in {[], [43], [45]} && Digits(digits)
    && (rest != [] ==> !(48 <= rest[0] <= 57))
    && (sign == [] && digits == [] && rest != [] ==> !Blanks(rest[..1]) && rest[0] !in {43, 45})
  }

  lemma {:induction false} BlanksSkipped(blanks: Bytes, rest: Bytes)
    requires Blanks(blanks) && (rest != [] ==> !Blanks(rest[..1]))
    ensures SkipBlanks(blanks + rest) == rest
  {
    if blanks != [] {
      assert (blanks + rest)[1..] == blanks[1..] + rest;
      BlanksSkipped(blanks[1..], rest);
    } else {
      assert blanks + rest == rest;
      if rest != [] {
        assert rest[..1][0] == rest[0];
      }
    }
  }

  lemma {:induction false} DigitsTaken(digits: Bytes, rest: Bytes)
    requires Digits(digits) && (rest != [] ==> !(48 <= rest[0] <= 57))
    ensures LeadingDigits(digits + rest) == digits
  {
    if digits != [] {
      assert (digits + rest)[1..] == digits[1..] + rest;
      DigitsTaken(digits[1..], rest);
    } else {
      assert digits + rest == rest;
    }
  }

  /**
   * Leading blanks and what follows the digits are ignored; a minus sign negates in 64 bits; no digits and a number of
   * more than 64 bits are errors.
   */
  lemma ReadNumber(text: Bytes, blanks: Bytes, sign: Bytes, digits: Bytes, rest: Bytes)
    requires Consists(text, blanks, sign, digits, rest)
    ensures Stoull(text) ==
      if digits == [] || Worth(digits) >= UINT64_LIMIT then None
      else if sign == [45] then Some((UINT64_LIMIT - Worth(digits)) % UINT64_LIMIT)
      else Some(Worth(digits))
  {
    var unsigned := sign + (digits + rest);
    assert text == blanks + unsigned;
    UnsignedPart(sign, digits, rest);
    BlanksSkipped(blanks, unsigned);
    DigitsTaken(digits, rest);
    WorthIsValue(digits);
  }

  /** What is left after the blanks does not begin with one, and shows whether there is a sign. */
  lemma UnsignedPart(sign: Bytes, digits: Bytes, rest: Bytes)
    requires sign in {[], [43], [45]} && Digits(digits)
    requires sign == [] && digits == [] && rest != [] ==> !Blanks(rest[..1]) && rest[0] !in {43, 45}
    ensures var unsigned := sign + (digits + rest);
            && (unsigned != [] ==> !Blanks(unsigned[..1]))
            && (sign != [] <==> unsigned != [] && unsigned[0] in {43, 45})
            && (sign != [] ==> unsigned[0] == sign[0] && unsigned[1..] == digits + rest)
            && (sign == [] ==> unsigned == digits + rest)
  {
    var unsigned := sign + (digits + rest);
    if unsigned != [] {
      var first := if sign != [] then sign[0] else if digits != [] then digits[0] else rest[0];
      assert unsigned[..1] == [first];
      assert unsigned[..1][0] == first;
      if sign == [] && digits == [] {
        assert rest[..1] == [first];
      }
    }
  }

  /** Every text consists of such parts. */
  lemma {:induction false} PartsOf(text: Bytes)
    returns (blanks: Bytes, sign: Bytes, digits: Bytes, rest: Bytes)
    ensures Consists(text, blanks, sign, digits, rest)
  {
    if text != [] && (text[0] == 32 || 9 <= text[0] <= 13) {
      blanks, sign, digits, rest := PartsOf(text[1..]);
      MoreBlanks(text, blanks, sign, digits, rest);
      blanks := [text[0]] + blanks;
      return;
    }
    blanks := [];
    sign := if text != [] && text[0] in {43, 45} then [text[0]] else [];
    digits, rest := DigitsOf(text[|sign|..]);
    assert text == sign + (digits + rest);
    assert text == blanks + sign + digits + rest;
    if sign == [] && digits == [] && rest != [] {
      assert rest == text && rest[..1] == [text[0]] && rest[..1][0] == text[0];
    }
  }

  lemma MoreBlanks(text: Bytes, blanks: Bytes, sign: Bytes, digits: Bytes, rest: Bytes)
    requires text != [] && (text[0] == 32 || 9 <= text[0] <= 13)
    requires Consists(text[1..], blanks, sign, digits, rest)
    ensures Consists(text, [text[0]] + blanks, sign, digits, rest)
  {
    assert text == [text[0]] + text[1..];
  }

  lemma DigitsOf(text: Bytes) returns (digits: Bytes, rest: Bytes)
    ensures text == digits + rest && Digits(digits) && (rest != [] ==> !(48 <= rest[0] <= 57))
  {
    digits := LeadingDigits(text);
    rest := text[|digits|..];
    assert forall i :: 0 <= i < |digits| ==> IsDigit(digits[i]);
  }
}
