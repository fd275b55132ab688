/** Decimal text of natural numbers, as Rust's formatting writes it, and reading it back. */
module Decimals {

  predicate IsDigit(c: char) {
    '0' <= c <= '9'
  }

  predicate AllDigits(text: string) {
    forall i :: 0 <= i < |text| ==> IsDigit(text[i])
  }

  function Digit(d: nat): (c: char)
    requires d < 10
    ensures IsDigit(c)
  {
    ('0' as int + d) as char
  }

  function DigitValue(c: char): nat
    requires IsDigit(c)
  {
    c as int - '0' as int
  }

  function Print(n: nat): (text: string)
    ensures text != "" && AllDigits(text)
  {
    if n < 10 then [Digit(n)] else Print(n / 10) + [Digit(n % 10)]
  }

  function Value(text: string): nat
    requires AllDigits(text)
  {
    if text == "" then 0 else Value(text[..|text| - 1]) * 10 + DigitValue(text[|text| - 1])
  }

  lemma {:induction false} ValueOfPrint(n: nat)
    ensures Value(Print(n)) == n
  {
    if n < 10 {
      assert [Digit(n)][..0] == "";
    } else {
      ValueOfPrint(n / 10);
      assert Print(n)[..|Print(n)| - 1] == Print(n / 10);
    }
  }

  /** Exactly `width` digits, zero padded: `{:0width}` for numbers that fit. */
  function Pad(n: nat, width: nat): (text: string)
    ensures |text| == width && AllDigits(text)
  {
    if width == 0 then "" else Pad(n / 10, width - 1) + [Digit(n % 10)]
  }

  function Power(width: nat): (p: nat)
    ensures p >= 1
  {
    if width == 0 then 1 else 10 * Power(width - 1)
  }

  lemma QuotientFits(n: nat, bound: nat)
    requires n < 10 * bound
    ensures n / 10 < bound && n == n / 10 * 10 + n % 10
  {
  }

  lemma ValueOfSnoc(front: string, c: char)
    requires AllDigits(front) && IsDigit(c)
    ensures AllDigits(front + [c]) && Value(front + [c]) == Value(front) * 10 + DigitValue(c)
  {
    assert (front + [c])[..|front|] == front;
  }

  lemma {:induction false} ValueOfPad(n: nat, width: nat)
    requires n < Power(width)
    ensures Value(Pad(n, width)) == n
  {
    hide Value;
    if width > 0 {
      QuotientFits(n, Power(width - 1));
      ValueOfPad(n / 10, width - 1);
      ValueOfSnoc(Pad(n / 10, width - 1), Digit(n % 10));
    } else {
      assert Value("") == 0 by { EmptyValue(); }
    }
  }

  lemma EmptyValue()
    ensures Value("") == 0
  {
  }

  /** The longest run of digits at the start of a text, and what follows it. */
  function SplitDigits(text: string): (r: (string, string))
    ensures r.0 + r.1 == text && AllDigits(r.0)
    ensures r.1 != "" ==> !IsDigit(r.1[0])
  {
    if text == "" || !IsDigit(text[0]) then ("", text)
    else
      var (digits, rest) := SplitDigits(text[1..]);
      assert text == [text[0]] + text[1..];
      ([text[0]] + digits, rest)
  }

  lemma {:induction false} SplitDigitsOf(digits: string, rest: string)
    requires AllDigits(digits) && (rest != "" ==> !IsDigit(rest[0]))
    ensures SplitDigits(digits + rest) == (digits, rest)
  {
    if digits == "" {
      assert digits + rest == rest;
    } else {
      assert (digits + rest)[1..] == digits[1..] + rest;
      assert digits == [digits[0]] + digits[1..];
      SplitDigitsOf(digits[1..], rest);
    }
  }
}
