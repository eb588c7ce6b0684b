/**
 * Runs of decimal digits: a number zero-padded to a width, and the value a
 * digit string reads as. Shared by the ISO date form and the reward inputs.
 */
module Decimal {

  function DigitChar(n: int): char
    requires 0 <= n <= 9
  {
    ('0' as int + n) as char
  }

  predicate IsDigit(c: char) {
    '0' <= c <= '9'
  }

  function DigitValue(c: char): int
    requires IsDigit(c)
  {
    c as int - '0' as int
  }

  /** The decimal digits of `n`, zero-padded to `width`. */
  function Padded(n: nat, width: nat): (s: string)
    ensures |s| == width
    ensures forall i :: 0 <= i < |s| ==> IsDigit(s[i])
  {
    if width == 0 then [] else Padded(n / 10, width - 1) + [DigitChar(n % 10)]
  }

  /** The value of a run of decimal digits. */
  function DecimalValue(s: string): nat
    requires forall i :: 0 <= i < |s| ==> IsDigit(s[i])
  {
    if s == [] then 0 else DecimalValue(s[..|s| - 1]) * 10 + DigitValue(s[|s| - 1])
  }

  function Pow10(k: nat): nat {
    if k == 0 then 1 else 10 * Pow10(k - 1)
  }

  /** Reading back a padded number gives the number, when it fits the width. */
  lemma {:induction false} PaddedValue(n: nat, width: nat)
    requires n < Pow10(width)
    ensures DecimalValue(Padded(n, width)) == n
  {
    if width > 0 {
      PaddedValue(n / 10, width - 1);
      var s := Padded(n, width);
      assert s[..|s| - 1] == Padded(n / 10, width - 1);
    }
  }

  /** Padding the value of a digit string gives the string back. */
  lemma {:induction false} ValuePadded(s: string)
    requires forall i :: 0 <= i < |s| ==> IsDigit(s[i])
    ensures DecimalValue(s) < Pow10(|s|)
    ensures Padded(DecimalValue(s), |s|) == s
  {
    if s != [] {
      var init := s[..|s| - 1];
      ValuePadded(init);
      var v := DecimalValue(s);
      assert v / 10 == DecimalValue(init) && v % 10 == DigitValue(s[|s| - 1]);
      assert s == init + [s[|s| - 1]];
    }
  }

  /** The digit strings of the worked dates 2024-01-01 and 2023-12-31. */
  lemma PaddedExamples()
    ensures Padded(2024, 4) == "2024" && Padded(2023, 4) == "2023"
    ensures Padded(1, 2) == "01" && Padded(12, 2) == "12" && Padded(31, 2) == "31"
  {
    assert Padded(2, 1) == "2" && Padded(1, 1) == "1" && Padded(3, 1) == "3" && Padded(0, 1) == "0";
    assert Padded(20, 2) == Padded(2, 1) + "0";
    assert Padded(202, 3) == Padded(20, 2) + "2";
    assert Padded(2024, 4) == Padded(202, 3) + "4";
    assert Padded(2023, 4) == Padded(202, 3) + "3";
    assert Padded(1, 2) == Padded(0, 1) + "1";
    assert Padded(12, 2) == Padded(1, 1) + "2";
    assert Padded(31, 2) == Padded(3, 1) + "1";
  }
}
