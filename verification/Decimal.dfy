/** Decimal notation of natural numbers. */
module Decimal {
  import opened Base

  predicate IsDigit(c: char) {
    '0' <= c <= '9'
  }

  predicate AllDigits(s: Chars) {
    forall i :: 0 <= i < |s| ==> IsDigit(s[i])
  }

  function DigitOf(c: char): nat {
    if IsDigit(c) then c as int - '0' as int else 0
  }

  /** The number a string of digits stands for. */
  function DecimalValue(s: Chars): nat
    decreases |s|
  {
    if s == [] then 0 else DecimalValue(s[..|s| - 1]) * 10 + DigitOf(s[|s| - 1])
  }

  function DigitChar(d: nat): Char8
    requires d < 10
  {
    (d + '0' as int) as char
  }

  /** Without leading zeros. */
  function Digits(n: nat): Chars {
    if n < 10 then [DigitChar(n)] else Digits(n / 10) + [DigitChar(n % 10)]
  }

  lemma {:induction false} DigitsRead(n: nat)
    ensures DecimalValue(Digits(n)) == n && AllDigits(Digits(n)) && Digits(n) != []
    ensures Digits(n)[0] == '0' <==> n == 0
    ensures n == 0 ==> |Digits(n)| == 1
  {
    if n >= 10 {
      DigitsRead(n / 10);
      assert Digits(n)[..|Digits(n)| - 1] == Digits(n / 10);
      assert Digits(n)[0] == Digits(n / 10)[0];
    } else {
      assert [DigitChar(n)][..0] == [];
    }
  }

  // ----- place values

  function PowerOfTen(k: nat): nat {
    if k == 0 then 1 else 10 * PowerOfTen(k - 1)
  }

  /** Each digit, by its distance from the character of code 48, times the power of ten of its place. */
  function PlaceValue(s: Chars): int
    decreases |s|
  {
    if s == [] then 0 else (s[0] as int - 48) * PowerOfTen(|s| - 1) + PlaceValue(s[1..])
  }

  lemma {:induction false} PlaceValueSnoc(s: Chars, c: Char8)
    ensures PlaceValue(s + [c]) == 10 * PlaceValue(s) + (c as int - 48)
    decreases |s|
  {
    if s == [] {
      assert [] + [c] == [c] && [c][1..] == [];
    } else {
      var d, p := s[0] as int - 48, PowerOfTen(|s| - 1);
      assert (s + [c])[1..] == s[1..] + [c];
      PlaceValueSnoc(s[1..], c);
      assert PowerOfTen(|s|) == 10 * p;
      TenTimes(d, p);
    }
  }

  lemma TenTimes(d: int, p: int)
    ensures d * (10 * p) == 10 * (d * p)
  {
  }

  /** Reading digits from the left gives the sum of their place values. */
  lemma {:induction false} DecimalIsPlaceValue(s: Chars)
    requires AllDigits(s)
    ensures DecimalValue(s) == PlaceValue(s)
    decreases |s|
  {
    if s == [] {
    } else {
      var n := |s| - 1;
      assert s == s[..n] + [s[n]];
      DecimalIsPlaceValue(s[..n]);
      PlaceValueSnoc(s[..n], s[n]);
    }
  }
}
