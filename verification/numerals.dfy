// Decimal numerals: how the repository prints lengths (strconv.Itoa) and how
// math/big prints and parses counter coefficients.
module Numerals {
  datatype Option<+T> = None | Some(value: T)

  predicate IsDigit(c: char) { '0' <= c <= '9' }

  predicate AllDigits(s: string) { forall i :: 0 <= i < |s| ==> IsDigit(s[i]) }

  function DigitChar(d: nat): (c: char)
    requires d < 10
    ensures IsDigit(c)
  {
    ('0' as int + d) as char
  }

  function DigitValue(c: char): (d: nat)
    requires IsDigit(c)
    ensures d < 10 && DigitChar(d) == c
  {
    c as int - '0' as int
  }

  /** The shortest decimal spelling of n: no leading zero except for 0 itself. */
  function Digits(n: nat): (s: string)
    ensures s != [] && AllDigits(s)
    ensures s[0] == '0' ==> n == 0 && s == "0"
  {
    if n < 10 then [DigitChar(n)] else Digits(n / 10) + [DigitChar(n % 10)]
  }

  function ParseDigits(s: string): nat
    requires AllDigits(s)
  {
    if s == [] then 0 else 10 * ParseDigits(s[..|s| - 1]) + DigitValue(s[|s| - 1])
  }

  lemma {:induction false} ParseOfDigits(n: nat)
    ensures ParseDigits(Digits(n)) == n
  {
    var s := Digits(n);
    if n < 10 {
      assert s[..|s| - 1] == [];
    } else {
      assert s[..|s| - 1] == Digits(n / 10);
      ParseOfDigits(n / 10);
    }
  }

  /** A spelling without a leading zero is the one Digits prints. */
  lemma {:induction false} DigitsOfParse(s: string)
    requires AllDigits(s) && s != []
    requires s[0] == '0' ==> s == "0"
    ensures Digits(ParseDigits(s)) == s
    ensures ParseDigits(s) == 0 ==> s == "0"
  {
    var front := s[..|s| - 1];
    if front == [] {
      assert ParseDigits(front) == 0;
      assert s == [s[0]];
    } else {
      DigitsOfParse(front);
      assert s == front + [s[|s| - 1]];
    }
  }
}
