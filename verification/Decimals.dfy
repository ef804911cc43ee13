/** Whole numbers as decimal text. */
module Decimals {

  predicate IsDigit(c: char) {
    '0' <= c <= '9'
  }

  function Digit(d: nat): (c: char)
    requires d < 10
    ensures IsDigit(c) && c as int - '0' as int == d
  {
    '0' + d as char
  }

  ghost predicate AllDigits(s: string) {
    forall c <- s :: IsDigit(c)
  }

  /** Without leading zeros. */
  function Decimal(n: nat): (s: string)
    ensures s != "" && AllDigits(s)
  {
    if n < 10 then [Digit(n)] else Decimal(n / 10) + [Digit(n % 10)]
  }

  function Signed(n: int): string {
    if n < 0 then "-" + Decimal(-n) else Decimal(n)
  }

  /** The number of digits a text starts with. */
  function DigitsAt(s: string): (k: nat)
    ensures k <= |s|
    ensures forall i :: 0 <= i < k ==> IsDigit(s[i])
    ensures k < |s| ==> !IsDigit(s[k])
  {
    if s == "" || !IsDigit(s[0]) then 0 else DigitsAt(s[1..]) + 1
  }

  function Value(digits: string): nat
    requires AllDigits(digits)
  {
    if digits == "" then 0
    else
      var last := digits[|digits| - 1];
      assert IsDigit(last);
      10 * Value(digits[..|digits| - 1]) + (last as int - '0' as int)
  }

  lemma {:induction false} ValueOfDecimal(n: nat)
    ensures Value(Decimal(n)) == n
  {
    var s := Decimal(n);
    if n >= 10 {
      ValueOfDecimal(n / 10);
      assert s[..|s| - 1] == Decimal(n / 10);
    } else {
      assert s[..0] == "";
    }
  }

  lemma {:induction false} DigitsThenMore(digits: string, more: string)
    requires AllDigits(digits)
    requires more == "" || !IsDigit(more[0])
    ensures DigitsAt(digits + more) == |digits|
  {
    if digits == "" {
      assert digits + more == more;
    } else {
      DigitsThenMore(digits[1..], more);
      assert (digits + more)[1..] == digits[1..] + more;
    }
  }

  /** Reading back a number that something other than a digit follows. */
  lemma DecimalThenMore(n: nat, more: string)
    requires more == "" || !IsDigit(more[0])
    ensures var s := Decimal(n) + more;
      && DigitsAt(s) == |Decimal(n)|
      && s[..DigitsAt(s)] == Decimal(n)
      && s[DigitsAt(s)..] == more
      && Value(Decimal(n)) == n
  {
    DigitsThenMore(Decimal(n), more);
    ValueOfDecimal(n);
  }
}
