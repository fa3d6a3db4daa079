/** The `{}` (Display) formatting of an integer, as `println!` writes it:
    an optional minus sign followed by the decimal digits without leading
    zeros, and the parser that reads such text back. */
module Display {

  datatype Option<+T> = None | Some(value: T)

  predicate IsDigit(c: char) {
    '0' <= c <= '9'
  }

  predicate AllDigits(s: string) {
    forall i :: 0 <= i < |s| ==> IsDigit(s[i])
  }

  function Digit(d: nat): (c: char)
    requires d < 10
    ensures IsDigit(c) && c as int - '0' as int == d
  {
    ('0' as int + d) as char
  }

  function DigitValue(c: char): (d: nat)
    requires IsDigit(c)
    ensures d < 10 && Digit(d) == c
  {
    c as int - '0' as int
  }

  /** The decimal digits of `n`, most significant first. */
  function Digits(n: nat): (s: string)
    ensures |s| > 0 && AllDigits(s)
    ensures s[0] == '0' ==> n == 0
    ensures n < 10 <==> |s| == 1
    decreases n
  {
    if n < 10 then [Digit(n)] else Digits(n / 10) + [Digit(n % 10)]
  }

  /** The number a string of decimal digits denotes. */
  function DigitsValue(s: string): (n: nat)
    requires AllDigits(s)
    decreases |s|
  {
    if s == [] then 0 else DigitsValue(s[..|s| - 1]) * 10 + DigitValue(s[|s| - 1])
  }

  /** The text `{}` produces for `x`. */
  function Format(x: int): (s: string)
    ensures |s| > 0
    ensures s[0] == '-' <==> x < 0
    ensures x >= 0 ==> AllDigits(s)
    ensures x < 0 ==> AllDigits(s[1..])
    ensures x >= 0 && s[0] == '0' ==> s == "0"
    ensures x < 0 ==> |s| > 1 && s[1] != '0'
  {
    if x < 0 then "-" + Digits(-x) else Digits(x)
  }

  /** Reads back an optionally signed decimal number; `None` for any other text. */
  function Parse(s: string): (r: Option<int>)
    ensures s == [] ==> r == None
  {
    if |s| > 1 && s[0] == '-' && AllDigits(s[1..]) then
      var magnitude: int := DigitsValue(s[1..]);
      Some(-magnitude)
    else if |s| > 0 && AllDigits(s) then Some(DigitsValue(s))
    else None
  }

  lemma {:induction false} DigitsValueOfDigits(n: nat)
    ensures DigitsValue(Digits(n)) == n
    decreases n
  {
    var s := Digits(n);
    if n >= 10 {
      DigitsValueOfDigits(n / 10);
      assert s[..|s| - 1] == Digits(n / 10);
      assert s[|s| - 1] == Digit(n % 10);
    } else {
      assert s[..|s| - 1] == [];
    }
  }

  lemma ParseNegative(digits: string)
    requires |digits| > 0 && AllDigits(digits)
    ensures Parse("-" + digits) == Some(0 - DigitsValue(digits) as int)
  {
    var s := "-" + digits;
    assert s[1..] == digits;
  }

  lemma ParseUnsigned(digits: string)
    requires |digits| > 0 && AllDigits(digits)
    ensures Parse(digits) == Some(DigitsValue(digits))
  {
    assert digits[0] != '-';
  }

  /** Parsing what `Format` wrote gives back the number. */
  lemma ParseFormat(x: int)
    ensures Parse(Format(x)) == Some(x)
  {
    if x < 0 {
      DigitsValueOfDigits(-x);
      ParseNegative(Digits(-x));
    } else {
      DigitsValueOfDigits(x);
      ParseUnsigned(Digits(x));
    }
  }

  /** Different numbers are written differently. */
  lemma FormatInjective(x: int, y: int)
    ensures Format(x) == Format(y) <==> x == y
  {
    if Format(x) == Format(y) {
      ParseFormat(x);
      ParseFormat(y);
    }
  }
}
