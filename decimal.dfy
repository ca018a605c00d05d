/** Decimal text for integers: Kotlin's `Int.toString()`/`Long.toString()` and
    `String.toInt()` on the ASCII digit strings the region-file pattern
    captures. */
module Decimal {
  import opened Bytes
  import opened Wrappers

  predicate IsDigit(ch: char)
  {
    '0' <= ch <= '9'
  }

  predicate AllDigits(s: string)
  {
    forall i :: 0 <= i < |s| ==> IsDigit(s[i])
  }

  /** `-?\d+`. */
  predicate IsSignedDigits(s: string)
  {
    if |s| > 0 && s[0] == '-' then |s| > 1 && AllDigits(s[1..]) else |s| > 0 && AllDigits(s)
  }

  function DigitValue(ch: char): (r: nat)
    requires IsDigit(ch)
    ensures r < 10
  {
    ch as int - '0' as int
  }

  function DigitChar(d: nat): (r: char)
    requires d < 10
    ensures IsDigit(r) && DigitValue(r) == d
  {
    ('0' as int + d) as char
  }

  /** The value of a string of decimal digits, most significant first. */
  function DigitsValue(s: string): nat
    requires AllDigits(s)
  {
    if s == [] then 0 else DigitsValue(s[..|s| - 1]) * 10 + DigitValue(s[|s| - 1])
  }

  /** The shortest decimal rendering of `n`. */
  function ShowNat(n: nat): (r: string)
    ensures |r| > 0 && AllDigits(r)
  {
    if n < 10 then [DigitChar(n)] else ShowNat(n / 10) + [DigitChar(n % 10)]
  }

  /** `toString()` of a signed integer. */
  function ShowInt(i: int): (r: string)
    ensures IsSignedDigits(r)
  {
    if i < 0 then
      var d := ShowNat(-i);
      assert ("-" + d)[1..] == d;
      "-" + d
    else ShowNat(i)
  }

  lemma {:induction false} DigitsValueOfShow(n: nat)
    ensures DigitsValue(ShowNat(n)) == n
  {
    if n >= 10 {
      DigitsValueOfShow(n / 10);
      var s := ShowNat(n);
      assert s[..|s| - 1] == ShowNat(n / 10);
    }
  }

  /** `String.toInt()` of a `-?\d+` string: the value when it fits in an
      `Int`, otherwise `None` (a `NumberFormatException`). */
  function ParseInt(s: string): (r: Option<int32>)
    requires IsSignedDigits(s)
  {
    var v: int := if s[0] == '-' then -(DigitsValue(s[1..]) as int) else DigitsValue(s);
    if -TWO_31 <= v < TWO_31 then Some(v) else None
  }

  /** `toString()` followed by `toInt()` gives back every `Int`. */
  lemma ParseShow(i: int32)
    ensures ParseInt(ShowInt(i)) == Some(i)
  {
    if i < 0 {
      var n: nat := -(i as int);
      DigitsValueOfShow(n);
      assert ShowInt(i)[1..] == ShowNat(n);
    } else {
      DigitsValueOfShow(i);
    }
  }
}
