/**
 * Base-10 text of 64-bit signed integers: Go's `fmt` verb `%d` (which is
 * `strconv.FormatInt(n, 10)`) and `strconv.ParseInt(s, 10, 64)`.
 */
module Decimal {
  import opened Bytes
  import opened Ints
  import opened Results

  const Zero: byte := 0x30  // '0'
  const Plus: byte := 0x2B  // '+'
  const Minus: byte := 0x2D // '-'

  predicate IsDigit(c: byte) {
    Zero <= c <= Zero + 9
  }

  predicate AllDigits(s: bytes) {
    forall i | 0 <= i < |s| :: IsDigit(s[i])
  }

  /** The shortest decimal numeral of `m`: no sign, no leading zero. */
  function Digits(m: nat): (r: bytes)
    ensures |r| >= 1 && AllDigits(r)
    ensures m > 0 ==> r[0] != Zero
  {
    if m < 10 then [Zero + m] else Digits(m / 10) + [Zero + m % 10]
  }

  /** The number a string of decimal digits denotes (leading zeros allowed). */
  function DigitsValue(s: bytes): nat
    requires AllDigits(s)
    decreases |s|
  {
    if s == [] then 0 else DigitsValue(s[..|s| - 1]) * 10 + (s[|s| - 1] - Zero)
  }

  /** `%d` of an `int64`. */
  function Format(n: int64): (r: bytes)
    ensures |r| >= 1
    ensures forall i | 0 <= i < |r| :: IsDigit(r[i]) || r[i] == Minus
    ensures forall i | 1 <= i < |r| :: IsDigit(r[i])
    ensures r[0] == Minus <==> n < 0
  {
    if n < 0 then [Minus] + Digits(-(n as int)) else Digits(n)
  }

  /**
   * `strconv.ParseInt(s, 10, 64)`: an optional `+` or `-`, then at least one
   * decimal digit and nothing else; `None` is its syntax error, and also its
   * range error when the value does not fit in an `int64`.
   */
  function ParseInt(s: bytes): (r: Option<int64>)
    ensures r.Some? ==> |s| >= 1 && (IsDigit(s[0]) || s[0] == Plus || s[0] == Minus)
                        && (forall i | 1 <= i < |s| :: IsDigit(s[i]))
                        && (s[0] == Minus ==> r.value <= 0)
                        && (s[0] != Minus ==> r.value >= 0)
    ensures |s| == 0 ==> r.None?
  {
    if |s| == 0 then None
    else
      var negative := s[0] == Minus;
      var digits := if s[0] == Plus || s[0] == Minus then s[1..] else s;
      if |digits| == 0 || !AllDigits(digits) then None
      else
        var m := DigitsValue(digits);
        if negative then
          if m <= -I64_MIN then Some(-(m as int)) else None
        else
          if m <= I64_MAX then Some(m) else None
  }

  lemma {:induction false} DigitsValueDigits(m: nat)
    ensures DigitsValue(Digits(m)) == m
  {
    if m >= 10 {
      var d := Digits(m);
      assert d[..|d| - 1] == Digits(m / 10);
      DigitsValueDigits(m / 10);
    }
  }

  /** Round trip: parsing the `%d` text of an `int64` gives it back. */
  lemma ParseFormat(n: int64)
    ensures ParseInt(Format(n)) == Some(n)
  {
    if n < 0 {
      DigitsValueDigits(-(n as int));
      assert Format(n)[1..] == Digits(-(n as int));
    } else {
      DigitsValueDigits(n);
    }
  }
}
