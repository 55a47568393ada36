/**
 * Base-10 text of integers, as `strconv.AppendInt(buf, v, 10)` produces it:
 * an optional leading `-`, then the digits of the magnitude with no leading
 * zero (zero itself is the single digit `0`).
 */
module Decimal {
  import opened Bytes

  predicate IsDigit(c: Byte) {
    '0' <= c <= '9'
  }

  function DigitChar(d: nat): (c: Byte)
    requires d < 10
    ensures IsDigit(c) && c as int - '0' as int == d
  {
    (d + '0' as int) as char
  }

  function DigitValue(c: Byte): (d: nat)
    requires IsDigit(c)
    ensures d < 10 && DigitChar(d) == c
  {
    c as int - '0' as int
  }

  /** The digits of a magnitude, most significant first. */
  function Digits(n: nat): (r: ByteString)
    ensures |r| >= 1
    decreases n
  {
    if n < 10 then [DigitChar(n)] else Digits(n / 10) + [DigitChar(n % 10)]
  }

  /** Appending one digit to a magnitude appends its character to the digits. */
  lemma DigitsSnoc(n: nat, d: nat)
    requires 1 <= n && d < 10
    ensures Digits(10 * n + d) == Digits(n) + [DigitChar(d)]
  {
    assert (10 * n + d) / 10 == n && (10 * n + d) % 10 == d;
  }

  /** The text of `strconv.AppendInt(nil, n, 10)`. */
  function Text(n: int): (r: ByteString)
    ensures |r| >= 1
  {
    (if n < 0 then "-" else "") + Digits(if n < 0 then -n else n)
  }

  /** The text starts with `-` exactly for a negative number, and holds only digits after it. */
  lemma TextDigits(n: int)
    ensures (Text(n)[0] == '-') <==> n < 0
    ensures forall i :: (if n < 0 then 1 else 0) <= i < |Text(n)| ==> IsDigit(Text(n)[i])
  {
    if n < 0 {
      DigitsRoundTrip(-n);
      assert Text(n) == ['-'] + Digits(-n);
    } else {
      DigitsRoundTrip(n);
    }
  }

  /** Reads a run of digits back as a number: the inverse of `Digits`. */
  function ParseDigits(s: ByteString): nat
    requires forall i :: 0 <= i < |s| ==> IsDigit(s[i])
  {
    if s == [] then 0 else ParseDigits(s[..|s| - 1]) * 10 + DigitValue(s[|s| - 1])
  }

  /** Reads decimal text back as a number: the inverse of `Text`. */
  function Parse(s: ByteString): Option<int>
  {
    if |s| > 0 && s[0] == '-' then
      if |s| > 1 && forall i :: 1 <= i < |s| ==> IsDigit(s[i]) then Some(0 - ParseDigits(s[1..]) as int) else None
    else if |s| > 0 && forall i :: 0 <= i < |s| ==> IsDigit(s[i]) then Some(ParseDigits(s))
    else None
  }

  /** The digits of a magnitude are decimal digits, and read back as the magnitude. */
  lemma {:induction false} DigitsRoundTrip(n: nat)
    ensures forall i :: 0 <= i < |Digits(n)| ==> IsDigit(Digits(n)[i])
    ensures ParseDigits(Digits(n)) == n
    decreases n
  {
    if n >= 10 {
      DigitsRoundTrip(n / 10);
      var d := Digits(n);
      assert d[..|d| - 1] == Digits(n / 10);
    }
  }

  /** Decimal text reads back as the number it was made from. */
  lemma TextRoundTrip(n: int)
    ensures Parse(Text(n)) == Some(n)
  {
    if n < 0 {
      var d := Digits(-n);
      DigitsRoundTrip(-n);
      assert Text(n) == ['-'] + d;
      ParseNegative(d);
    } else {
      DigitsRoundTrip(n);
      assert Text(n) == Digits(n);
      ParseNonNegative(Digits(n));
    }
  }

  /** A `-` followed by digits reads as the negated value of the digits. */
  lemma ParseNegative(d: ByteString)
    requires |d| >= 1 && forall i :: 0 <= i < |d| ==> IsDigit(d[i])
    ensures Parse(['-'] + d) == Some(0 - ParseDigits(d))
  {
    var s := ['-'] + d;
    assert s[1..] == d;
    assert forall i :: 1 <= i < |s| ==> s[i] == d[i - 1];
  }

  /** Digits alone read as their value. */
  lemma ParseNonNegative(d: ByteString)
    requires |d| >= 1 && forall i :: 0 <= i < |d| ==> IsDigit(d[i])
    ensures Parse(d) == Some(ParseDigits(d))
  {
    assert IsDigit(d[0]);
  }

  /** No leading zero: the first digit is `0` only for the number zero. */
  lemma {:induction false} DigitsNoLeadingZero(n: nat)
    ensures Digits(n)[0] == '0' <==> n == 0
    ensures Digits(n)[0] == '0' ==> |Digits(n)| == 1
    decreases n
  {
    if n >= 10 {
      DigitsNoLeadingZero(n / 10);
    }
  }

  function Pow10(k: nat): (p: nat)
    ensures p >= 1
  {
    if k == 0 then 1 else 10 * Pow10(k - 1)
  }

  /** A magnitude below 10^k has at most k digits. */
  lemma {:induction false} DigitsLength(n: nat, k: nat)
    requires 1 <= k && n < Pow10(k)
    ensures |Digits(n)| <= k
    decreases k
  {
    if n >= 10 {
      assert k >= 2;
      DigitsLength(n / 10, k - 1);
    }
  }

  /** Every int64 fits in 19 digits plus an optional sign. */
  lemma Int64TextLength(n: Int64)
    ensures |Text(n)| <= 20
    ensures n >= 0 ==> |Text(n)| <= 19
  {
    assert Pow10(19) == 10_000_000_000_000_000_000 by {
      assert Pow10(4) == 10_000;
      assert Pow10(8) == 100_000_000;
      assert Pow10(12) == 1_000_000_000_000;
      assert Pow10(16) == 10_000_000_000_000_000;
    }
    if n < 0 {
      var m: nat := -(n as int);
      DigitsLength(m, 19);
    } else {
      DigitsLength(n, 19);
    }
  }
}
