/**
  Base-10 text of an integer, as Go's `fmt` writes it for the `%d` verb
  (a leading `-` for negative numbers, no leading zeros), and a reader that
  inverts it.
 */
module Decimal {
  import opened Wrappers

  predicate IsDigit(c: char) {
    '0' <= c <= '9'
  }

  function DigitChar(d: nat): (c: char)
    requires d < 10
    ensures IsDigit(c) && c as int - '0' as int == d
  {
    ('0' as int + d) as char
  }

  function DigitValue(c: char): (d: nat)
    requires IsDigit(c)
    ensures d < 10
  {
    c as int - '0' as int
  }

  /** Digits of `n`, most significant first. */
  function NatToDecimal(n: nat): (s: string)
    ensures |s| >= 1
    ensures forall k :: 0 <= k < |s| ==> IsDigit(s[k])
    ensures s[0] == '0' ==> n == 0
  {
    if n < 10 then [DigitChar(n)] else NatToDecimal(n / 10) + [DigitChar(n % 10)]
  }

  /** `fmt.Sprintf("%d", i)`. */
  function IntToDecimal(i: int): (s: string)
    ensures |s| >= 1
    ensures s[0] == '-' <==> i < 0
    ensures forall k :: 0 <= k < |s| && (k > 0 || i >= 0) ==> IsDigit(s[k])
    ensures s[0] == '0' ==> s == "0"
    ensures i < 0 ==> |s| >= 2 && s[1] != '0'
  {
    if i < 0 then "-" + NatToDecimal(-i) else NatToDecimal(i)
  }

  /** The number a non-empty string of digits denotes. */
  function DecimalValue(s: string): nat
    requires forall k :: 0 <= k < |s| ==> IsDigit(s[k])
  {
    if |s| == 0 then 0 else DecimalValue(s[..|s| - 1]) * 10 + DigitValue(s[|s| - 1])
  }

  /** Reads back what `IntToDecimal` writes; `None` for anything else that is not a number. */
  function ParseInt(s: string): Option<int> {
    if |s| >= 2 && s[0] == '-' && forall k :: 1 <= k < |s| ==> IsDigit(s[k]) then
      Some(-(DecimalValue(s[1..]) as int))
    else if |s| >= 1 && forall k :: 0 <= k < |s| ==> IsDigit(s[k]) then
      Some(DecimalValue(s) as int)
    else None
  }

  lemma {:induction false} NatRoundTrip(n: nat)
    ensures DecimalValue(NatToDecimal(n)) == n
  {
    if n >= 10 {
      var s := NatToDecimal(n);
      NatRoundTrip(n / 10);
      assert s[..|s| - 1] == NatToDecimal(n / 10);
    }
  }

  /** Reading the formatted number gives the number back. */
  lemma IntRoundTrip(i: int)
    ensures ParseInt(IntToDecimal(i)) == Some(i)
  {
    var s := IntToDecimal(i);
    if i < 0 {
      NatRoundTrip(-i);
      assert s[1..] == NatToDecimal(-i);
    } else {
      NatRoundTrip(i);
    }
  }
}
