/** Decimal rendering of integers, as printf's "%d" / PRId64 writes them, and
    the digit-counting loop the binding uses to size its buffers
    (SqFile.c lines 549-553 and 804-808). */
module Decimal {

  function DigitChar(d: nat): (c: char)
    requires d < 10
    ensures '0' <= c <= '9'
  {
    ('0' as int + d) as char
  }

  function DigitValue(c: char): (d: nat)
    requires '0' <= c <= '9'
    ensures d < 10
  {
    c as int - '0' as int
  }

  predicate IsDigits(s: string) {
    forall i :: 0 <= i < |s| ==> '0' <= s[i] <= '9'
  }

  /** The decimal digits of `v`, most significant first, without leading zeros. */
  function NatToDecimal(v: nat): (s: string)
    ensures |s| >= 1 && IsDigits(s)
    ensures s[0] == '0' ==> v == 0 && |s| == 1
    decreases v
  {
    if v < 10 then [DigitChar(v)] else NatToDecimal(v / 10) + [DigitChar(v % 10)]
  }

  /** "%d" of a possibly negative integer. */
  function IntToDecimal(i: int): (s: string)
    ensures |s| >= 1
    ensures i >= 0 ==> s == NatToDecimal(i)
    ensures i < 0 <==> s[0] == '-'
    ensures i < 0 ==> s[1..] == NatToDecimal(-i)
  {
    if i < 0 then "-" + NatToDecimal(-i) else NatToDecimal(i)
  }

  /** The value of a string of decimal digits; the partner of NatToDecimal. */
  function ParseDecimal(s: string): nat
    requires IsDigits(s)
    decreases |s|
  {
    if |s| == 0 then 0 else 10 * ParseDecimal(s[..|s| - 1]) + DigitValue(s[|s| - 1])
  }

  function Pow10(k: nat): (p: nat)
    ensures p >= 1
  {
    if k == 0 then 1 else 10 * Pow10(k - 1)
  }

  /** Reading the rendering back gives the value. */
  lemma {:induction false} DecimalRoundTrip(v: nat)
    ensures ParseDecimal(NatToDecimal(v)) == v
    decreases v
  {
    if v >= 10 {
      DecimalRoundTrip(v / 10);
      var s := NatToDecimal(v);
      assert s[..|s| - 1] == NatToDecimal(v / 10);
    }
  }

  /** Two values never render alike. */
  lemma DecimalInjective(a: nat, b: nat)
    requires NatToDecimal(a) == NatToDecimal(b)
    ensures a == b
  {
    DecimalRoundTrip(a);
    DecimalRoundTrip(b);
  }

  /** The rendering has exactly as many characters as `v` has decimal digits:
      10^(w-1) <= v < 10^w, and w == 1 for v == 0. */
  lemma {:induction false} DecimalWidthBounds(v: nat)
    ensures v < Pow10(|NatToDecimal(v)|)
    ensures v >= 1 ==> Pow10(|NatToDecimal(v)| - 1) <= v
    ensures v == 0 ==> |NatToDecimal(v)| == 1
    decreases v
  {
    if v >= 10 {
      DecimalWidthBounds(v / 10);
      var k := |NatToDecimal(v / 10)|;
      assert |NatToDecimal(v)| == k + 1;
      assert Pow10(k + 1) == 10 * Pow10(k);
    }
  }

  /** The digit-counting loop: starting from width 1, divide by ten while the
      value is at least ten. The width is that of the decimal rendering. */
  method DecimalWidth(v: nat) returns (w: nat)
    ensures w == |NatToDecimal(v)|
  {
    var d := v;
    w := 1;
    while d >= 10
      invariant w >= 1
      invariant w - 1 + |NatToDecimal(d)| == |NatToDecimal(v)|
      decreases d
    {
      d := d / 10;
      w := w + 1;
    }
  }

  /** snprintf(buf, size, ...) keeps at most size - 1 characters of `s`. */
  function Snprintf(s: string, size: nat): (r: string)
    ensures |r| == if size == 0 then 0 else if |s| < size then |s| else size - 1
    ensures r <= s
  {
    if size == 0 then "" else if |s| < size then s else s[..size - 1]
  }
}
