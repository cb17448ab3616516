/** The PHP string helpers the core relies on: `str_pad` and decimal printing of integers. */
module Text {

  /** `n` copies of the character `c`. */
  function Repeat(c: char, n: nat): (r: string)
    ensures |r| == n && forall i :: 0 <= i < n ==> r[i] == c
  {
    if n == 0 then [] else [c] + Repeat(c, n - 1)
  }

  /** `str_pad($s, $width, $c, STR_PAD_LEFT)`: pads on the left, never truncates. */
  function PadLeft(s: string, width: nat, c: char): (r: string)
    ensures |s| >= width ==> r == s
    ensures |s| < width ==> |r| == width && r[width - |s|..] == s
                             && forall i :: 0 <= i < width - |s| ==> r[i] == c
  {
    if |s| >= width then s else Repeat(c, width - |s|) + s
  }

  predicate IsDigitChar(c: char) {
    '0' <= c <= '9'
  }

  /** The character for one decimal digit. */
  function DigitChar(d: nat): (c: char)
    requires d < 10
    ensures IsDigitChar(c) && (c as int) - ('0' as int) == d
  {
    (d + '0' as int) as char
  }

  predicate AllDigits(s: string) {
    forall i :: 0 <= i < |s| ==> IsDigitChar(s[i])
  }

  /** The number a string of decimal digits spells, most significant digit first. */
  function DecimalValue(s: string): nat
    requires AllDigits(s)
  {
    if s == [] then 0 else 10 * DecimalValue(s[..|s| - 1]) + ((s[|s| - 1] as int) - ('0' as int))
  }

  /** Decimal text of a natural number, as PHP prints an int. */
  function NatText(n: nat): (r: string)
    ensures |r| >= 1 && AllDigits(r)
  {
    if n < 10 then [DigitChar(n)] else NatText(n / 10) + [DigitChar(n % 10)]
  }

  /** `NatText(n)` spells `n`, with no leading zero. */
  lemma {:induction false} NatTextValue(n: nat)
    ensures DecimalValue(NatText(n)) == n
    ensures |NatText(n)| > 1 ==> NatText(n)[0] != '0'
  {
    if n >= 10 {
      var prefix := NatText(n / 10);
      var r := NatText(n);
      assert r[..|r| - 1] == prefix;
      NatTextValue(n / 10);
    }
  }

  /** Decimal text of an integer, with a leading minus sign when negative. */
  function IntText(n: int): (r: string)
    ensures |r| >= 1
  {
    if n < 0 then "-" + NatText(-n) else NatText(n)
  }

  /**
   * `sprintf('%0Nd', n)` for a natural number: the decimal digits of `n`,
   * zero-filled on the left to `width` characters, never truncated.
   */
  function ZeroPadded(n: nat, width: nat): (r: string)
    ensures |r| == (if |NatText(n)| >= width then |NatText(n)| else width)
    ensures AllDigits(r)
  {
    PadLeft(NatText(n), width, '0')
  }

  /** The digits of `ZeroPadded(n, width)` spell `n`: the zeros in front add nothing. */
  lemma ZeroPaddedValue(n: nat, width: nat)
    ensures AllDigits(ZeroPadded(n, width)) && DecimalValue(ZeroPadded(n, width)) == n
  {
    NatTextValue(n);
    var digits := NatText(n);
    if |digits| < width {
      LeadingZeros(width - |digits|, digits);
    }
  }

  /** Zeros in front of a digit string do not change the number it spells. */
  lemma {:induction false} LeadingZeros(k: nat, s: string)
    requires AllDigits(s)
    ensures AllDigits(Repeat('0', k) + s)
    ensures DecimalValue(Repeat('0', k) + s) == DecimalValue(s)
    decreases |s|
  {
    var z := Repeat('0', k);
    if s == [] {
      assert z + s == z;
      ZerosValue(k);
    } else {
      var t := z + s;
      assert t[..|t| - 1] == z + s[..|s| - 1];
      LeadingZeros(k, s[..|s| - 1]);
    }
  }

  /** A string of zeros spells 0. */
  lemma {:induction false} ZerosValue(k: nat)
    ensures AllDigits(Repeat('0', k)) && DecimalValue(Repeat('0', k)) == 0
  {
    if k > 0 {
      var z := Repeat('0', k);
      assert z[..k - 1] == Repeat('0', k - 1);
      ZerosValue(k - 1);
    }
  }
}
