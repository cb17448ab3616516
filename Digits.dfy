/**
 * Three-digit lottery numbers ("000" .. "999") and the digit arithmetic the
 * models and controllers share: `str_pad($n, 3, '0', STR_PAD_LEFT)` and
 * `array_sum(str_split($n))`.
 */
module Digits {
  import opened Text

  /** `preg_match('/^[0-9]{3}$/', s)`: exactly three decimal digits. */
  predicate IsNumeral3(s: string) {
    |s| == 3 && IsDigitChar(s[0]) && IsDigitChar(s[1]) && IsDigitChar(s[2])
  }

  /** The integer PHP's `array_sum` adds for a one-character string: its digit, or 0 for any other character. */
  function DigitValue(c: char): (v: nat)
    ensures v <= 9
  {
    if IsDigitChar(c) then (c as int) - ('0' as int) else 0
  }

  /** `array_sum(str_split(s))`: the sum of the digits of `s`. */
  function DigitSum(s: string): nat {
    if s == [] then 0 else DigitValue(s[0]) + DigitSum(s[1..])
  }

  /** The digit sum of a three-character string is the sum of its three digits. */
  lemma DigitSum3(s: string)
    requires |s| == 3
    ensures DigitSum(s) == DigitValue(s[0]) + DigitValue(s[1]) + DigitValue(s[2])
  {
    assert DigitSum(s[1..]) == DigitValue(s[1]) + DigitSum(s[2..]);
    assert DigitSum(s[2..]) == DigitValue(s[2]) + DigitSum(s[3..]);
    assert s[3..] == [];
  }

  /** The digit sum ("break group") of a three-digit number lies in 0..27. */
  lemma DigitSumRange(s: string)
    requires |s| == 3
    ensures 0 <= DigitSum(s) <= 27
  {
    DigitSum3(s);
  }

  /** The value of a three-digit numeral. */
  function NumeralValue(s: string): (v: nat)
    requires IsNumeral3(s)
    ensures v < 1000
  {
    100 * DigitValue(s[0]) + 10 * DigitValue(s[1]) + DigitValue(s[2])
  }

  /** The three-digit numeral of `i` in 0..999, most significant digit first. */
  function Num3(i: nat): (s: string)
    requires i < 1000
    ensures IsNumeral3(s) && NumeralValue(s) == i
  {
    ThreeDigits(i);
    [DigitChar(i / 100), DigitChar((i / 10) % 10), DigitChar(i % 10)]
  }

  /** The hundreds, tens and units of `i` rebuild it. */
  lemma ThreeDigits(i: nat)
    requires i < 1000
    ensures i / 100 < 10 && 100 * (i / 100) + 10 * ((i / 10) % 10) + i % 10 == i
  {
    assert i == 10 * (i / 10) + i % 10;
    assert i / 10 == 10 * (i / 100) + (i / 10) % 10;
  }

  /** `Num3` is what `str_pad($i, 3, '0', STR_PAD_LEFT)` gives for the integer `i`. */
  lemma {:induction false} Num3IsPadded(i: nat)
    requires i < 1000
    ensures PadLeft(NatText(i), 3, '0') == Num3(i)
  {
    if i < 10 {
      assert NatText(i) == [DigitChar(i)];
    } else if i < 100 {
      assert NatText(i / 10) == [DigitChar(i / 10)];
      assert NatText(i) == [DigitChar(i / 10), DigitChar(i % 10)];
    } else {
      assert NatText(i / 100) == [DigitChar(i / 100)];
      assert NatText(i / 10) == [DigitChar(i / 100), DigitChar((i / 10) % 10)];
      assert NatText(i) == [DigitChar(i / 100), DigitChar((i / 10) % 10), DigitChar(i % 10)];
    }
  }

  /** Every three-digit numeral is `Num3` of its value, so `Num3` enumerates them all. */
  lemma Num3OfValue(s: string)
    requires IsNumeral3(s)
    ensures Num3(NumeralValue(s)) == s
  {
    var a, b, c := DigitValue(s[0]), DigitValue(s[1]), DigitValue(s[2]);
    var v := NumeralValue(s);
    assert v == 100 * a + (10 * b + c) && 0 <= 10 * b + c < 100;
    assert v / 100 == a;
    assert v == 10 * (10 * a + b) + c;
    assert v / 10 == 10 * a + b && v % 10 == c;
    assert (10 * a + b) % 10 == b;
  }

  /** `Num3` is injective. */
  lemma Num3Injective(i: nat, j: nat)
    requires i < 1000 && j < 1000
    ensures Num3(i) == Num3(j) <==> i == j
  {
    if Num3(i) == Num3(j) {
      assert NumeralValue(Num3(i)) == NumeralValue(Num3(j));
    }
  }

  /** The set of all three-digit numerals. */
  function AllNumerals(): (r: set<string>)
    ensures forall s :: s in r <==> IsNumeral3(s)
  {
    forall s | IsNumeral3(s) ensures s in (set i | 0 <= i < 1000 :: Num3(i)) {
      Num3OfValue(s);
    }
    set i | 0 <= i < 1000 :: Num3(i)
  }

  /** The numerals of 0..n-1. */
  function NumeralsBelow(n: nat): set<string>
    requires n <= 1000
  {
    set i | 0 <= i < n :: Num3(i)
  }

  lemma {:induction false} NumeralsBelowSize(n: nat)
    requires n <= 1000
    ensures |NumeralsBelow(n)| == n
  {
    if n > 0 {
      NumeralsBelowSize(n - 1);
      NumeralNotBelow(n - 1);
      NumeralsBelowStep(n);
      var below, last := NumeralsBelow(n - 1), Num3(n - 1);
      assert |below + {last}| == |below| + 1;
    }
  }

  /** The numerals below `n` are those below `n - 1` and the numeral of `n - 1`. */
  lemma NumeralsBelowStep(n: nat)
    requires 0 < n <= 1000
    ensures NumeralsBelow(n) == NumeralsBelow(n - 1) + {Num3(n - 1)}
  {
    var below := NumeralsBelow(n - 1);
    forall x | x in NumeralsBelow(n) ensures x in below + {Num3(n - 1)} {
      var i :| 0 <= i < n && x == Num3(i);
      if i < n - 1 {
        assert x in below;
      }
    }
  }

  /** The numeral of `m` is none of the numerals of smaller values. */
  lemma NumeralNotBelow(m: nat)
    requires m < 1000
    ensures Num3(m) !in NumeralsBelow(m)
  {
    forall i | 0 <= i < m ensures Num3(i) != Num3(m) {
      Num3Injective(i, m);
    }
  }

  /** There are exactly 1000 three-digit numerals. */
  lemma AllNumeralsSize()
    ensures |AllNumerals()| == 1000
  {
    NumeralsBelowSize(1000);
    assert AllNumerals() == NumeralsBelow(1000);
  }

  /** Character-by-character string order, as a database sorts a text column of numerals. */
  predicate LexLess(a: string, b: string) {
    |b| > 0 && (|a| == 0 || a[0] < b[0] || (a[0] == b[0] && LexLess(a[1..], b[1..])))
  }

  /** Ordering numerals by value is the same as ordering them as strings. */
  lemma NumeralOrderIsLex(a: string, b: string)
    requires IsNumeral3(a) && IsNumeral3(b)
    ensures NumeralValue(a) < NumeralValue(b) <==> LexLess(a, b)
  {
    assert LexLess(a, b) <==> a[0] < b[0] || (a[0] == b[0] && LexLess(a[1..], b[1..]));
    assert LexLess(a[1..], b[1..]) <==> a[1] < b[1] || (a[1] == b[1] && LexLess(a[2..], b[2..]));
    assert LexLess(a[2..], b[2..]) <==> a[2] < b[2] || (a[2] == b[2] && LexLess(a[3..], b[3..]));
    assert !LexLess(a[3..], b[3..]);
  }

  /** `str_pad($digit, 3, '0', STR_PAD_LEFT)` for a string argument. */
  function Pad3(s: string): (r: string)
    ensures |r| == if |s| >= 3 then |s| else 3
    ensures |s| >= 3 ==> r == s
  {
    PadLeft(s, 3, '0')
  }

  /** Padding keeps a numeral of up to three digits' value and yields a three-digit numeral. */
  lemma Pad3Numeral(s: string)
    requires 1 <= |s| <= 3 && forall i :: 0 <= i < |s| ==> IsDigitChar(s[i])
    ensures IsNumeral3(Pad3(s))
  {
  }

  /** "7" becomes "007". */
  lemma Pad3Example()
    ensures Pad3("7") == "007" && Pad3("42") == "042" && Pad3("123") == "123"
  {
    assert Repeat('0', 2) == "00";
    assert Repeat('0', 1) == "0";
  }
}
