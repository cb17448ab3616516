/**
 * Break groups: the numbers 000 .. 999 grouped by digit sum (0 .. 27).
 * `getBreakGroupCount` of the admin controller counts one group;
 * `getBreakGroups`, written out identically in the admin and the API
 * controllers, lists all 28.
 */
module BreakGroups {
  import opened Text
  import opened Digits
  import opened CloseDigits

  /** How many of the numerals of 0 .. n-1 have digit sum `g`. */
  function CountBelow(g: int, n: nat): nat
    requires n <= 1000
  {
    if n == 0 then 0 else CountBelow(g, n - 1) + (if DigitSum(Num3(n - 1)) == g then 1 else 0)
  }

  /** The numerals of 0 .. n-1 with digit sum `g`, in ascending order. */
  function NumbersWithSum(g: int, n: nat): seq<string>
    requires n <= 1000
  {
    if n == 0 then [] else NumbersWithSum(g, n - 1) + (if DigitSum(Num3(n - 1)) == g then [Num3(n - 1)] else [])
  }

  /** `getBreakGroupCount`: counts the numbers 000 .. 999 whose digits add up to `breakGroup`. */
  method GetBreakGroupCount(breakGroup: int) returns (count: nat)
    ensures count == CountBelow(breakGroup, 1000)
  {
    count := 0;
    for i := 0 to 1000
      invariant count == CountBelow(breakGroup, i)
    {
      var number := PadLeft(NatText(i), 3, '0');
      Num3IsPadded(i);
      assert CountBelow(breakGroup, i + 1) == CountBelow(breakGroup, i) + (if DigitSum(number) == breakGroup then 1 else 0);
      if DigitSum(number) == breakGroup {
        count := count + 1;
      }
    }
  }

  /** One entry of `getBreakGroups`. */
  datatype BreakGroup = BreakGroup(breakNumber: nat, name: string, numbers: seq<string>, count: nat)

  /** The inner loop of `getBreakGroups`: the numbers of one group. */
  method GroupNumbers(sum: nat) returns (numbers: seq<string>)
    ensures numbers == NumbersWithSum(sum, 1000)
  {
    numbers := [];
    for i := 0 to 1000
      invariant numbers == NumbersWithSum(sum, i)
    {
      var num := PadLeft(NatText(i), 3, '0');
      Num3IsPadded(i);
      var digitSum := DigitSum(num);
      if digitSum == sum {
        numbers := numbers + [num];
      }
    }
  }

  /** `getBreakGroups`: one entry per digit sum 0 .. 27, named "Break n", with its numbers and their count. */
  method GetBreakGroups() returns (breakGroups: seq<BreakGroup>)
    ensures |breakGroups| == 28
    ensures forall s :: 0 <= s < 28 ==>
              breakGroups[s] == BreakGroup(s, "Break " + NatText(s), NumbersWithSum(s, 1000), |NumbersWithSum(s, 1000)|)
  {
    breakGroups := [];
    for sum := 0 to 28
      invariant |breakGroups| == sum
      invariant forall s :: 0 <= s < sum ==>
                  breakGroups[s] == BreakGroup(s, "Break " + NatText(s), NumbersWithSum(s, 1000), |NumbersWithSum(s, 1000)|)
    {
      var numbers := GroupNumbers(sum);
      breakGroups := breakGroups + [BreakGroup(sum, "Break " + NatText(sum), numbers, |numbers|)];
    }
  }

  /** A group lists as many numbers as `getBreakGroupCount` counts. */
  lemma {:induction false} GroupCountAgrees(g: int, n: nat)
    requires n <= 1000
    ensures |NumbersWithSum(g, n)| == CountBelow(g, n)
  {
    if n > 0 {
      GroupCountAgrees(g, n - 1);
    }
  }

  /** A group holds exactly the three-digit numerals below `n` with that digit sum. */
  lemma {:induction false} GroupMembers(g: int, n: nat, s: string)
    requires n <= 1000
    ensures s in NumbersWithSum(g, n) <==> IsNumeral3(s) && NumeralValue(s) < n && DigitSum(s) == g
  {
    if n > 0 {
      GroupMembers(g, n - 1, s);
      if IsNumeral3(s) && NumeralValue(s) == n - 1 {
        Num3OfValue(s);
      }
    }
  }

  /** Appending a numeral larger than every entry keeps a list ascending. */
  lemma AscendingAppend(init: seq<string>, x: string)
    requires AscendingNumerals(init) && IsNumeral3(x)
    requires forall i :: 0 <= i < |init| ==> IsNumeral3(init[i]) && NumeralValue(init[i]) < NumeralValue(x)
    ensures AscendingNumerals(init + [x])
  {
    var r := init + [x];
    forall i, j | 0 <= i < j < |r|
      ensures IsNumeral3(r[i]) && IsNumeral3(r[j]) && NumeralValue(r[i]) < NumeralValue(r[j])
    {
      assert r[i] == init[i];
      if j < |init| {
        assert r[j] == init[j];
      }
    }
  }

  /** The numbers of a group ascend strictly in value. */
  lemma {:induction false} GroupAscending(g: int, n: nat)
    requires n <= 1000
    ensures AscendingNumerals(NumbersWithSum(g, n))
  {
    if n > 0 {
      GroupAscending(g, n - 1);
      var init := NumbersWithSum(g, n - 1);
      if DigitSum(Num3(n - 1)) == g {
        forall i | 0 <= i < |init| ensures IsNumeral3(init[i]) && NumeralValue(init[i]) < NumeralValue(Num3(n - 1)) {
          GroupMembers(g, n - 1, init[i]);
        }
        AscendingAppend(init, Num3(n - 1));
        assert NumbersWithSum(g, n) == init + [Num3(n - 1)];
      } else {
        assert NumbersWithSum(g, n) == init + [];
        assert init + [] == init;
      }
    }
  }

  /** The counts of the first `groups` digit sums, added up. */
  function SumOfCounts(n: nat, groups: nat): nat
    requires n <= 1000
  {
    if groups == 0 then 0 else SumOfCounts(n, groups - 1) + CountBelow(groups - 1, n)
  }

  /** Numeral `n` adds one to the sum of the counts exactly when its digit sum is among the first `groups`. */
  lemma {:induction false} SumOfCountsStep(n: nat, groups: nat)
    requires n < 1000
    ensures SumOfCounts(n + 1, groups) == SumOfCounts(n, groups) + (if DigitSum(Num3(n)) < groups then 1 else 0)
  {
    if groups > 0 {
      SumOfCountsStep(n, groups - 1);
    }
  }

  /** Before any number, every count is 0. */
  lemma {:induction false} SumOfCountsZero(groups: nat)
    ensures SumOfCounts(0, groups) == 0
  {
    if groups > 0 {
      SumOfCountsZero(groups - 1);
    }
  }

  /** Every number is in exactly one of the 28 groups: the counts add up to the numbers below `n`. */
  lemma {:induction false} CountsPartition(n: nat)
    requires n <= 1000
    ensures SumOfCounts(n, 28) == n
  {
    if n == 0 {
      SumOfCountsZero(28);
    } else {
      CountsPartition(n - 1);
      SumOfCountsStep(n - 1, 28);
      DigitSumRange(Num3(n - 1));
    }
  }

  /** The 28 groups of `getBreakGroups` together hold the 1000 numbers. */
  lemma BreakGroupsCover()
    ensures SumOfCounts(1000, 28) == 1000
    ensures forall g :: 0 <= g < 28 ==> |NumbersWithSum(g, 1000)| == CountBelow(g, 1000)
  {
    CountsPartition(1000);
    forall g | 0 <= g < 28 ensures |NumbersWithSum(g, 1000)| == CountBelow(g, 1000) {
      GroupCountAgrees(g, 1000);
    }
  }
}
