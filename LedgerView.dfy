/**
 * The per-row logic of the admin ledger page: the recursive
 * `getPermutations` helper, and for each number of the ledger map its
 * padded text, its break group and the distinct permutations shown beside
 * it.
 */
module LedgerView {
  import opened Digits
  import opened Bets

  // ---------------------------------------------------------------------
  // getPermutations
  // ---------------------------------------------------------------------

  /** `array_merge(array_slice($arr, 0, $i), array_slice($arr, $i + 1))`. */
  function Remove(arr: string, i: nat): (r: string)
    requires i < |arr|
    ensures |r| == |arr| - 1
    ensures forall k :: 0 <= k < i ==> r[k] == arr[k]
    ensures forall k :: i <= k < |r| ==> r[k] == arr[k + 1]
  {
    arr[..i] + arr[i + 1..]
  }

  /** `array_merge([$current], $perm)` for every `$perm`, in order. */
  function Prepend(c: char, ps: seq<string>): (r: seq<string>)
    ensures |r| == |ps|
    ensures forall k :: 0 <= k < |ps| ==> r[k] == [c] + ps[k]
  {
    seq(|ps|, k requires 0 <= k < |ps| => [c] + ps[k])
  }

  /** What `getPermutations` returns: `[$arr]` for at most one element, else the loop's list. */
  function Perms(arr: string): seq<string>
    decreases |arr|, |arr| + 1
  {
    if |arr| <= 1 then [arr] else PermsUpTo(arr, |arr|)
  }

  /** The loop's list after the first `i` choices of leading element. */
  function PermsUpTo(arr: string, i: nat): seq<string>
    requires 1 < |arr| && i <= |arr|
    decreases |arr|, i
  {
    if i == 0 then [] else PermsUpTo(arr, i - 1) + Prepend(arr[i - 1], Perms(Remove(arr, i - 1)))
  }

  /** `getPermutations`: recursive, with a `for` loop over the leading element collecting the results. */
  method GetPermutations(arr: string) returns (permutations: seq<string>)
    ensures permutations == Perms(arr)
    decreases |arr|
  {
    if |arr| <= 1 {
      return [arr];
    }
    permutations := [];
    for i := 0 to |arr|
      invariant permutations == PermsUpTo(arr, i)
    {
      var current := arr[i];
      var remaining := arr[..i] + arr[i + 1..];
      var sub := GetPermutations(remaining);
      var before := permutations;
      for j := 0 to |sub|
        invariant permutations == before + Prepend(current, sub[..j])
      {
        assert Prepend(current, sub[..j + 1]) == Prepend(current, sub[..j]) + [[current] + sub[j]];
        permutations := permutations + [[current] + sub[j]];
      }
      assert sub[..|sub|] == sub;
    }
  }

  function Factorial(n: nat): nat {
    if n == 0 then 1 else n * Factorial(n - 1)
  }

  /** `getPermutations` returns n! arrangements, repetitions kept. */
  lemma {:induction false} PermsCount(arr: string)
    ensures |Perms(arr)| == Factorial(|arr|)
    decreases |arr|, |arr| + 1
  {
    if |arr| > 1 {
      PermsUpToCount(arr, |arr|);
    }
  }

  lemma {:induction false} PermsUpToCount(arr: string, i: nat)
    requires 1 < |arr| && i <= |arr|
    ensures |PermsUpTo(arr, i)| == i * Factorial(|arr| - 1)
    decreases |arr|, i
  {
    if i > 0 {
      PermsUpToCount(arr, i - 1);
      PermsCount(Remove(arr, i - 1));
      var f := Factorial(|arr| - 1);
      assert |PermsUpTo(arr, i)| == |PermsUpTo(arr, i - 1)| + |Perms(Remove(arr, i - 1))|;
      assert (i - 1) * f + f == i * f;
    }
  }

  /** Taking out one element leaves the rest of the multiset. */
  lemma RemoveMultiset(arr: string, i: nat)
    requires i < |arr|
    ensures multiset(arr) == multiset{arr[i]} + multiset(Remove(arr, i))
  {
    assert arr == arr[..i] + [arr[i]] + arr[i + 1..];
  }

  /** Every entry of `getPermutations` is a rearrangement of the input. */
  lemma {:induction false} PermsRearrange(arr: string, p: string)
    requires p in Perms(arr)
    ensures multiset(p) == multiset(arr)
    decreases |arr|, |arr| + 1
  {
    if |arr| > 1 {
      PermsUpToRearrange(arr, |arr|, p);
    }
  }

  lemma {:induction false} PermsUpToRearrange(arr: string, i: nat, p: string)
    requires 1 < |arr| && i <= |arr|
    requires p in PermsUpTo(arr, i)
    ensures multiset(p) == multiset(arr)
    decreases |arr|, i
  {
    var rest := Perms(Remove(arr, i - 1));
    if p in PermsUpTo(arr, i - 1) {
      PermsUpToRearrange(arr, i - 1, p);
    } else {
      var k := PrependMember(arr[i - 1], rest, p);
      PermsRearrange(Remove(arr, i - 1), rest[k]);
      ConsMultiset(arr, i - 1, rest[k]);
    }
  }

  /** An entry of `Prepend(c, ps)` is `c` before one of `ps`. */
  lemma PrependMember(c: char, ps: seq<string>, p: string) returns (k: nat)
    requires p in Prepend(c, ps)
    ensures k < |ps| && p == [c] + ps[k]
  {
    var r := Prepend(c, ps);
    var j :| 0 <= j < |r| && r[j] == p;
    k := j;
  }

  /** Putting back the element taken out restores the multiset. */
  lemma ConsMultiset(arr: string, i: nat, q: string)
    requires i < |arr| && multiset(q) == multiset(Remove(arr, i))
    ensures multiset([arr[i]] + q) == multiset(arr)
  {
    RemoveMultiset(arr, i);
  }

  lemma PrependOne(c: char, x: string)
    ensures Prepend(c, [x]) == [[c] + x]
  {
    var r := Prepend(c, [x]);
    assert r[0] == [c] + x;
  }

  lemma PrependTwo(c: char, x: string, y: string)
    ensures Prepend(c, [x, y]) == [[c] + x, [c] + y]
  {
    var r := Prepend(c, [x, y]);
    assert r[0] == [c] + x && r[1] == [c] + y;
  }

  /** Two elements: both orders. */
  lemma Perms2(r: string)
    requires |r| == 2
    ensures Perms(r) == [[r[0], r[1]], [r[1], r[0]]]
  {
    var x, y := r[0], r[1];
    assert Remove(r, 0) == [y];
    assert Remove(r, 1) == [x];
    PrependOne(x, [y]);
    PrependOne(y, [x]);
    assert [x] + [y] == [x, y];
    assert [y] + [x] == [y, x];
    assert PermsUpTo(r, 1) == PermsUpTo(r, 0) + Prepend(x, Perms([y]));
    assert PermsUpTo(r, 2) == PermsUpTo(r, 1) + Prepend(y, Perms([x]));
  }

  /** Three elements: the six orders, those with the first element leading first. */
  lemma Perms3Chars(n: string)
    requires |n| == 3
    ensures var x, y, z := n[0], n[1], n[2];
            Perms(n) == [[x] + [y, z], [x] + [z, y], [y] + [x, z], [y] + [z, x], [z] + [x, y], [z] + [y, x]]
  {
    var x, y, z := n[0], n[1], n[2];
    assert Remove(n, 0) == [y, z];
    assert Remove(n, 1) == [x, z];
    assert Remove(n, 2) == [x, y];
    Perms2([y, z]);
    Perms2([x, z]);
    Perms2([x, y]);
    PrependTwo(x, [y, z], [z, y]);
    PrependTwo(y, [x, z], [z, x]);
    PrependTwo(z, [x, y], [y, x]);
    assert PermsUpTo(n, 1) == PermsUpTo(n, 0) + Prepend(x, Perms([y, z]));
    assert PermsUpTo(n, 2) == PermsUpTo(n, 1) + Prepend(y, Perms([x, z]));
    assert PermsUpTo(n, 3) == PermsUpTo(n, 2) + Prepend(z, Perms([x, y]));
  }

  /** An arrangement of three in-range positions is its first character before the other two. */
  lemma ArrangeSplit(n: string, i: nat, j: nat, k: nat)
    requires i < |n| && j < |n| && k < |n|
    ensures Arrange(n, i, j, k) == [n[i]] + [n[j], n[k]]
  {
    assert [n[i]] + [n[j]] + [n[k]] == [n[i]] + [n[j], n[k]];
  }

  /** Three digits: the six arrangements, in the order the loops of `generatePermutations` meet them. */
  lemma Perms3(n: string)
    requires |n| == 3
    ensures Perms(n) == [Arrange(n, 0, 1, 2), Arrange(n, 0, 2, 1), Arrange(n, 1, 0, 2),
                         Arrange(n, 1, 2, 0), Arrange(n, 2, 0, 1), Arrange(n, 2, 1, 0)]
  {
    Perms3Chars(n);
    ArrangeSplit(n, 0, 1, 2);
    ArrangeSplit(n, 0, 2, 1);
    ArrangeSplit(n, 1, 0, 2);
    ArrangeSplit(n, 1, 2, 0);
    ArrangeSplit(n, 2, 0, 1);
    ArrangeSplit(n, 2, 1, 0);
  }

  // ---------------------------------------------------------------------
  // array_unique and the per-row values
  // ---------------------------------------------------------------------

  /** `array_unique` from an accumulated prefix: each string kept at its first occurrence. */
  function UniqueFrom(acc: seq<string>, s: seq<string>): seq<string>
    decreases |s|
  {
    if s == [] then acc else UniqueFrom(AddNew(acc, s[0]), s[1..])
  }

  /** One step of `array_unique`. */
  lemma UniqueStep(acc: seq<string>, x: string, rest: seq<string>)
    ensures UniqueFrom(acc, [x] + rest) == UniqueFrom(AddNew(acc, x), rest)
  {
    assert ([x] + rest)[1..] == rest;
  }

  /** `array_unique`. */
  function Unique(s: seq<string>): seq<string> {
    UniqueFrom([], s)
  }

  /** The distinct permutations the page computes are exactly `ThreeDBet::generatePermutations`, in the same order. */
  lemma UniquePermsAreGenerated(n: string)
    requires |n| == 3
    ensures Unique(Perms(n)) == PermutationList(n)
  {
    Perms3(n);
    var a, b, c := Arrange(n, 0, 1, 2), Arrange(n, 0, 2, 1), Arrange(n, 1, 0, 2);
    var d, e, f := Arrange(n, 1, 2, 0), Arrange(n, 2, 0, 1), Arrange(n, 2, 1, 0);
    assert Perms(n) == [a] + ([b] + ([c] + ([d] + ([e] + ([f] + [])))));
    UniqueStep([], a, [b] + ([c] + ([d] + ([e] + ([f] + [])))));
    var u1 := AddNew([], a);
    UniqueStep(u1, b, [c] + ([d] + ([e] + ([f] + []))));
    var u2 := AddNew(u1, b);
    UniqueStep(u2, c, [d] + ([e] + ([f] + [])));
    var u3 := AddNew(u2, c);
    UniqueStep(u3, d, [e] + ([f] + []));
    var u4 := AddNew(u3, d);
    UniqueStep(u4, e, [f] + []);
    var u5 := AddNew(u4, e);
    UniqueStep(u5, f, []);
  }

  /** One row of the ledger table. */
  datatype LedgerRow = LedgerRow(number: string, amount: int, breakGroup: nat, permutations: seq<string>,
                                 active: bool, showPermutations: bool)

  /**
   * The `@php` block and the cells of one row: the padded number, its
   * digit sum, its distinct permutations when something was bet on it, and
   * whether they are shown (more than one).
   */
  function Row(number: string, amount: int): LedgerRow {
    var padded := Pad3(number);
    var permutations := if amount > 0 then Unique(Perms(padded)) else [];
    LedgerRow(padded, amount, DigitSum(padded), permutations, amount > 0, amount > 0 && |permutations| > 1)
  }

  /**
   * For a key of the ledger map the break group is the bet's break group
   * (0..27); the permutations are those of `generatePermutations` when the
   * amount is positive and none otherwise; they are shown exactly when the
   * amount is positive and the digits are not all equal.
   */
  lemma RowFacts(number: string, amount: int)
    requires IsNumeral3(number)
    ensures var r := Row(number, amount);
            && r.number == number
            && r.breakGroup == CalculateBreakGroup(number) && r.breakGroup <= 27
            && r.permutations == (if amount > 0 then PermutationList(number) else [])
            && r.active == (amount > 0)
            && (r.showPermutations <==> amount > 0 && !(number[0] == number[1] == number[2]))
  {
    Pad3Numeral(number);
    DigitSumRange(number);
    UniquePermsAreGenerated(number);
    PermutationCount(number);
  }
}
