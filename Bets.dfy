/**
 * The `three_d_bets` rows (model ThreeDBet): the break group, the
 * permutation generator and the `creating` hook.
 */
module Bets {
  import opened Options
  import opened Dates
  import opened Digits
  import opened Wallets

  /**
   * A bet row.  Amounts are integer cents; `gameTime` is the second of the
   * day of the stored 'H:i:s' text; `betResult` is the win number once the
   * bet is settled.
   */
  datatype Bet = Bet(
    userId: UserId,
    agentId: Option<UserId>,
    betNumber: string,
    betAmount: int,
    breakGroup: Option<int>,
    drawSession: Date,
    winLose: bool,
    potentialPayout: int,
    betStatus: bool,
    betResult: Option<string>,
    prizeSent: bool,
    gameDate: Date,
    gameTime: nat,
    slipId: nat,
    beforeBalance: int,
    afterBalance: int)

  /** `calculateBreakGroup`: the digit sum of the bet number. */
  function CalculateBreakGroup(betNumber: string): nat {
    DigitSum(betNumber)
  }

  /** The break group of a three-character number is the sum of its three digits, so it lies in 0..27. */
  lemma BreakGroupRange(betNumber: string)
    requires |betNumber| == 3
    ensures CalculateBreakGroup(betNumber)
            == DigitValue(betNumber[0]) + DigitValue(betNumber[1]) + DigitValue(betNumber[2])
    ensures CalculateBreakGroup(betNumber) <= 27
  {
    DigitSum3(betNumber);
  }

  // ---------------------------------------------------------------------
  // generatePermutations
  // ---------------------------------------------------------------------

  /** `$digits[$i]` of `str_split($n)`, as text: the character, or "" when there is none. */
  function CharAt(n: string, i: nat): string {
    if i < |n| then [n[i]] else ""
  }

  /** `$digits[$i] . $digits[$j] . $digits[$k]`. */
  function Arrange(n: string, i: nat, j: nat, k: nat): string {
    CharAt(n, i) + CharAt(n, j) + CharAt(n, k)
  }

  /** Appends `x` unless it is already present (`in_array` then `[] =`). */
  function AddNew(p: seq<string>, x: string): seq<string> {
    if x in p then p else p + [x]
  }

  lemma AddNewMembers(p: seq<string>, x: string)
    ensures forall y :: y in AddNew(p, x) <==> y in p || y == x
    ensures |AddNew(p, x)| == if x in p then |p| else |p| + 1
    ensures |p| > 0 ==> AddNew(p, x)[0] == p[0]
  {
  }

  /** The body of the innermost loop for the indices `i, j, k`. */
  function Step(n: string, p: seq<string>, i: nat, j: nat, k: nat): seq<string> {
    if i != j && i != k && j != k then AddNew(p, Arrange(n, i, j, k)) else p
  }

  /** The innermost loop after `k` rounds. */
  function RunK(n: string, p: seq<string>, i: nat, j: nat, k: nat): seq<string> {
    if k == 0 then p else Step(n, RunK(n, p, i, j, k - 1), i, j, k - 1)
  }

  /** The middle loop after `j` rounds. */
  function RunJ(n: string, p: seq<string>, i: nat, j: nat): seq<string> {
    if j == 0 then p else RunK(n, RunJ(n, p, i, j - 1), i, j - 1, 3)
  }

  /** The outer loop after `i` rounds. */
  function RunI(n: string, p: seq<string>, i: nat): seq<string> {
    if i == 0 then p else RunJ(n, RunI(n, p, i - 1), i - 1, 3)
  }

  /**
   * The six arrangements of the three digits in the order the loops meet
   * them (0-1-2, 0-2-1, 1-0-2, 1-2-0, 2-0-1, 2-1-0), repetitions dropped.
   */
  function PermutationList(n: string): seq<string> {
    AddNew(AddNew(AddNew(AddNew(AddNew(AddNew([],
      Arrange(n, 0, 1, 2)), Arrange(n, 0, 2, 1)), Arrange(n, 1, 0, 2)),
      Arrange(n, 1, 2, 0)), Arrange(n, 2, 0, 1)), Arrange(n, 2, 1, 0))
  }

  /** A full round of the innermost loop for fixed `i, j`. */
  lemma RunKFull(n: string, p: seq<string>, i: nat, j: nat)
    ensures RunK(n, p, i, j, 3) == Step(n, Step(n, Step(n, p, i, j, 0), i, j, 1), i, j, 2)
  {
    assert RunK(n, p, i, j, 1) == Step(n, p, i, j, 0);
    assert RunK(n, p, i, j, 2) == Step(n, RunK(n, p, i, j, 1), i, j, 1);
  }

  /** A full round of the middle loop for a fixed `i`: only the two index triples starting with `i` count. */
  lemma RunJFull(n: string, p: seq<string>, i: nat)
    requires i < 3
    ensures i == 0 ==> RunJ(n, p, i, 3) == AddNew(AddNew(p, Arrange(n, 0, 1, 2)), Arrange(n, 0, 2, 1))
    ensures i == 1 ==> RunJ(n, p, i, 3) == AddNew(AddNew(p, Arrange(n, 1, 0, 2)), Arrange(n, 1, 2, 0))
    ensures i == 2 ==> RunJ(n, p, i, 3) == AddNew(AddNew(p, Arrange(n, 2, 0, 1)), Arrange(n, 2, 1, 0))
  {
    var q0 := RunJ(n, p, i, 0);
    assert q0 == p;
    RunKFull(n, q0, i, 0);
    var q1 := RunJ(n, p, i, 1);
    RunKFull(n, q1, i, 1);
    var q2 := RunJ(n, p, i, 2);
    RunKFull(n, q2, i, 2);
    assert RunJ(n, p, i, 3) == RunK(n, q2, i, 2, 3);
  }

  /** The three nested loops compute `PermutationList`. */
  lemma LoopsComputePermutationList(n: string)
    ensures RunI(n, [], 3) == PermutationList(n)
  {
    RunJFull(n, RunI(n, [], 0), 0);
    RunJFull(n, RunI(n, [], 1), 1);
    RunJFull(n, RunI(n, [], 2), 2);
  }

  /** `generatePermutations`. */
  method GeneratePermutations(betNumber: string) returns (perms: seq<string>)
    ensures perms == PermutationList(betNumber)
  {
    perms := [];
    for i := 0 to 3
      invariant perms == RunI(betNumber, [], i)
    {
      for j := 0 to 3
        invariant perms == RunJ(betNumber, RunI(betNumber, [], i), i, j)
      {
        for k := 0 to 3
          invariant perms == RunK(betNumber, RunJ(betNumber, RunI(betNumber, [], i), i, j), i, j, k)
        {
          if i != j && i != k && j != k {
            var perm := CharAt(betNumber, i) + CharAt(betNumber, j) + CharAt(betNumber, k);
            if perm !in perms {
              perms := perms + [perm];
            }
          }
        }
      }
    }
    LoopsComputePermutationList(betNumber);
  }

  ghost predicate NoDuplicates(s: seq<string>) {
    forall i, j :: 0 <= i < j < |s| ==> s[i] != s[j]
  }

  lemma AddNewKeepsNoDuplicates(p: seq<string>, x: string)
    requires NoDuplicates(p)
    ensures NoDuplicates(AddNew(p, x))
  {
  }

  /** The strings `PermutationList(n)` holds: the six arrangements. */
  lemma PermutationListMembers(n: string)
    ensures forall w :: w in PermutationList(n) <==>
      w == Arrange(n, 0, 1, 2) || w == Arrange(n, 0, 2, 1) || w == Arrange(n, 1, 0, 2)
      || w == Arrange(n, 1, 2, 0) || w == Arrange(n, 2, 0, 1) || w == Arrange(n, 2, 1, 0)
  {
    var a := AddNew([], Arrange(n, 0, 1, 2));
    AddNewMembers([], Arrange(n, 0, 1, 2));
    var b := AddNew(a, Arrange(n, 0, 2, 1));
    AddNewMembers(a, Arrange(n, 0, 2, 1));
    var c := AddNew(b, Arrange(n, 1, 0, 2));
    AddNewMembers(b, Arrange(n, 1, 0, 2));
    var d := AddNew(c, Arrange(n, 1, 2, 0));
    AddNewMembers(c, Arrange(n, 1, 2, 0));
    var e := AddNew(d, Arrange(n, 2, 0, 1));
    AddNewMembers(d, Arrange(n, 2, 0, 1));
    AddNewMembers(e, Arrange(n, 2, 1, 0));
    assert PermutationList(n) == AddNew(e, Arrange(n, 2, 1, 0));
  }

  /** The generated arrangements are pairwise distinct. */
  lemma PermutationListDistinct(n: string)
    ensures NoDuplicates(PermutationList(n))
  {
    var a := AddNew([], Arrange(n, 0, 1, 2));
    AddNewKeepsNoDuplicates([], Arrange(n, 0, 1, 2));
    var b := AddNew(a, Arrange(n, 0, 2, 1));
    AddNewKeepsNoDuplicates(a, Arrange(n, 0, 2, 1));
    var c := AddNew(b, Arrange(n, 1, 0, 2));
    AddNewKeepsNoDuplicates(b, Arrange(n, 1, 0, 2));
    var d := AddNew(c, Arrange(n, 1, 2, 0));
    AddNewKeepsNoDuplicates(c, Arrange(n, 1, 2, 0));
    var e := AddNew(d, Arrange(n, 2, 0, 1));
    AddNewKeepsNoDuplicates(d, Arrange(n, 2, 0, 1));
    AddNewKeepsNoDuplicates(e, Arrange(n, 2, 1, 0));
    assert PermutationList(n) == AddNew(e, Arrange(n, 2, 1, 0));
  }

  /** The first generated arrangement is the digits in their own order: for a three-character number, the number itself. */
  lemma PermutationListFirst(n: string)
    ensures |PermutationList(n)| >= 1 && PermutationList(n)[0] == Arrange(n, 0, 1, 2)
    ensures |n| == 3 ==> PermutationList(n)[0] == n
  {
    var a := AddNew([], Arrange(n, 0, 1, 2));
    assert a == [Arrange(n, 0, 1, 2)];
    var b := AddNew(a, Arrange(n, 0, 2, 1));
    AddNewMembers(a, Arrange(n, 0, 2, 1));
    var c := AddNew(b, Arrange(n, 1, 0, 2));
    AddNewMembers(b, Arrange(n, 1, 0, 2));
    var d := AddNew(c, Arrange(n, 1, 2, 0));
    AddNewMembers(c, Arrange(n, 1, 2, 0));
    var e := AddNew(d, Arrange(n, 2, 0, 1));
    AddNewMembers(d, Arrange(n, 2, 0, 1));
    AddNewMembers(e, Arrange(n, 2, 1, 0));
    assert PermutationList(n) == AddNew(e, Arrange(n, 2, 1, 0));
    if |n| == 3 {
      assert Arrange(n, 0, 1, 2) == [n[0], n[1], n[2]] == n;
    }
  }

  /** A three-character string as its three characters, and its arrangements as character triples. */
  lemma Spell3(n: string)
    requires |n| == 3
    ensures n == [n[0], n[1], n[2]]
    ensures Arrange(n, 0, 1, 2) == [n[0], n[1], n[2]] && Arrange(n, 0, 2, 1) == [n[0], n[2], n[1]]
    ensures Arrange(n, 1, 0, 2) == [n[1], n[0], n[2]] && Arrange(n, 1, 2, 0) == [n[1], n[2], n[0]]
    ensures Arrange(n, 2, 0, 1) == [n[2], n[0], n[1]] && Arrange(n, 2, 1, 0) == [n[2], n[1], n[0]]
  {
  }

  /** Two two-element multisets are equal only when the elements match, in some order. */
  lemma SameMultiset2(a: char, b: char, x: char, y: char)
    requires multiset{a, b} == multiset{x, y}
    ensures (a == x && b == y) || (a == y && b == x)
  {
    assert a in multiset{x, y};
    if a == x {
      assert multiset{b} == multiset{a, b} - multiset{a} == multiset{x, y} - multiset{x} == multiset{y};
      assert b in multiset{y};
    } else {
      assert multiset{b} == multiset{a, b} - multiset{a} == multiset{x, y} - multiset{y} == multiset{x};
      assert b in multiset{x};
    }
  }

  /** Every arrangement of a three-character number has the number's characters. */
  lemma ArrangementsKeepDigits(n: string)
    requires |n| == 3
    ensures forall w :: w in PermutationList(n) ==> multiset(w) == multiset(n)
  {
    Spell3(n);
    PermutationListMembers(n);
  }

  /** Taking the same element out of two equal three-element multisets leaves equal pairs. */
  lemma CancelFirst(a: char, b: char, c: char, y: char, z: char)
    requires multiset{a, b, c} == multiset{a, y, z}
    ensures multiset{b, c} == multiset{y, z}
  {
    calc {
      multiset{b, c};
      multiset{a, b, c} - multiset{a};
      multiset{a, y, z} - multiset{a};
      multiset{y, z};
    }
  }

  /** Two three-element multisets are equal only when the elements match in one of the six orders. */
  lemma SameMultiset3(a: char, b: char, c: char, x: char, y: char, z: char)
    requires multiset{a, b, c} == multiset{x, y, z}
    ensures (a == x && b == y && c == z) || (a == x && b == z && c == y)
         || (a == y && b == x && c == z) || (a == y && b == z && c == x)
         || (a == z && b == x && c == y) || (a == z && b == y && c == x)
  {
    assert a in multiset{x, y, z};
    if a == x {
      CancelFirst(a, b, c, y, z);
      SameMultiset2(b, c, y, z);
    } else if a == y {
      assert multiset{x, y, z} == multiset{y, x, z};
      CancelFirst(a, b, c, x, z);
      SameMultiset2(b, c, x, z);
    } else {
      assert a == z;
      assert multiset{x, y, z} == multiset{z, x, y};
      CancelFirst(a, b, c, x, y);
      SameMultiset2(b, c, x, y);
    }
  }

  lemma ThreeAsMultiset(s: string)
    requires |s| == 3
    ensures s == [s[0], s[1], s[2]]
    ensures multiset(s) == multiset{s[0], s[1], s[2]}
  {
    assert s == [s[0], s[1], s[2]];
  }

  /** A string with the same characters as a three-character number is one of its arrangements. */
  lemma SameDigitsAreArranged(n: string, w: string)
    requires |n| == 3 && multiset(w) == multiset(n)
    ensures w in PermutationList(n)
  {
    Spell3(n);
    assert |w| == |multiset(w)| == 3;
    ThreeAsMultiset(n);
    ThreeAsMultiset(w);
    SameMultiset3(w[0], w[1], w[2], n[0], n[1], n[2]);
    PermutationListMembers(n);
  }

  /**
   * For a three-character number, a string is among its permutations
   * exactly when it has the same characters with the same multiplicities.
   */
  lemma PermutationsAreRearrangements(n: string, w: string)
    requires |n| == 3
    ensures w in PermutationList(n) <==> multiset(w) == multiset(n)
  {
    ArrangementsKeepDigits(n);
    if multiset(w) == multiset(n) {
      SameDigitsAreArranged(n, w);
    }
  }

  lemma AddNewFresh(p: seq<string>, x: string)
    requires x !in p
    ensures AddNew(p, x) == p + [x]
  {
  }

  lemma AddNewPresent(p: seq<string>, x: string)
    requires x in p
    ensures AddNew(p, x) == p
  {
  }

  /** Three different digits: all six arrangements, in the loops' order. */
  lemma PermutationsOfDistinct(n: string)
    requires |n| == 3 && n[0] != n[1] && n[0] != n[2] && n[1] != n[2]
    ensures PermutationList(n) == [[n[0], n[1], n[2]], [n[0], n[2], n[1]], [n[1], n[0], n[2]],
                                   [n[1], n[2], n[0]], [n[2], n[0], n[1]], [n[2], n[1], n[0]]]
  {
    Spell3(n);
    var p0, p1, p2 := [n[0], n[1], n[2]], [n[0], n[2], n[1]], [n[1], n[0], n[2]];
    var p3, p4, p5 := [n[1], n[2], n[0]], [n[2], n[0], n[1]], [n[2], n[1], n[0]];
    AddNewFresh([], p0);
    assert p1[1] != p0[1];
    AddNewFresh([p0], p1);
    assert p2[0] != p0[0] && p2[0] != p1[0];
    AddNewFresh([p0, p1], p2);
    assert p3[0] != p0[0] && p3[0] != p1[0] && p3[1] != p2[1];
    AddNewFresh([p0, p1, p2], p3);
    assert p4[0] != p0[0] && p4[0] != p1[0] && p4[0] != p2[0] && p4[0] != p3[0];
    AddNewFresh([p0, p1, p2, p3], p4);
    assert p5[0] != p0[0] && p5[0] != p1[0] && p5[0] != p2[0] && p5[0] != p3[0] && p5[1] != p4[1];
    AddNewFresh([p0, p1, p2, p3, p4], p5);
  }

  /** The first two digits agree and the third differs: three arrangements. */
  lemma PermutationsOfFirstPair(n: string)
    requires |n| == 3 && n[0] == n[1] && n[1] != n[2]
    ensures PermutationList(n) == [[n[0], n[1], n[2]], [n[0], n[2], n[1]], [n[2], n[0], n[1]]]
  {
    Spell3(n);
    var p0, p1, p4 := [n[0], n[1], n[2]], [n[0], n[2], n[1]], [n[2], n[0], n[1]];
    AddNewFresh([], p0);
    assert p1[1] != p0[1];
    AddNewFresh([p0], p1);
    AddNewPresent([p0, p1], Arrange(n, 1, 0, 2));
    AddNewPresent([p0, p1], Arrange(n, 1, 2, 0));
    assert p4[0] != p0[0] && p4[0] != p1[0];
    AddNewFresh([p0, p1], p4);
    AddNewPresent([p0, p1, p4], Arrange(n, 2, 1, 0));
  }

  /** The last two digits agree and the first differs: three arrangements. */
  lemma PermutationsOfLastPair(n: string)
    requires |n| == 3 && n[1] == n[2] && n[0] != n[1]
    ensures PermutationList(n) == [[n[0], n[1], n[2]], [n[1], n[0], n[2]], [n[1], n[2], n[0]]]
  {
    Spell3(n);
    var p0, p2, p3 := [n[0], n[1], n[2]], [n[1], n[0], n[2]], [n[1], n[2], n[0]];
    AddNewFresh([], p0);
    AddNewPresent([p0], Arrange(n, 0, 2, 1));
    assert p2[0] != p0[0];
    AddNewFresh([p0], p2);
    assert p3[0] != p0[0] && p3[1] != p2[1];
    AddNewFresh([p0, p2], p3);
    AddNewPresent([p0, p2, p3], Arrange(n, 2, 0, 1));
    AddNewPresent([p0, p2, p3], Arrange(n, 2, 1, 0));
  }

  /** The outer digits agree and the middle one differs: three arrangements. */
  lemma PermutationsOfOuterPair(n: string)
    requires |n| == 3 && n[0] == n[2] && n[0] != n[1]
    ensures PermutationList(n) == [[n[0], n[1], n[2]], [n[0], n[2], n[1]], [n[1], n[0], n[2]]]
  {
    Spell3(n);
    var p0, p1, p2 := [n[0], n[1], n[2]], [n[0], n[2], n[1]], [n[1], n[0], n[2]];
    AddNewFresh([], p0);
    assert p1[1] != p0[1];
    AddNewFresh([p0], p1);
    assert p2[0] != p0[0] && p2[0] != p1[0];
    AddNewFresh([p0, p1], p2);
    AddNewPresent([p0, p1, p2], Arrange(n, 1, 2, 0));
    AddNewPresent([p0, p1, p2], Arrange(n, 2, 0, 1));
    AddNewPresent([p0, p1, p2], Arrange(n, 2, 1, 0));
  }

  /** Three equal digits: the number itself, once. */
  lemma PermutationsOfTriple(n: string)
    requires |n| == 3 && n[0] == n[1] == n[2]
    ensures PermutationList(n) == [n]
  {
    Spell3(n);
    AddNewFresh([], n);
    AddNewPresent([n], Arrange(n, 0, 2, 1));
    AddNewPresent([n], Arrange(n, 1, 0, 2));
    AddNewPresent([n], Arrange(n, 1, 2, 0));
    AddNewPresent([n], Arrange(n, 2, 0, 1));
    AddNewPresent([n], Arrange(n, 2, 1, 0));
  }

  /** Six arrangements for three different digits, three when exactly two agree, one when all agree. */
  lemma PermutationCount(n: string)
    requires |n| == 3
    ensures n[0] != n[1] && n[0] != n[2] && n[1] != n[2] ==> |PermutationList(n)| == 6
    ensures (n[0] == n[1]) != (n[1] == n[2]) || (n[0] == n[2] && n[0] != n[1]) ==> |PermutationList(n)| == 3
    ensures n[0] == n[1] == n[2] ==> |PermutationList(n)| == 1
  {
    if n[0] != n[1] && n[0] != n[2] && n[1] != n[2] {
      PermutationsOfDistinct(n);
    } else if n[0] == n[1] && n[1] != n[2] {
      PermutationsOfFirstPair(n);
    } else if n[1] == n[2] && n[0] != n[1] {
      PermutationsOfLastPair(n);
    } else if n[0] == n[2] && n[0] != n[1] {
      PermutationsOfOuterPair(n);
    } else {
      PermutationsOfTriple(n);
    }
  }

  /** "112" has the three permutations "112", "121" and "211", in that order. */
  lemma PermutationExample()
    ensures PermutationList("112") == ["112", "121", "211"]
  {
    assert Arrange("112", 0, 1, 2) == "112";
    assert Arrange("112", 0, 2, 1) == "121";
    assert Arrange("112", 1, 0, 2) == "112";
    assert Arrange("112", 1, 2, 0) == "121";
    assert Arrange("112", 2, 0, 1) == "211";
    assert Arrange("112", 2, 1, 0) == "211";
  }

  // ---------------------------------------------------------------------
  // creating hook
  // ---------------------------------------------------------------------

  /**
   * The `creating` hook: the Asia/Yangon date and time replace whatever the
   * caller passed, and a break group that is unset or 0 is recomputed from
   * the bet number.
   */
  method Creating(bet: Bet, yangon: Instant) returns (stored: Bet)
    ensures stored.gameDate == yangon.date && stored.gameTime == SecondOfDay(yangon)
    ensures bet.breakGroup.None? || bet.breakGroup.value == 0 ==>
              stored.breakGroup == Some(CalculateBreakGroup(bet.betNumber))
    ensures bet.breakGroup.Some? && bet.breakGroup.value != 0 ==> stored.breakGroup == bet.breakGroup
    ensures stored.(gameDate := bet.gameDate, gameTime := bet.gameTime, breakGroup := bet.breakGroup) == bet
  {
    stored := bet.(gameDate := yangon.date, gameTime := SecondOfDay(yangon));
    if bet.breakGroup.None? || bet.breakGroup.value == 0 {
      stored := stored.(breakGroup := Some(CalculateBreakGroup(bet.betNumber)));
    }
  }
}
