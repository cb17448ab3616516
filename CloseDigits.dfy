/**
 * The `three_d_close_digits` table (model ThreeDCloseDigit): per number a
 * `status` flag, true when betting on that number is open.  `close_digit`
 * is unique, so the table is a map from the number's text to its status.
 */
module CloseDigits {
  import opened Digits

  type DigitTable = map<string, bool>

  /** Every key is a three-digit numeral: what the seeder and the toggle's validation let in. */
  predicate WellFormed(t: DigitTable) {
    forall k :: k in t ==> IsNumeral3(k)
  }

  /** `isDigitOpen`: after left-padding to three characters, a row with status true. */
  predicate IsDigitOpen(t: DigitTable, digit: string) {
    Pad3(digit) in t && t[Pad3(digit)]
  }

  /** `isDigitClosed`: after left-padding to three characters, a row with status false. */
  predicate IsDigitClosed(t: DigitTable, digit: string) {
    Pad3(digit) in t && !t[Pad3(digit)]
  }

  /** A number is never both open and closed, and is neither when it has no row. */
  lemma OpenClosedExclusive(t: DigitTable, digit: string)
    ensures !(IsDigitOpen(t, digit) && IsDigitClosed(t, digit))
    ensures Pad3(digit) !in t ==> !IsDigitOpen(t, digit) && !IsDigitClosed(t, digit)
    ensures Pad3(digit) in t ==> IsDigitOpen(t, digit) != IsDigitClosed(t, digit)
  {
  }

  /** "7" is looked up as "007". */
  lemma PaddedLookupExample(t: DigitTable)
    ensures IsDigitOpen(t, "7") <==> "007" in t && t["007"]
  {
    Pad3Example();
  }

  /** The numerals `Num3(i)`, `from <= i < 1000`, whose row has the given status, in ascending order. */
  function WithStatusFrom(t: DigitTable, status: bool, from: nat): seq<string>
    requires from <= 1000
    decreases 1000 - from
  {
    if from == 1000 then []
    else (if Num3(from) in t && t[Num3(from)] == status then [Num3(from)] else [])
         + WithStatusFrom(t, status, from + 1)
  }

  /** `getOpenDigits`: the open numbers ordered by `close_digit`. */
  function GetOpenDigits(t: DigitTable): seq<string> {
    WithStatusFrom(t, true, 0)
  }

  /** `getClosedDigits`: the closed numbers ordered by `close_digit`. */
  function GetClosedDigits(t: DigitTable): seq<string> {
    WithStatusFrom(t, false, 0)
  }

  /** Every entry of `r` is a numeral of value at least `from` whose row has the given status. */
  ghost predicate AllWithStatus(r: seq<string>, t: DigitTable, status: bool, from: nat) {
    forall i :: 0 <= i < |r| ==> IsNumeral3(r[i]) && NumeralValue(r[i]) >= from && r[i] in t && t[r[i]] == status
  }

  /** The numerals of `r` strictly increase in value. */
  ghost predicate AscendingNumerals(r: seq<string>) {
    forall i, j :: 0 <= i < j < |r| ==> IsNumeral3(r[i]) && IsNumeral3(r[j]) && NumeralValue(r[i]) < NumeralValue(r[j])
  }

  /** One step of `WithStatusFrom`: the numeral `from` when its row has the status, then the rest. */
  lemma WithStatusFromStep(t: DigitTable, status: bool, from: nat)
    requires from < 1000
    ensures WithStatusFrom(t, status, from)
         == (if Num3(from) in t && t[Num3(from)] == status then [Num3(from)] else []) + WithStatusFrom(t, status, from + 1)
  {
  }

  /** Everything `WithStatusFrom` lists is a numeral of value at least `from` with the status. */
  lemma {:induction false} WithStatusFromSound(t: DigitTable, status: bool, from: nat)
    requires from <= 1000
    ensures AllWithStatus(WithStatusFrom(t, status, from), t, status, from)
    decreases 1000 - from
  {
    if from < 1000 {
      WithStatusFromSound(t, status, from + 1);
      var rest := WithStatusFrom(t, status, from + 1);
      var head := if Num3(from) in t && t[Num3(from)] == status then [Num3(from)] else [];
      var r := WithStatusFrom(t, status, from);
      WithStatusFromStep(t, status, from);
      forall i | 0 <= i < |r|
        ensures IsNumeral3(r[i]) && NumeralValue(r[i]) >= from && r[i] in t && t[r[i]] == status
      {
        if i >= |head| {
          assert r[i] == rest[i - |head|];
        } else {
          assert r[i] == Num3(from);
        }
      }
    }
  }

  /** `WithStatusFrom` lists its numerals in strictly increasing value. */
  lemma {:induction false} WithStatusFromAscending(t: DigitTable, status: bool, from: nat)
    requires from <= 1000
    ensures AscendingNumerals(WithStatusFrom(t, status, from))
    decreases 1000 - from
  {
    if from < 1000 {
      WithStatusFromAscending(t, status, from + 1);
      WithStatusFromSound(t, status, from + 1);
      var rest := WithStatusFrom(t, status, from + 1);
      var head := if Num3(from) in t && t[Num3(from)] == status then [Num3(from)] else [];
      var r := WithStatusFrom(t, status, from);
      WithStatusFromStep(t, status, from);
      forall i, j | 0 <= i < j < |r|
        ensures IsNumeral3(r[i]) && IsNumeral3(r[j]) && NumeralValue(r[i]) < NumeralValue(r[j])
      {
        assert r[j] == rest[j - |head|];
        if i >= |head| {
          assert r[i] == rest[i - |head|];
        }
      }
    }
  }

  /** Every numeral of value at least `from` with the status is listed by `WithStatusFrom`. */
  lemma {:induction false} WithStatusFromComplete(t: DigitTable, status: bool, from: nat)
    requires from <= 1000
    ensures forall s :: IsNumeral3(s) && NumeralValue(s) >= from && s in t && t[s] == status ==> s in WithStatusFrom(t, status, from)
    decreases 1000 - from
  {
    if from < 1000 {
      WithStatusFromComplete(t, status, from + 1);
      var rest := WithStatusFrom(t, status, from + 1);
      var r := WithStatusFrom(t, status, from);
      WithStatusFromStep(t, status, from);
      forall s | IsNumeral3(s) && NumeralValue(s) >= from && s in t && t[s] == status
        ensures s in r
      {
        Num3OfValue(s);
        if NumeralValue(s) > from {
          assert s in rest;
        }
      }
    }
  }

  /** The numerals of a sequence, as a set. */
  function Elements(s: seq<string>): set<string> {
    set x | x in s
  }

  /** Each entry is smaller than every later one in string order. */
  ghost predicate LexAscending(r: seq<string>) {
    forall i, j :: 0 <= i < j < |r| ==> LexLess(r[i], r[j])
  }

  /** On a well-formed table, the list of one status holds exactly the rows with it, in ascending string order. */
  lemma StatusListFacts(t: DigitTable, status: bool)
    requires WellFormed(t)
    ensures forall s :: s in WithStatusFrom(t, status, 0) <==> s in t && t[s] == status
    ensures LexAscending(WithStatusFrom(t, status, 0))
  {
    WithStatusFromSound(t, status, 0);
    WithStatusFromAscending(t, status, 0);
    WithStatusFromComplete(t, status, 0);
    var r := WithStatusFrom(t, status, 0);
    forall i, j | 0 <= i < j < |r| ensures LexLess(r[i], r[j]) {
      NumeralOrderIsLex(r[i], r[j]);
    }
    forall s | s in t && t[s] == status ensures s in r {
      assert IsNumeral3(s);
    }
  }

  /**
   * On a well-formed table, `getOpenDigits` lists exactly the open numbers
   * and `getClosedDigits` exactly the closed ones, each in ascending string
   * order (hence without repetition); together they partition the table.
   */
  lemma OpenClosedListsPartition(t: DigitTable)
    requires WellFormed(t)
    ensures forall s :: s in GetOpenDigits(t) <==> s in t && t[s]
    ensures forall s :: s in GetClosedDigits(t) <==> s in t && !t[s]
    ensures Elements(GetOpenDigits(t)) + Elements(GetClosedDigits(t)) == t.Keys
    ensures Elements(GetOpenDigits(t)) * Elements(GetClosedDigits(t)) == {}
    ensures LexAscending(GetOpenDigits(t)) && LexAscending(GetClosedDigits(t))
  {
    StatusListFacts(t, true);
    StatusListFacts(t, false);
  }
}
