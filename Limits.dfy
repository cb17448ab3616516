/**
 * The `three_d_limits` table (model ThreeDLimit).  Amounts are integer
 * cents (the columns are `decimal(…,2)`); the payout multiplier is a whole
 * number.
 */
module Limits {
  import opened Options

  datatype LimitRow = LimitRow(
    minBetAmount: int,
    maxBetAmount: int,
    maxTotalBet: int,
    payoutMultiplier: int,
    isActive: bool)

  /**
   * Position of the most recently created active row.  Rows are kept in
   * creation order, so `latest()` is the last active one.
   */
  function LatestActiveIndex(rows: seq<LimitRow>): (k: Option<nat>)
    ensures k.Some? ==> k.value < |rows| && rows[k.value].isActive
                        && forall j :: k.value < j < |rows| ==> !rows[j].isActive
    ensures k.None? ==> forall j :: 0 <= j < |rows| ==> !rows[j].isActive
  {
    if rows == [] then None
    else if rows[|rows| - 1].isActive then Some(|rows| - 1)
    else LatestActiveIndex(rows[..|rows| - 1])
  }

  /** `getActiveLimit`: the newest active row, or none when no row is active. */
  function GetActiveLimit(rows: seq<LimitRow>): (r: Option<LimitRow>)
    ensures r.Some? <==> exists j :: 0 <= j < |rows| && rows[j].isActive
    ensures r.Some? ==> exists k :: 0 <= k < |rows| && r.value == rows[k] && rows[k].isActive
                                    && forall j :: k < j < |rows| ==> !rows[j].isActive
  {
    var k := LatestActiveIndex(rows);
    if k.Some? then Some(rows[k.value]) else None
  }

  /** `isBetAmountValid`. */
  predicate IsBetAmountValid(limit: LimitRow, amount: int) {
    amount >= limit.minBetAmount && amount <= limit.maxBetAmount
  }

  /** `isBetAmountValid` accepts both bounds and nothing outside them. */
  lemma BetAmountBoundsInclusive(limit: LimitRow, amount: int)
    ensures IsBetAmountValid(limit, amount) <==> limit.minBetAmount <= amount <= limit.maxBetAmount
    ensures limit.minBetAmount <= limit.maxBetAmount ==>
              IsBetAmountValid(limit, limit.minBetAmount) && IsBetAmountValid(limit, limit.maxBetAmount)
  {
  }

  /** `isTotalBetValid`. */
  predicate IsTotalBetValid(limit: LimitRow, total: int) {
    total <= limit.maxTotalBet
  }

  /** Admission's global exposure test (`projected > max_total_bet`). */
  predicate ExceedsBreak(projected: int, breakAmount: int) {
    projected > breakAmount
  }

  /** `isTotalBetValid` is exactly the complement of the strict test admission uses. */
  lemma TotalBetValidIsComplement(limit: LimitRow, total: int)
    ensures IsTotalBetValid(limit, total) <==> !ExceedsBreak(total, limit.maxTotalBet)
  {
  }

  /** `calculatePayout`: the amount times the configured multiplier. */
  function CalculatePayout(limit: LimitRow, amount: int): int {
    amount * limit.payoutMultiplier
  }

  /** The payout of a split stake is the sum of the payouts of its parts. */
  lemma PayoutAdditive(limit: LimitRow, a: int, b: int)
    ensures CalculatePayout(limit, a + b) == CalculatePayout(limit, a) + CalculatePayout(limit, b)
  {
  }
}
