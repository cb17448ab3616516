/**
 * Declaring a 3D result (`ThreeDigitController::storeThreeDResult`): the
 * result row is created, every bet of the session is settled (500 times
 * the stake for the exact number, 100 times for another arrangement of its
 * digits, nothing otherwise), each prize is deposited to its player, the
 * session's slips are completed and the result row ends completed.  The
 * whole declaration is one transaction: a duplicate result or a refused
 * deposit leaves every table as it was.
 */
module Settlement {
  import opened Options
  import opened Dates
  import opened Digits
  import opened Wallets
  import opened Bets
  import opened Results
  import Store

  const ExactMultiplier: int := 500
  const PermutationMultiplier: int := 100

  /**
   * The prize of one bet: 500 times the stake when its number is the win
   * number, else 100 times the stake when the win number is among the
   * bet number's permutations, else 0.
   */
  function Prize(bet: Bet, winNumber: string): int {
    if bet.betNumber == winNumber then bet.betAmount * ExactMultiplier
    else if winNumber in PermutationList(bet.betNumber) then bet.betAmount * PermutationMultiplier
    else 0
  }

  /** A bet once settled: a positive prize makes it a paid winner, anything else a loser; either way it is settled with the win number. */
  function SettledBet(bet: Bet, winNumber: string): Bet {
    var prize := Prize(bet, winNumber);
    if prize > 0 then
      bet.(winLose := true, potentialPayout := prize, prizeSent := true, betStatus := true, betResult := Some(winNumber))
    else
      bet.(winLose := false, potentialPayout := 0, prizeSent := false, betStatus := true, betResult := Some(winNumber))
  }

  /** A bet after the declaration: settled when it belongs to the session, untouched otherwise. */
  function SettleAt(bet: Bet, session: Date, winNumber: string): Bet {
    if bet.drawSession == session then SettledBet(bet, winNumber) else bet
  }

  /** The bet table after the declaration. */
  function SettleBets(bets: seq<Bet>, session: Date, winNumber: string): (r: seq<Bet>)
    ensures |r| == |bets|
    ensures forall k :: 0 <= k < |bets| ==> r[k] == SettleAt(bets[k], session, winNumber)
  {
    seq(|bets|, k requires 0 <= k < |bets| => SettleAt(bets[k], session, winNumber))
  }

  /** A bet whose prize is deposited: of the session, with a positive prize, and of a user that exists. */
  predicate Credited(bet: Bet, session: Date, winNumber: string, users: set<UserId>) {
    bet.drawSession == session && Prize(bet, winNumber) > 0 && bet.userId in users
  }

  /** The deposit for one bet, if it gets one. */
  function Credit(balances: Balances, bet: Bet, session: Date, winNumber: string, users: set<UserId>): Balances {
    if Credited(bet, session, winNumber, users) then Deposit(balances, bet.userId, Prize(bet, winNumber)) else balances
  }

  /** The balances after the deposits for `bets`, in table order. */
  function Credits(bets: seq<Bet>, session: Date, winNumber: string, users: set<UserId>, balances: Balances): Balances
    decreases |bets|
  {
    if bets == [] then balances
    else Credit(Credits(bets[..|bets| - 1], session, winNumber, users, balances), bets[|bets| - 1], session, winNumber, users)
  }

  /** Some deposit of the declaration is refused by the wallet (the users in `refused`). */
  predicate DepositRefused(bets: seq<Bet>, session: Date, winNumber: string, users: set<UserId>, refused: set<UserId>) {
    exists k :: 0 <= k < |bets| && Credited(bets[k], session, winNumber, users) && bets[k].userId in refused
  }

  /** The prize computation of the loop body, calling `generatePermutations` only for a bet that is not an exact match. */
  method SettlePrize(bet: Bet, winNumber: string) returns (totalPrize: int)
    ensures totalPrize == Prize(bet, winNumber)
  {
    totalPrize := 0;
    var isExactWinner := bet.betNumber == winNumber;
    if isExactWinner {
      totalPrize := totalPrize + bet.betAmount * ExactMultiplier;
    } else {
      var permutations := GeneratePermutations(bet.betNumber);
      if winNumber in permutations {
        totalPrize := totalPrize + bet.betAmount * PermutationMultiplier;
      }
    }
  }

  /** One more bet adds its deposit, if any. */
  lemma CreditsStep(bets: seq<Bet>, i: nat, session: Date, winNumber: string, users: set<UserId>, balances: Balances)
    requires i < |bets|
    ensures Credits(bets[..i + 1], session, winNumber, users, balances)
         == Credit(Credits(bets[..i], session, winNumber, users, balances), bets[i], session, winNumber, users)
  {
    assert bets[..i + 1][..i] == bets[..i];
  }

  /** The loop body for bet `i`: settle it in place and deposit its prize. */
  method SettleOne(db: Store.Tables, i: nat, session: Date, winNumber: string) returns (bet: Bet)
    requires i < |db.bets|
    requires db.bets[i].drawSession == session
    ensures bet == SettledBet(db.bets[i], winNumber)
  {
    bet := db.bets[i];
    var totalPrize := SettlePrize(bet, winNumber);
    if totalPrize > 0 {
      bet := bet.(winLose := true, potentialPayout := totalPrize, prizeSent := true);
    } else {
      bet := bet.(winLose := false, potentialPayout := 0, prizeSent := false);
    }
    bet := bet.(betStatus := true, betResult := Some(winNumber));
  }

  /** The bets settled so far: those before `i` as `SettleAt` makes them, the rest as they were. */
  ghost predicate SettledUpTo(now: seq<Bet>, before: seq<Bet>, i: nat, session: Date, winNumber: string) {
    |now| == |before|
    && forall k :: 0 <= k < |before| ==> now[k] == if k < i then SettleAt(before[k], session, winNumber) else before[k]
  }

  /** Settling bet `i` in place extends the settled prefix by one. */
  lemma SettledUpToStep(now: seq<Bet>, before: seq<Bet>, i: nat, session: Date, winNumber: string)
    requires i < |before| && SettledUpTo(now, before, i, session, winNumber)
    ensures SettledUpTo(now[i := SettleAt(before[i], session, winNumber)], before, i + 1, session, winNumber)
    ensures before[i].drawSession != session ==> SettledUpTo(now, before, i + 1, session, winNumber)
  {
  }

  /**
   * The `foreach` over the session's bets: each is settled in place and
   * its prize deposited when its user exists; a refused deposit stops the
   * loop (the caller rolls back).
   */
  method SettleSessionBets(db: Store.Tables, session: Date, winNumber: string, refused: set<UserId>) returns (ok: bool)
    modifies db`bets, db`balances
    ensures ok <==> !DepositRefused(old(db.bets), session, winNumber, db.users, refused)
    ensures ok ==> db.bets == SettleBets(old(db.bets), session, winNumber)
                   && db.balances == Credits(old(db.bets), session, winNumber, db.users, old(db.balances))
  {
    ghost var bets0 := db.bets;
    ghost var balances0 := db.balances;
    for i := 0 to |db.bets|
      invariant SettledUpTo(db.bets, bets0, i, session, winNumber)
      invariant db.balances == Credits(bets0[..i], session, winNumber, db.users, balances0)
      invariant forall k :: 0 <= k < i ==> !(Credited(bets0[k], session, winNumber, db.users) && bets0[k].userId in refused)
    {
      CreditsStep(bets0, i, session, winNumber, db.users, balances0);
      assert db.bets[i] == bets0[i];
      if db.bets[i].drawSession == session {
        var bet := SettleOne(db, i, session, winNumber);
        if bet.winLose && db.bets[i].userId in db.users {
          if db.bets[i].userId in refused {
            assert Credited(bets0[i], session, winNumber, db.users) && bets0[i].userId in refused;
            return false;
          }
          db.balances := Deposit(db.balances, db.bets[i].userId, bet.potentialPayout);
        }
        SettledUpToStep(db.bets, bets0, i, session, winNumber);
        db.bets := db.bets[i := bet];
      } else {
        SettledUpToStep(db.bets, bets0, i, session, winNumber);
      }
    }
    assert bets0[..|bets0|] == bets0;
    ok := true;
  }

  /** `ThreeDBetSlip::where('draw_session', …)->update(['status' => 'completed'])`. */
  function CompleteSlips(slips: seq<Store.Slip>, session: Date): (r: seq<Store.Slip>)
    ensures |r| == |slips|
  {
    seq(|slips|, k requires 0 <= k < |slips| =>
      if slips[k].drawSession == session then slips[k].(status := Store.SlipCompleted) else slips[k])
  }

  /** The result row at the end of a declaration: the `creating` hook's break group, status completed. */
  function CompletedRow(winNumber: string, resultDate: Date, resultTime: nat): ResultRow {
    ResultRow(winNumber, resultDate, resultTime, Some(Results.CalculateBreakGroup(winNumber)), Completed)
  }

  /** How a declaration ends: settled, or refused by validation, the duplicate guard or a deposit (rolled back). */
  datatype SettleOutcome = Settled | InvalidWinNumber | DuplicateResult | DepositFailed

  /** `storeThreeDResult`. */
  method StoreThreeDResult(db: Store.Tables, winNumber: string, session: Date, resultDate: Date, resultTime: nat,
                           refused: set<UserId>)
    returns (outcome: SettleOutcome)
    modifies db`results, db`bets, db`balances, db`slips
    ensures !IsNumeral3(winNumber) ==> outcome == InvalidWinNumber && unchanged(db)
    ensures IsNumeral3(winNumber) && session in old(db.results) ==> outcome == DuplicateResult && unchanged(db)
    ensures IsNumeral3(winNumber) && session !in old(db.results)
            && DepositRefused(old(db.bets), session, winNumber, db.users, refused) ==>
              outcome == DepositFailed && unchanged(db)
    ensures IsNumeral3(winNumber) && session !in old(db.results)
            && !DepositRefused(old(db.bets), session, winNumber, db.users, refused) ==>
              && outcome == Settled
              && db.results == old(db.results)[session := CompletedRow(winNumber, resultDate, resultTime)]
              && db.bets == SettleBets(old(db.bets), session, winNumber)
              && db.balances == Credits(old(db.bets), session, winNumber, db.users, old(db.balances))
              && db.slips == CompleteSlips(old(db.slips), session)
  {
    if !IsNumeral3(winNumber) {
      return InvalidWinNumber;
    }
    if session in db.results {
      return DuplicateResult;
    }
    var results0, bets0, balances0 := db.results, db.bets, db.balances;
    var threeDResult := Results.Creating(ResultRow(winNumber, resultDate, resultTime, None, Declared));
    db.results := db.results[session := threeDResult];
    var ok := SettleSessionBets(db, session, winNumber, refused);
    if !ok {
      db.results, db.bets, db.balances := results0, bets0, balances0;  // the transaction rolls back
      return DepositFailed;
    }
    db.slips := CompleteSlips(db.slips, session);
    db.results := db.results[session := threeDResult.(status := Completed)];
    return Settled;
  }

  // ---------------------------------------------------------------------
  // Properties of a declaration
  // ---------------------------------------------------------------------

  /**
   * The prize rule for a three-digit bet: 500 times the stake for the
   * exact number; otherwise 100 times the stake exactly when the win
   * number has the same digits in another order; otherwise nothing.
   */
  lemma PrizeRule(bet: Bet, winNumber: string)
    requires |bet.betNumber| == 3
    ensures bet.betNumber == winNumber ==> Prize(bet, winNumber) == 500 * bet.betAmount
    ensures bet.betNumber != winNumber ==>
              Prize(bet, winNumber) == if multiset(winNumber) == multiset(bet.betNumber) then 100 * bet.betAmount else 0
  {
    PermutationsAreRearrangements(bet.betNumber, winNumber);
  }

  /**
   * After the declaration every bet of the session is settled with the
   * win number: a winner carries its prize as payout and is marked won
   * and paid (whether or not its user exists), a loser carries 0 and is
   * marked neither; bets of other sessions are untouched.
   */
  lemma SettledBetsFacts(bets: seq<Bet>, session: Date, winNumber: string, k: nat)
    requires k < |bets|
    ensures var b := SettleBets(bets, session, winNumber)[k];
            var prize := Prize(bets[k], winNumber);
            && (bets[k].drawSession == session ==>
                  && b.betStatus && b.betResult == Some(winNumber)
                  && (prize > 0 ==> b.winLose && b.prizeSent && b.potentialPayout == prize)
                  && (prize <= 0 ==> !b.winLose && !b.prizeSent && b.potentialPayout == 0)
                  && b.(winLose := bets[k].winLose, potentialPayout := bets[k].potentialPayout, prizeSent := bets[k].prizeSent,
                        betStatus := bets[k].betStatus, betResult := bets[k].betResult) == bets[k])
            && (bets[k].drawSession != session ==> b == bets[k])
  {
  }

  /** The total prize of `u`'s credited bets. */
  function PrizesOf(bets: seq<Bet>, session: Date, winNumber: string, u: UserId): int
    decreases |bets|
  {
    if bets == [] then 0
    else
      var last := bets[|bets| - 1];
      PrizesOf(bets[..|bets| - 1], session, winNumber, u)
      + (if last.drawSession == session && last.userId == u && Prize(last, winNumber) > 0 then Prize(last, winNumber) else 0)
  }

  /** Each existing user gains exactly the prizes of their winning bets of the session; nobody else's balance moves. */
  lemma {:induction false} CreditsBalance(bets: seq<Bet>, session: Date, winNumber: string, users: set<UserId>,
                                          balances: Balances, u: UserId)
    ensures Balance(Credits(bets, session, winNumber, users, balances), u)
         == Balance(balances, u) + (if u in users then PrizesOf(bets, session, winNumber, u) else 0)
    decreases |bets|
  {
    if bets != [] {
      CreditsBalance(bets[..|bets| - 1], session, winNumber, users, balances, u);
    }
  }

  /** Every slip of the session ends completed; other slips are untouched. */
  lemma CompleteSlipsFacts(slips: seq<Store.Slip>, session: Date, k: nat)
    requires k < |slips|
    ensures slips[k].drawSession == session ==> CompleteSlips(slips, session)[k] == slips[k].(status := Store.SlipCompleted)
    ensures slips[k].drawSession != session ==> CompleteSlips(slips, session)[k] == slips[k]
  {
  }

  /** The stored `potential_payout` of an exact winner is overwritten by 500 times its stake, whatever multiplier placed it. */
  lemma ExactWinnerPayoutOverwritten(bet: Bet, session: Date, winNumber: string)
    requires bet.drawSession == session && bet.betNumber == winNumber && bet.betAmount > 0
    ensures SettleAt(bet, session, winNumber).potentialPayout == 500 * bet.betAmount
    ensures SettleAt(bet, session, winNumber).winLose
  {
  }

  /** A bet of 0 on the win number wins no prize and is recorded as lost. */
  lemma ZeroStakeExactBetLoses(bet: Bet, session: Date, winNumber: string)
    requires bet.drawSession == session && bet.betNumber == winNumber && bet.betAmount == 0
    ensures !SettleAt(bet, session, winNumber).winLose && !SettleAt(bet, session, winNumber).prizeSent
  {
  }

  /** The completed row carries the win number's digit sum as break group. */
  lemma CompletedRowBreakGroup(winNumber: string, resultDate: Date, resultTime: nat)
    requires IsNumeral3(winNumber)
    ensures CompletedRow(winNumber, resultDate, resultTime).breakGroup.value <= 27
    ensures CompletedRow(winNumber, resultDate, resultTime).status == Completed
  {
    Results.BreakGroupRange(winNumber);
  }
}
