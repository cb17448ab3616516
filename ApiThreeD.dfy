/**
 * The player-facing 3D API controller: `submitBet` (validation, then
 * `play`, then a response chosen from what `play` gave back), the
 * `generatePermutations` endpoint, `getCurrentDrawInfo`, and the
 * one-session branch of `dailyWinners`.  `getBreakGroups` repeats the
 * admin controller's loops and is modelled by BreakGroups.GetBreakGroups.
 */
module ApiThreeD {
  import opened Options
  import opened Dates
  import opened Digits
  import opened DrawCalendar
  import opened Bets
  import opened Results
  import opened PlayService
  import opened DrawService
  import Settlement
  import Store

  // ---------------------------------------------------------------------
  // submitBet
  // ---------------------------------------------------------------------

  /** A JSON response of the controller: success, or an error title with its HTTP status. */
  datatype ApiReply = ApiSuccess | ApiError(title: string, status: int)

  function StatusOf(r: ApiReply): int {
    if r.ApiSuccess? then 200 else r.status
  }

  /** The message `play` throws, outside its own `try`, when the clock has passed 12:30 of the session. */
  const BettingClosedText: string := "Betting is currently closed for this draw session."

  /**
   * The validation of `submitBet`: `totalAmount` at least 0, `amounts` a
   * non-empty list whose numbers are exactly three digits and whose
   * amounts are at least 0.
   */
  predicate SubmitBetValid(req: Request) {
    req.total >= 0 && |req.lines| >= 1
    && forall i :: 0 <= i < |req.lines| ==> IsNumeral3(req.lines[i].num) && req.lines[i].amount >= 0
  }

  /** The `is_string($result)` branches: the reply text compared with four fixed messages. */
  function TextResponse(text: string): ApiReply {
    if text == InsufficientFundsText then ApiError("Insufficient Funds", 400)
    else if text == ResourceMissingText then ApiError("Configuration Error", 500)
    else if text == BettingClosedText then ApiError("Betting Closed", 401)
    else if text == SuccessText then ApiSuccess
    else ApiError("Betting Failed", 400)
  }

  /** The response to what `play` gave back; an exception from `play` is caught as a server error. */
  function OutcomeResponse(o: PlayOutcome): ApiReply {
    match o
    case Thrown(_) => ApiError("Server Error", 500)
    case Replied(r) => TextResponse(ReplyText(r))
    case OverLimit(digits) => if digits != [] then ApiError("Over Limit", 400) else ApiError("Betting Failed", 400)
  }

  /** No message `play` returns is the betting-closed text: that one is only ever thrown. */
  lemma NoReplyIsBettingClosed(r: Reply)
    ensures ReplyText(r) != BettingClosedText
  {
    if r.TotalMismatch? {
      assert ReplyText(r)[0] == MismatchPrefix[0];
    }
  }

  /**
   * The response for each outcome of `play`: placed is success, missing
   * funds 400, a missing limit 500, a mismatch or an exhausted slip
   * counter 400, a non-empty over-limit list 400 "Over Limit", and any
   * exception 500.  No outcome is answered with 401, so a closed session
   * is reported as a server error.
   */
  lemma OutcomeResponseTable(o: PlayOutcome)
    ensures o == Replied(Placed) <==> OutcomeResponse(o) == ApiSuccess
    ensures o == Replied(InsufficientFunds) ==> OutcomeResponse(o) == ApiError("Insufficient Funds", 400)
    ensures o == Replied(ResourceMissing) ==> OutcomeResponse(o) == ApiError("Configuration Error", 500)
    ensures o.Replied? && (o.reply.TotalMismatch? || o.reply.SlipNumberExhausted?) ==>
              OutcomeResponse(o) == ApiError("Betting Failed", 400)
    ensures o.OverLimit? && o.digits != [] ==> OutcomeResponse(o) == ApiError("Over Limit", 400)
    ensures o.Thrown? ==> OutcomeResponse(o) == ApiError("Server Error", 500)
    ensures StatusOf(OutcomeResponse(o)) != 401
  {
    if o.Replied? {
      NoReplyIsBettingClosed(o.reply);
      if o.reply.TotalMismatch? {
        assert |ReplyText(o.reply)| > |MismatchPrefix| > |ResourceMissingText| > |InsufficientFundsText| > |SuccessText|;
      }
    }
  }

  /** What `play` gives back, as a function of the tables it reads. */
  function PlayOutcomeOf(s: Snapshot, counter: Option<nat>, slips: seq<Store.Slip>,
                         player: Option<Player>, req: Request, now: Instant): PlayOutcome {
    match Admit(s, player, req, now)
    case Refused(o) => o
    case Admitted(_, _) =>
      if UniqueFrom(counter, SlipNos(slips), now, 0).slipNo.None? then Replied(SlipNumberExhausted)
      else Replied(Placed)
  }

  /** The response of `submitBet`: 401 unauthenticated, 422 invalid, else the response to `play`'s outcome. */
  function SubmitBetResponse(s: Snapshot, counter: Option<nat>, slips: seq<Store.Slip>,
                             player: Option<Player>, req: Request, now: Instant): ApiReply {
    if player.None? then ApiError("Authentication Required", 401)
    else if !SubmitBetValid(req) then ApiError("Validation Failed", 422)
    else OutcomeResponse(PlayOutcomeOf(s, counter, slips, player, req, now))
  }

  /**
   * `submitBet`: the controller's own checks, then `play`, whose outcome
   * is turned into a response.  A request refused before `play` changes
   * nothing.
   */
  method SubmitBet(db: Store.Tables, player: Option<Player>, req: Request, now: Instant, yangon: Instant)
    returns (reply: ApiReply)
    modifies db`balances, db`slips, db`bets, db`slipCounter
    ensures reply == SubmitBetResponse(old(SnapshotOf(db)), old(db.slipCounter), old(db.slips), player, req, now)
    ensures player.None? || !SubmitBetValid(req) ==> unchanged(db)
  {
    if player.None? {
      return ApiError("Authentication Required", 401);
    }
    if !SubmitBetValid(req) {
      return ApiError("Validation Failed", 422);
    }
    var outcome := Play(db, player, req, now, yangon);
    reply := OutcomeResponse(outcome);
  }

  /**
   * Only the controller's own authentication check answers 401: once the
   * player is authenticated the status is 200, 400, 422 or 500; a bet on a
   * session whose betting time is over gets 500.
   */
  lemma SubmitBetStatuses(s: Snapshot, counter: Option<nat>, slips: seq<Store.Slip>,
                          player: Option<Player>, req: Request, now: Instant)
    ensures var r := SubmitBetResponse(s, counter, slips, player, req, now);
            && (StatusOf(r) == 401 <==> player.None?)
            && StatusOf(r) in {200, 400, 401, 422, 500}
            && (player.Some? && SubmitBetValid(req) && !IsBettingOpen(req.session, now) ==> r == ApiError("Server Error", 500))
  {
    if player.Some? && SubmitBetValid(req) {
      OutcomeResponseTable(PlayOutcomeOf(s, counter, slips, player, req, now));
    }
  }

  // ---------------------------------------------------------------------
  // generatePermutations
  // ---------------------------------------------------------------------

  /** The endpoint's answer: a validation failure, or the number, its permutations and their count. */
  datatype PermutationReply = PermutationsInvalid | Permutations(originalNumber: string, permutations: seq<string>, count: nat)

  /** The answer for `number`. */
  function PermutationReplyOf(number: string): PermutationReply {
    if !IsNumeral3(number) then PermutationsInvalid
    else Permutations(number, PermutationList(number), |PermutationList(number)|)
  }

  /**
   * `generatePermutations`: the number must be three digits; its triple
   * loop is the one of `ThreeDBet::generatePermutations`, repeated in the
   * controller.
   */
  method GeneratePermutationsEndpoint(number: string) returns (reply: PermutationReply)
    ensures reply == PermutationReplyOf(number)
  {
    if !IsNumeral3(number) {
      return PermutationsInvalid;
    }
    var permutations := GeneratePermutations(number);
    reply := Permutations(number, permutations, |permutations|);
  }

  /**
   * For a valid number the endpoint lists distinct strings, the number
   * first, exactly the rearrangements of its digits, and counts them: 6, 3
   * or 1.
   */
  lemma PermutationReplyFacts(number: string, w: string)
    requires IsNumeral3(number)
    ensures var r := PermutationReplyOf(number);
            && r.Permutations? && r.originalNumber == number && r.count == |r.permutations|
            && r.permutations[0] == number
            && NoDuplicates(r.permutations)
            && (w in r.permutations <==> multiset(w) == multiset(number))
            && r.count in {1, 3, 6}
  {
    PermutationListFirst(number);
    PermutationListDistinct(number);
    PermutationsAreRearrangements(number, w);
    PermutationCount(number);
  }

  // ---------------------------------------------------------------------
  // getCurrentDrawInfo
  // ---------------------------------------------------------------------

  datatype DrawInfo = DrawInfo(currentSession: Option<Date>, nextSession: Option<Date>, lastSession: Option<Date>,
                               isBettingOpen: bool)

  /** The info for `now`: betting counts as open only on a draw day, before 12:30. */
  function DrawInfoAt(now: Instant): DrawInfo {
    var current := CurrentDrawSession(now);
    DrawInfo(current, NextDrawSession(now), LastDrawSession(now),
             if current.Some? then IsBettingOpen(current.value, now) else false)
  }

  /** `getCurrentDrawInfo`. */
  method GetCurrentDrawInfo(now: Instant) returns (info: DrawInfo)
    ensures info == DrawInfoAt(now)
  {
    var current := CurrentDrawSession(now);
    var next := GetNextDrawSession(now);
    var last := GetLastDrawSession(now);
    info := DrawInfo(current, next, last, if current.Some? then IsBettingOpen(current.value, now) else false);
  }

  /** `is_betting_open` holds exactly on a draw day before 12:30; never on another day. */
  lemma BettingOpenOnlyOnDrawDays(now: Instant)
    ensures DrawInfoAt(now).isBettingOpen <==> Scheduled(now.date) && SecondOfDay(now) < ClosingSecond
    ensures DrawInfoAt(now).currentSession.Some? <==> Scheduled(now.date)
  {
  }

  // ---------------------------------------------------------------------
  // dailyWinners, one session
  // ---------------------------------------------------------------------

  /** One row of the winners query: the number, its summed stake and the reported winnings. */
  datatype WinnerRow = WinnerRow(betNumber: string, totalBet: int, winAmount: int)

  /** The answer: 404 without a result, else the result and its winners. */
  datatype WinnersReply = NoResult | Winners(date: Date, drawSession: Date, winDigit: string, winners: seq<WinnerRow>)

  /** A row the query selects: the game date, the session, the win number itself, and marked won. */
  predicate ExactWinner(b: Bet, date: Date, session: Date, win: string) {
    b.gameDate == date && b.drawSession == session && b.betNumber == win && b.winLose
  }

  /** `SUM(bet_amount)` over the selected rows. */
  function WinnerStake(bets: seq<Bet>, date: Date, session: Date, win: string): int {
    if bets == [] then 0
    else
      WinnerStake(bets[..|bets| - 1], date, session, win)
      + (if ExactWinner(bets[|bets| - 1], date, session, win) then bets[|bets| - 1].betAmount else 0)
  }

  /** `SUM(potential_payout)` over the selected rows. */
  function WinnerPayouts(bets: seq<Bet>, date: Date, session: Date, win: string): int {
    if bets == [] then 0
    else
      WinnerPayouts(bets[..|bets| - 1], date, session, win)
      + (if ExactWinner(bets[|bets| - 1], date, session, win) then bets[|bets| - 1].potentialPayout else 0)
  }

  /** Whether any row is selected: grouping by `bet_number` yields one row then, none otherwise. */
  predicate AnyExactWinner(bets: seq<Bet>, date: Date, session: Date, win: string) {
    exists i :: 0 <= i < |bets| && ExactWinner(bets[i], date, session, win)
  }

  /** The API's report, as written: `win_amount` is the summed stake times 800. */
  function DailyWinners(results: ResultTable, bets: seq<Bet>, session: Date, date: Date): WinnersReply {
    if session !in results || results[session].winNumber == "" then NoResult
    else
      var win := results[session].winNumber;
      var stake := WinnerStake(bets, date, session, win);
      Winners(results[session].resultDate, session, win,
              if AnyExactWinner(bets, date, session, win) then [WinnerRow(win, stake, stake * 800)] else [])
  }

  /** The report with the amounts the settlement paid: `SUM(potential_payout)`, as the admin report sums. */
  function DailyWinnersPaid(results: ResultTable, bets: seq<Bet>, session: Date, date: Date): WinnersReply {
    if session !in results || results[session].winNumber == "" then NoResult
    else
      var win := results[session].winNumber;
      Winners(results[session].resultDate, session, win,
              if AnyExactWinner(bets, date, session, win)
              then [WinnerRow(win, WinnerStake(bets, date, session, win), WinnerPayouts(bets, date, session, win))]
              else [])
  }

  /** The rows a settlement leaves: every selected row carries 500 times its stake as payout. */
  lemma {:induction false} SettledPayoutsAre500(bets: seq<Bet>, date: Date, session: Date, win: string)
    requires forall i :: 0 <= i < |bets| ==> bets[i].drawSession != session || bets[i] == Settlement.SettledBet(bets[i], win)
    ensures WinnerPayouts(bets, date, session, win) == 500 * WinnerStake(bets, date, session, win)
  {
    if bets != [] {
      SettledPayoutsAre500(bets[..|bets| - 1], date, session, win);
      var b := bets[|bets| - 1];
      if ExactWinner(b, date, session, win) {
        assert b == Settlement.SettledBet(b, win);
        assert b.potentialPayout == Settlement.Prize(b, win) == 500 * b.betAmount;
      }
    }
  }

  /**
   * The paid report states what the settlement deposited: after a
   * declaration, the reported winnings are 500 times the winning stake.
   */
  lemma PaidReportMatchesSettlement(results: ResultTable, bets: seq<Bet>, session: Date, date: Date)
    requires session in results && results[session].winNumber != ""
    ensures var win := results[session].winNumber;
            var r := DailyWinnersPaid(results, Settlement.SettleBets(bets, session, win), session, date);
            r.Winners? && forall k :: 0 <= k < |r.winners| ==> r.winners[k].winAmount == 500 * r.winners[k].totalBet
  {
    var win := results[session].winNumber;
    var settled := Settlement.SettleBets(bets, session, win);
    forall i | 0 <= i < |settled| ensures settled[i].drawSession != session || settled[i] == Settlement.SettledBet(settled[i], win) {
      SettledTwiceSame(bets[i], win);
    }
    SettledPayoutsAre500(settled, date, session, win);
  }

  /** Settling a settled bet again changes nothing. */
  lemma SettledTwiceSame(b: Bet, win: string)
    ensures Settlement.SettledBet(Settlement.SettledBet(b, win), win) == Settlement.SettledBet(b, win)
  {
  }

  /**
   * The API's report claims more than was paid: one exact bet of 100 on
   * "123", settled, is reported with winnings 80000 while its deposit was
   * 50000.
   */
  lemma WinnersReportOverstates()
    ensures var session := Date(2025, 3, 1);
            var results := map[session := ResultRow("123", session, 0, Some(6), Completed)];
            var bet := Bet(7, None, "123", 100, Some(6), session, false, 0, false, None, false, session, 0, 1, 1000, 900);
            var settled := Settlement.SettleBets([bet], session, "123");
            && DailyWinners(results, settled, session, session) == Winners(session, session, "123", [WinnerRow("123", 100, 80000)])
            && DailyWinnersPaid(results, settled, session, session) == Winners(session, session, "123", [WinnerRow("123", 100, 50000)])
  {
    var session := Date(2025, 3, 1);
    var bet := Bet(7, None, "123", 100, Some(6), session, false, 0, false, None, false, session, 0, 1, 1000, 900);
    var settled := Settlement.SettleBets([bet], session, "123");
    assert settled[0] == Settlement.SettledBet(bet, "123");
    assert settled[..0] == [];
    assert ExactWinner(settled[0], session, session, "123");
  }
}
