/**
 * Wager admission (ThreeDPlayService): `play` checks a batch of bet lines
 * against the clock, the session registry, the declared total, the active
 * limit, the player's balance and the per-number limits, and on success
 * withdraws the total once, stores one pending slip under a fresh slip
 * number and one bet per line.  A refused batch leaves every table as it
 * was (the transaction is rolled back, or nothing had been written yet).
 */
module PlayService {
  import opened Options
  import opened Text
  import opened Dates
  import opened Digits
  import opened Wallets
  import opened DrawCalendar
  import opened DrawSessionModel
  import opened Limits
  import opened CloseDigits
  import opened Bets
  import Store

  /** One entry of `$amounts`: the number as sent and its stake in cents. */
  datatype Line = Line(num: string, amount: int)

  /** The authenticated user as `play` uses it: id, agent and the personal 3D limit `limit3`. */
  datatype Player = Player(id: UserId, agentId: Option<UserId>, personalLimit: Option<int>)

  /** The arguments of `play`. */
  datatype Request = Request(total: int, lines: seq<Line>, session: Date)

  /** The exceptions `play` raises before its `try`, so that its own `catch` never sees them. */
  datatype PlayError = NotAuthenticated | BettingClosed | SessionClosed

  /** The strings `play` returns. */
  datatype Reply =
    | Placed
    | TotalMismatch(total: int, sum: int)
    | ResourceMissing
    | InsufficientFunds
    | SlipNumberExhausted

  /** What a call of `play` ends with: an escaping exception, a string, or the over-limit numbers. */
  datatype PlayOutcome = Thrown(error: PlayError) | Replied(reply: Reply) | OverLimit(digits: seq<string>)

  const SuccessText: string := "Bet placed successfully."
  const ResourceMissingText: string := "Required resource (e.g., 3D Limit) not found."
  const InsufficientFundsText: string := "Insufficient funds in your main balance."
  const SlipNumberExhaustedText: string := "Could not generate a unique slip number. Please try again."
  const MismatchPrefix: string := "Total bet amount mismatch! You sent totalAmount: "

  /** The text of a returned string (amounts of the mismatch message printed in cents, without the details list). */
  function ReplyText(r: Reply): (text: string)
    ensures r.TotalMismatch? ==> |text| > |MismatchPrefix| && text[..|MismatchPrefix|] == MismatchPrefix
  {
    match r
    case Placed => SuccessText
    case TotalMismatch(total, sum) =>
      MismatchPrefix + IntText(total) + ", but the sum of individual amounts is: " + IntText(sum) + "."
    case ResourceMissing => ResourceMissingText
    case InsufficientFunds => InsufficientFundsText
    case SlipNumberExhausted => SlipNumberExhaustedText
  }

  // ---------------------------------------------------------------------
  // checkAllLimits
  // ---------------------------------------------------------------------

  /**
   * What `checkAllLimits` compares against: the closed numbers, the stored
   * bets, the player, the game date and session it filters by, the break
   * amount (`max_total_bet`) and the personal limit.
   */
  datatype Exposure = Exposure(
    closed: set<string>,
    bets: seq<Bet>,
    userId: UserId,
    gameDate: Date,
    session: Date,
    breakAmount: int,
    personalLimit: Option<int>)

  /** The closed numbers: the rows with status false, padded to three characters. */
  function ClosedNumbers(t: DigitTable): (r: set<string>)
    ensures forall k :: k in t && !t[k] ==> Pad3(k) in r
    ensures forall d :: d in r ==> exists k :: k in t && !t[k] && Pad3(k) == d
  {
    set k | k in t && !t[k] :: Pad3(k)
  }

  /** A stored bet the exposure queries add up: same game date, session and number, and the user when one is given. */
  predicate Counts(b: Bet, user: Option<UserId>, gameDate: Date, session: Date, number: string) {
    b.gameDate == gameDate && b.drawSession == session && b.betNumber == number
    && (user.None? || b.userId == user.value)
  }

  /** `sum('bet_amount')` over the stored bets that count. */
  function StakeOn(bets: seq<Bet>, user: Option<UserId>, gameDate: Date, session: Date, number: string): int
    decreases |bets|
  {
    if bets == [] then 0
    else
      var last := bets[|bets| - 1];
      StakeOn(bets[..|bets| - 1], user, gameDate, session, number)
      + (if Counts(last, user, gameDate, session, number) then last.betAmount else 0)
  }

  /**
   * The three tests of `checkAllLimits` for one line: its padded number is
   * closed, or the stored stake on it plus this amount exceeds the break
   * amount, or a personal limit is set and the player's stored stake on it
   * plus this amount exceeds that limit.
   */
  predicate Flagged(line: Line, e: Exposure) {
    var d := Pad3(line.num);
    d in e.closed
    || StakeOn(e.bets, None, e.gameDate, e.session, d) + line.amount > e.breakAmount
    || (e.personalLimit.Some?
        && StakeOn(e.bets, Some(e.userId), e.gameDate, e.session, d) + line.amount > e.personalLimit.value)
  }

  /** The padded numbers of the flagged lines, in line order. */
  function OverLimitDigits(lines: seq<Line>, e: Exposure): seq<string>
    decreases |lines|
  {
    if lines == [] then []
    else
      var last := lines[|lines| - 1];
      OverLimitDigits(lines[..|lines| - 1], e) + (if Flagged(last, e) then [Pad3(last.num)] else [])
  }

  /** One more line adds its padded number exactly when it is flagged. */
  lemma OverLimitStep(lines: seq<Line>, i: nat, e: Exposure)
    requires i < |lines|
    ensures OverLimitDigits(lines[..i + 1], e)
         == OverLimitDigits(lines[..i], e) + (if Flagged(lines[i], e) then [Pad3(lines[i].num)] else [])
  {
    assert lines[..i + 1][..i] == lines[..i];
  }

  /**
   * `checkAllLimits`: every line is checked in order against the stored
   * bets only, and the padded number of each flagged line is listed.
   */
  method CheckAllLimits(db: Store.Tables, lines: seq<Line>, session: Date, gameDate: Date,
                        breakAmount: int, userId: UserId, personalLimit: Option<int>)
    returns (overLimitDigits: seq<string>)
    ensures overLimitDigits
         == OverLimitDigits(lines, Exposure(ClosedNumbers(db.closeDigits), db.bets, userId, gameDate, session, breakAmount, personalLimit))
  {
    var closedThreeDigits := ClosedNumbers(db.closeDigits);
    ghost var e := Exposure(closedThreeDigits, db.bets, userId, gameDate, session, breakAmount, personalLimit);
    overLimitDigits := [];
    for i := 0 to |lines|
      invariant overLimitDigits == OverLimitDigits(lines[..i], e)
    {
      OverLimitStep(lines, i, e);
      var threeDigit := Pad3(lines[i].num);
      var subAmount := lines[i].amount;
      if threeDigit in closedThreeDigits {
        overLimitDigits := overLimitDigits + [threeDigit];
        continue;
      }
      var projectedTotalBetAmount := StakeOn(db.bets, None, gameDate, session, threeDigit) + subAmount;
      if projectedTotalBetAmount > breakAmount {
        overLimitDigits := overLimitDigits + [threeDigit];
        continue;
      }
      var projectedUserBetAmount := StakeOn(db.bets, Some(userId), gameDate, session, threeDigit) + subAmount;
      if personalLimit.Some? && projectedUserBetAmount > personalLimit.value {
        overLimitDigits := overLimitDigits + [threeDigit];
      }
    }
    assert lines[..|lines|] == lines;
  }

  /** The list of a batch is the lists of its parts joined: a line is never compared with the other lines of its batch. */
  lemma {:induction false} OverLimitLinewise(a: seq<Line>, b: seq<Line>, e: Exposure)
    ensures OverLimitDigits(a + b, e) == OverLimitDigits(a, e) + OverLimitDigits(b, e)
    decreases |b|
  {
    if b == [] {
      assert a + b == a;
    } else {
      var b' := b[..|b| - 1];
      assert (a + b)[..|a + b| - 1] == a + b';
      OverLimitLinewise(a, b', e);
    }
  }

  /** Line `line` is flagged and is for number `d`. */
  predicate FlaggedAs(line: Line, e: Exposure, d: string) {
    Flagged(line, e) && Pad3(line.num) == d
  }

  /** A listed number comes from a flagged line with that number. */
  lemma {:induction false} OverLimitWitness(lines: seq<Line>, e: Exposure, d: string) returns (i: nat)
    requires d in OverLimitDigits(lines, e)
    ensures i < |lines| && FlaggedAs(lines[i], e, d)
    decreases |lines|
  {
    var init := lines[..|lines| - 1];
    var last := lines[|lines| - 1];
    assert OverLimitDigits(lines, e) == OverLimitDigits(init, e) + (if Flagged(last, e) then [Pad3(last.num)] else []);
    if d in OverLimitDigits(init, e) {
      i := OverLimitWitness(init, e, d);
      assert lines[i] == init[i];
    } else {
      i := |lines| - 1;
    }
  }

  /** A flagged line's number is listed. */
  lemma {:induction false} OverLimitListed(lines: seq<Line>, e: Exposure, i: nat)
    requires i < |lines| && Flagged(lines[i], e)
    ensures Pad3(lines[i].num) in OverLimitDigits(lines, e)
    decreases |lines|
  {
    var init := lines[..|lines| - 1];
    var last := lines[|lines| - 1];
    assert OverLimitDigits(lines, e) == OverLimitDigits(init, e) + (if Flagged(last, e) then [Pad3(last.num)] else []);
    if i < |init| {
      assert init[i] == lines[i];
      OverLimitListed(init, e, i);
    }
  }

  /** A number is listed exactly when some line with that padded number is flagged. */
  lemma OverLimitMembers(lines: seq<Line>, e: Exposure, d: string)
    ensures d in OverLimitDigits(lines, e) <==> exists i :: 0 <= i < |lines| && FlaggedAs(lines[i], e, d)
  {
    if d in OverLimitDigits(lines, e) {
      var i := OverLimitWitness(lines, e, d);
    }
    if exists i :: 0 <= i < |lines| && FlaggedAs(lines[i], e, d) {
      var i :| 0 <= i < |lines| && FlaggedAs(lines[i], e, d);
      OverLimitListed(lines, e, i);
    }
  }

  /** The list is empty exactly when no line is flagged. */
  lemma {:induction false} OverLimitEmpty(lines: seq<Line>, e: Exposure)
    ensures OverLimitDigits(lines, e) == [] <==> forall i :: 0 <= i < |lines| ==> !Flagged(lines[i], e)
    decreases |lines|
  {
    if lines != [] {
      var init := lines[..|lines| - 1];
      OverLimitEmpty(init, e);
      assert forall i :: 0 <= i < |init| ==> init[i] == lines[i];
    }
  }

  /** The comparisons are strict: a stake that reaches the break amount exactly is still accepted. */
  lemma BreakAmountReachable(line: Line, e: Exposure)
    requires Pad3(line.num) !in e.closed && e.personalLimit.None?
    requires StakeOn(e.bets, None, e.gameDate, e.session, Pad3(line.num)) + line.amount == e.breakAmount
    ensures !Flagged(line, e)
  {
  }

  /** With no stored bets, two lines of 60 on "123" against a break amount of 100 both pass although together they exceed it. */
  lemma RepeatedNumbersNotSummed(e: Exposure)
    requires e.closed == {} && e.bets == [] && e.breakAmount == 100 && e.personalLimit.None?
    ensures OverLimitDigits([Line("123", 60), Line("123", 60)], e) == []
  {
    var lines := [Line("123", 60), Line("123", 60)];
    assert lines[..1] == [Line("123", 60)];
    assert lines[..1][..0] == [];
  }

  /** Against a break amount of 50 the same batch lists "123" twice. */
  lemma RepeatedNumberListedTwice(e: Exposure)
    requires e.closed == {} && e.bets == [] && e.breakAmount == 50 && e.personalLimit.None?
    ensures OverLimitDigits([Line("123", 60), Line("123", 60)], e) == ["123", "123"]
  {
    var lines := [Line("123", 60), Line("123", 60)];
    assert lines[..1] == [Line("123", 60)];
    assert lines[..1][..0] == [];
  }

  // ---------------------------------------------------------------------
  // Slip numbers
  // ---------------------------------------------------------------------

  /** `generateUniqueSlipNumber`'s `$maxRetries`. */
  const MaxRetries: nat := 20

  /** `format('Y-m-d')`. */
  function FormatDate(t: Instant): string {
    ZeroPadded(t.date.year, 4) + "-" + ZeroPadded(t.date.month, 2) + "-" + ZeroPadded(t.date.day, 2)
  }

  /** `format('H:i:s')`. */
  function FormatTime(t: Instant): string {
    ZeroPadded(t.hour, 2) + ":" + ZeroPadded(t.minute, 2) + ":" + ZeroPadded(t.second, 2)
  }

  /** `"{$paddedCounter}-mk-3d-{$currentDate}-{$currentTime}"`. */
  function SlipNumberText(n: nat, now: Instant): string {
    ZeroPadded(n, 6) + "-mk-3d-" + FormatDate(now) + "-" + FormatTime(now)
  }

  /** One use of the counter row: what it holds afterwards and the number issued. */
  datatype CounterUse = CounterUse(stored: nat, issued: nat)

  /**
   * `generateBaseSlipNumberWithCounter`'s counter logic: a missing row is
   * created holding 0 and 1 is issued; an existing row is incremented and
   * its new value issued.
   */
  function CounterStep(counter: Option<nat>): CounterUse {
    if counter.None? then CounterUse(0, 1) else CounterUse(counter.value + 1, counter.value + 1)
  }

  /** `generateBaseSlipNumberWithCounter`: advances the counter row and returns the slip number built from it. */
  method GenerateBaseSlipNumberWithCounter(db: Store.Tables, now: Instant) returns (slipNo: string)
    modifies db`slipCounter
    ensures db.slipCounter == Some(CounterStep(old(db.slipCounter)).stored)
    ensures slipNo == SlipNumberText(CounterStep(old(db.slipCounter)).issued, now)
  {
    var newNumber;
    if db.slipCounter.None? {
      db.slipCounter := Some(0);
      newNumber := 1;
    } else {
      newNumber := db.slipCounter.value + 1;
      db.slipCounter := Some(newNumber);
    }
    var paddedCounter := ZeroPadded(newNumber, 6);
    slipNo := paddedCounter + "-mk-3d-" + FormatDate(now) + "-" + FormatTime(now);
  }

  /** The row ends holding the issued number exactly when it already existed; a creation stores one less. */
  lemma CounterStoresIssued(counter: Option<nat>)
    ensures CounterStep(counter).stored == CounterStep(counter).issued <==> counter.Some?
    ensures counter.None? ==> CounterStep(counter).issued == CounterStep(counter).stored + 1
  {
  }

  /** Right after the row is created, the next use issues 1 again: the first two slip numbers share their counter. */
  lemma FirstNumberIssuedTwice()
    ensures CounterStep(None).issued == 1
    ensures CounterStep(Some(CounterStep(None).stored)).issued == 1
  {
  }

  /** The counter row after `k` uses. */
  function CounterAfter(counter: Option<nat>, k: nat): Option<nat> {
    if k == 0 then counter else Some(CounterStep(CounterAfter(counter, k - 1)).stored)
  }

  /** The slip number tried at attempt `k` (from 0). */
  function Candidate(counter: Option<nat>, now: Instant, k: nat): string {
    SlipNumberText(CounterStep(CounterAfter(counter, k)).issued, now)
  }

  /** The counter after `k` uses: `c + k` from an existing row, otherwise `k - 1` once the row is created. */
  lemma {:induction false} CounterAfterValue(counter: Option<nat>, k: nat)
    ensures counter.Some? ==> CounterAfter(counter, k) == Some(counter.value + k)
    ensures counter.None? && k > 0 ==> CounterAfter(counter, k) == Some(k - 1)
  {
    if k > 0 {
      CounterAfterValue(counter, k - 1);
    }
  }

  /** The slip numbers `play` must avoid: those of the stored slips. */
  function SlipNos(slips: seq<Store.Slip>): set<string> {
    set i | 0 <= i < |slips| :: slips[i].slipNo
  }

  /** The result of the retry loop: the slip number, if one was found, and the counter row afterwards. */
  datatype SlipDraw = SlipDraw(slipNo: Option<string>, counter: Option<nat>)

  /** The retry loop from attempt `attempt` on, with the counter row at `counter`. */
  function UniqueFrom(counter: Option<nat>, taken: set<string>, now: Instant, attempt: nat): SlipDraw
    requires attempt < MaxRetries
    decreases MaxRetries - attempt
  {
    var use := CounterStep(counter);
    var slipNo := SlipNumberText(use.issued, now);
    if slipNo !in taken then SlipDraw(Some(slipNo), Some(use.stored))
    else if attempt + 1 >= MaxRetries then SlipDraw(None, Some(use.stored))
    else UniqueFrom(Some(use.stored), taken, now, attempt + 1)
  }

  /**
   * `generateUniqueSlipNumber`: up to 20 attempts, each advancing the
   * counter; the first number not already on a slip is returned, and none
   * after 20 collisions.
   */
  method GenerateUniqueSlipNumber(db: Store.Tables, now: Instant) returns (slipNo: Option<string>)
    modifies db`slipCounter
    ensures SlipDraw(slipNo, db.slipCounter) == UniqueFrom(old(db.slipCounter), SlipNos(db.slips), now, 0)
  {
    var taken := SlipNos(db.slips);
    var attempt := 0;
    while true
      invariant attempt < MaxRetries
      invariant UniqueFrom(db.slipCounter, taken, now, attempt) == UniqueFrom(old(db.slipCounter), taken, now, 0)
      decreases MaxRetries - attempt
    {
      ghost var target := UniqueFrom(db.slipCounter, taken, now, attempt);
      attempt := attempt + 1;
      var candidate := GenerateBaseSlipNumberWithCounter(db, now);
      var collides := candidate in taken;
      if !collides {
        return Some(candidate);
      }
      if attempt >= MaxRetries {
        return None;
      }
      assert target == UniqueFrom(db.slipCounter, taken, now, attempt);
    }
  }

  /** Attempt `a` of the loop, with the counter where the earlier attempts left it, tries `Candidate(counter, now, a)`. */
  lemma UniqueFromUnfold(counter: Option<nat>, taken: set<string>, now: Instant, a: nat)
    requires a < MaxRetries
    ensures var r := UniqueFrom(CounterAfter(counter, a), taken, now, a);
            var cand := Candidate(counter, now, a);
            && (cand !in taken ==> r.slipNo == Some(cand))
            && (cand in taken && a + 1 >= MaxRetries ==> r.slipNo.None?)
            && (cand in taken && a + 1 < MaxRetries ==> r == UniqueFrom(CounterAfter(counter, a + 1), taken, now, a + 1))
  {
    assert CounterAfter(counter, a + 1) == Some(CounterStep(CounterAfter(counter, a)).stored);
  }

  /** From attempt `a` on, no number is found exactly when attempts `a` to 19 all collide. */
  lemma {:induction false} UniqueFromNone(counter: Option<nat>, taken: set<string>, now: Instant, a: nat)
    requires a < MaxRetries
    ensures UniqueFrom(CounterAfter(counter, a), taken, now, a).slipNo.None?
            <==> forall k :: a <= k < MaxRetries ==> Candidate(counter, now, k) in taken
    decreases MaxRetries - a
  {
    UniqueFromUnfold(counter, taken, now, a);
    if Candidate(counter, now, a) in taken && a + 1 < MaxRetries {
      UniqueFromNone(counter, taken, now, a + 1);
    }
  }

  /** From attempt `a` on, a number found is the first candidate from `a` on that is not on a slip. */
  lemma UniqueFromFound(counter: Option<nat>, taken: set<string>, now: Instant, a: nat)
    requires a < MaxRetries
    requires UniqueFrom(CounterAfter(counter, a), taken, now, a).slipNo.Some?
    ensures var no := UniqueFrom(CounterAfter(counter, a), taken, now, a).slipNo.value;
            && no !in taken
            && exists k :: a <= k < MaxRetries && no == Candidate(counter, now, k)
                           && forall j :: a <= j < k ==> Candidate(counter, now, j) in taken
  {
    var k := FoundAttempt(counter, taken, now, a);
  }

  /** The attempt at which the number found was drawn: the first from `a` on whose candidate is free. */
  lemma {:induction false} FoundAttempt(counter: Option<nat>, taken: set<string>, now: Instant, a: nat) returns (k: nat)
    requires a < MaxRetries
    requires UniqueFrom(CounterAfter(counter, a), taken, now, a).slipNo.Some?
    ensures a <= k < MaxRetries
    ensures UniqueFrom(CounterAfter(counter, a), taken, now, a).slipNo == Some(Candidate(counter, now, k))
    ensures Candidate(counter, now, k) !in taken
    ensures forall j :: a <= j < k ==> Candidate(counter, now, j) in taken
    decreases MaxRetries - a
  {
    UniqueFromUnfold(counter, taken, now, a);
    var cand := Candidate(counter, now, a);
    if cand !in taken {
      k := a;
    } else {
      assert a + 1 < MaxRetries;
      k := FoundAttempt(counter, taken, now, a + 1);
    }
  }

  /** `generateUniqueSlipNumber` fails exactly when all 20 candidates are taken, and otherwise returns the first free one. */
  lemma UniqueSlipNumberSound(counter: Option<nat>, taken: set<string>, now: Instant)
    ensures var r := UniqueFrom(counter, taken, now, 0);
            && (r.slipNo.None? <==> forall k :: 0 <= k < MaxRetries ==> Candidate(counter, now, k) in taken)
            && (r.slipNo.Some? ==> r.slipNo.value !in taken)
  {
    UniqueFromNone(counter, taken, now, 0);
    if UniqueFrom(counter, taken, now, 0).slipNo.Some? {
      UniqueFromFound(counter, taken, now, 0);
    }
  }

  /** "000001" is the slip-number prefix of counter 1. */
  lemma FirstSlipPrefix(now: Instant)
    ensures SlipNumberText(1, now)[..6] == "000001"
  {
    assert NatText(1) == "1";
    assert Repeat('0', 5) == "00000";
  }

  // ---------------------------------------------------------------------
  // play
  // ---------------------------------------------------------------------

  /** `collect($amounts)->sum('amount')`. */
  function LineSum(lines: seq<Line>): int
    decreases |lines|
  {
    if lines == [] then 0 else LineSum(lines[..|lines| - 1]) + lines[|lines| - 1].amount
  }

  /** The tables admission reads. */
  datatype Snapshot = Snapshot(
    rows: Registry,
    digits: DigitTable,
    limits: seq<LimitRow>,
    bets: seq<Bet>,
    balances: Balances)

  function SnapshotOf(db: Store.Tables): Snapshot
    reads db
  {
    Snapshot(db.drawSessions, db.closeDigits, db.limits, db.bets, db.balances)
  }

  /** The decision `play` takes before writing anything. */
  datatype Admission = Refused(outcome: PlayOutcome) | Admitted(user: Player, limit: LimitRow)

  /** What `checkAllLimits` is called with for an authenticated player and the active limit. */
  function ExposureOf(s: Snapshot, user: Player, req: Request, now: Instant, limit: LimitRow): Exposure {
    Exposure(ClosedNumbers(s.digits), s.bets, user.id, now.date, req.session, limit.maxTotalBet, user.personalLimit)
  }

  /**
   * The checks of `play`, in order: the player is authenticated, betting
   * on the session is open by the clock, the session is open in the
   * registry, the line amounts add up to the total, an active limit
   * exists, the balance covers the total, and no line is over a limit.
   */
  function Admit(s: Snapshot, player: Option<Player>, req: Request, now: Instant): Admission {
    if player.None? then Refused(Thrown(NotAuthenticated))
    else if !IsBettingOpen(req.session, now) then Refused(Thrown(BettingClosed))
    else if !IsSessionOpen(s.rows, req.session, now) then Refused(Thrown(SessionClosed))
    else if LineSum(req.lines) != req.total then Refused(Replied(TotalMismatch(req.total, LineSum(req.lines))))
    else if GetActiveLimit(s.limits).None? then Refused(Replied(ResourceMissing))
    else if Balance(s.balances, player.value.id) < req.total then Refused(Replied(InsufficientFunds))
    else
      var limit := GetActiveLimit(s.limits).value;
      var over := OverLimitDigits(req.lines, ExposureOf(s, player.value, req, now, limit));
      if over != [] then Refused(OverLimit(over)) else Admitted(player.value, limit)
  }

  /** The fields every bet of one accepted batch shares. */
  datatype Placement = Placement(
    user: Player,
    session: Date,
    multiplier: int,
    gameDate: Date,
    gameTime: nat,
    slipId: nat,
    beforeBalance: int,
    afterBalance: int)

  /** The bet `play` passes to `ThreeDBet::create` for one line. */
  function LineBet(line: Line, p: Placement): Bet {
    var threeDigit := Pad3(line.num);
    Bet(p.user.id, p.user.agentId, threeDigit, line.amount, Some(DigitSum(threeDigit)), p.session,
        false, line.amount * p.multiplier, false, None, false, p.gameDate, p.gameTime, p.slipId,
        p.beforeBalance, p.afterBalance)
  }

  /** The row stored for one line, once the `creating` hook has set the Yangon date and time. */
  function StoredBet(line: Line, p: Placement, yangon: Instant): Bet {
    LineBet(line, p).(gameDate := yangon.date, gameTime := SecondOfDay(yangon))
  }

  /** The rows stored for a batch, in line order. */
  function NewBets(lines: seq<Line>, p: Placement, yangon: Instant): (r: seq<Bet>)
    ensures |r| == |lines|
    decreases |lines|
  {
    if lines == [] then []
    else NewBets(lines[..|lines| - 1], p, yangon) + [StoredBet(lines[|lines| - 1], p, yangon)]
  }

  /** The slip stored for an accepted batch. */
  function NewSlip(slipNo: string, p: Placement, total: int): Store.Slip {
    Store.Slip(slipNo, p.user.id, p.user.agentId, total, p.session, Store.SlipPending,
               p.gameDate, p.gameTime, p.beforeBalance, p.afterBalance)
  }

  /** The placement `play` uses for an admitted batch, with the balance before the withdraw. */
  function PlacementOf(user: Player, limit: LimitRow, req: Request, now: Instant,
                       slips: seq<Store.Slip>, balances: Balances): Placement {
    var before := Balance(balances, user.id);
    Placement(user, req.session, limit.payoutMultiplier, now.date, SecondOfDay(now), |slips| + 1,
              before, before - req.total)
  }

  /** Creating one more bet row extends the stored rows by the next line's row. */
  lemma NewBetsStep(lines: seq<Line>, i: nat, p: Placement, yangon: Instant)
    requires i < |lines|
    ensures NewBets(lines[..i + 1], p, yangon) == NewBets(lines[..i], p, yangon) + [StoredBet(lines[i], p, yangon)]
  {
    assert lines[..i + 1][..i] == lines[..i];
  }

  /** The `foreach` of `play`: one `ThreeDBet::create` per line. */
  method InsertBets(db: Store.Tables, lines: seq<Line>, p: Placement, yangon: Instant)
    modifies db`bets
    ensures db.bets == old(db.bets) + NewBets(lines, p, yangon)
  {
    for i := 0 to |lines|
      invariant db.bets == old(db.bets) + NewBets(lines[..i], p, yangon)
    {
      NewBetsStep(lines, i, p, yangon);
      var stored := Creating(LineBet(lines[i], p), yangon);
      assert stored == StoredBet(lines[i], p, yangon);
      db.bets := db.bets + [stored];
    }
    assert lines[..|lines|] == lines;
  }

  /** No two slips share a slip number: the unique `slip_no` column. */
  predicate UniqueSlipNos(slips: seq<Store.Slip>) {
    forall i, j :: 0 <= i < j < |slips| ==> slips[i].slipNo != slips[j].slipNo
  }

  /** Appending a slip whose number is not yet taken keeps the numbers unique. */
  lemma AppendFreshSlip(slips: seq<Store.Slip>, slip: Store.Slip)
    requires UniqueSlipNos(slips) && slip.slipNo !in SlipNos(slips)
    ensures UniqueSlipNos(slips + [slip])
  {
    var r := slips + [slip];
    forall i, j | 0 <= i < j < |r|
      ensures r[i].slipNo != r[j].slipNo
    {
      if j == |slips| {
        assert r[i] == slips[i];
        assert slips[i].slipNo in SlipNos(slips);
      }
    }
  }

  /**
   * The checks of `play` up to `checkAllLimits`, in the order the source
   * makes them; nothing is written.
   */
  method Screen(db: Store.Tables, player: Option<Player>, req: Request, now: Instant) returns (admission: Admission)
    ensures admission == Admit(SnapshotOf(db), player, req, now)
  {
    if player.None? {
      return Refused(Thrown(NotAuthenticated));
    }
    var user := player.value;
    if !IsBettingOpen(req.session, now) {
      return Refused(Thrown(BettingClosed));
    }
    if !IsSessionOpen(db.drawSessions, req.session, now) {
      return Refused(Thrown(SessionClosed));
    }
    var calculatedTotal := LineSum(req.lines);
    if calculatedTotal != req.total {
      return Refused(Replied(TotalMismatch(req.total, calculatedTotal)));
    }
    var overallThreeDLimit := GetActiveLimit(db.limits);
    if overallThreeDLimit.None? {
      return Refused(Replied(ResourceMissing));
    }
    var limit := overallThreeDLimit.value;
    if Balance(db.balances, user.id) < req.total {
      return Refused(Replied(InsufficientFunds));
    }
    var overLimitDigits := CheckAllLimits(db, req.lines, req.session, now.date, limit.maxTotalBet, user.id, user.personalLimit);
    if overLimitDigits != [] {
      return Refused(OverLimit(overLimitDigits));
    }
    return Admitted(user, limit);
  }

  /** The writes of an accepted batch: the withdraw, the pending slip, then one bet per line. */
  method PlaceBatch(db: Store.Tables, user: Player, limit: LimitRow, req: Request, now: Instant, yangon: Instant, slipNo: string)
    requires Balance(db.balances, user.id) >= req.total
    modifies db`balances, db`slips, db`bets
    ensures var p := PlacementOf(user, limit, req, now, old(db.slips), old(db.balances));
            && db.balances == Withdraw(old(db.balances), user.id, req.total).value
            && db.slips == old(db.slips) + [NewSlip(slipNo, p, req.total)]
            && db.bets == old(db.bets) + NewBets(req.lines, p, yangon)
    ensures slipNo !in SlipNos(old(db.slips)) && UniqueSlipNos(old(db.slips)) ==> UniqueSlipNos(db.slips)
  {
    var p := PlacementOf(user, limit, req, now, db.slips, db.balances);
    db.balances := Withdraw(db.balances, user.id, req.total).value;
    var slip := NewSlip(slipNo, p, req.total);
    if slipNo !in SlipNos(db.slips) && UniqueSlipNos(db.slips) {
      AppendFreshSlip(db.slips, slip);
    }
    db.slips := db.slips + [slip];
    InsertBets(db, req.lines, p, yangon);
  }

  /**
   * `play`.  A refused batch and a batch whose slip number cannot be found
   * leave every table unchanged; an accepted one withdraws the total once,
   * advances the slip counter, appends one pending slip and one bet per
   * line, and keeps slip numbers unique.
   */
  method Play(db: Store.Tables, player: Option<Player>, req: Request, now: Instant, yangon: Instant)
    returns (outcome: PlayOutcome)
    modifies db`balances, db`slips, db`bets, db`slipCounter
    ensures var a := Admit(old(SnapshotOf(db)), player, req, now);
            a.Refused? ==> outcome == a.outcome && unchanged(db)
    ensures var a := Admit(old(SnapshotOf(db)), player, req, now);
            var draw := UniqueFrom(old(db.slipCounter), SlipNos(old(db.slips)), now, 0);
            a.Admitted? && draw.slipNo.None? ==> outcome == Replied(SlipNumberExhausted) && unchanged(db)
    ensures var a := Admit(old(SnapshotOf(db)), player, req, now);
            var draw := UniqueFrom(old(db.slipCounter), SlipNos(old(db.slips)), now, 0);
            a.Admitted? && draw.slipNo.Some? ==>
              var p := PlacementOf(a.user, a.limit, req, now, old(db.slips), old(db.balances));
              && outcome == Replied(Placed)
              && db.slipCounter == draw.counter
              && db.balances == Withdraw(old(db.balances), a.user.id, req.total).value
              && db.slips == old(db.slips) + [NewSlip(draw.slipNo.value, p, req.total)]
              && db.bets == old(db.bets) + NewBets(req.lines, p, yangon)
    ensures UniqueSlipNos(old(db.slips)) ==> UniqueSlipNos(db.slips)
  {
    var admission := Screen(db, player, req, now);
    if admission.Refused? {
      return admission.outcome;
    }
    var counterBefore := db.slipCounter;
    var slipNo := GenerateUniqueSlipNumber(db, now);
    if slipNo.None? {
      db.slipCounter := counterBefore;  // DB::rollback
      return Replied(SlipNumberExhausted);
    }
    UniqueSlipNumberSound(counterBefore, SlipNos(db.slips), now);
    PlaceBatch(db, admission.user, admission.limit, req, now, yangon, slipNo.value);
    return Replied(Placed);
  }

  // ---------------------------------------------------------------------
  // Properties of admission and of an accepted batch
  // ---------------------------------------------------------------------

  /** A batch is admitted exactly when every check passes; a balance equal to the total is enough. */
  lemma AdmittedIff(s: Snapshot, player: Option<Player>, req: Request, now: Instant)
    ensures Admit(s, player, req, now).Admitted? <==>
              && player.Some?
              && IsBettingOpen(req.session, now)
              && IsSessionOpen(s.rows, req.session, now)
              && LineSum(req.lines) == req.total
              && GetActiveLimit(s.limits).Some?
              && Balance(s.balances, player.value.id) >= req.total
              && forall i :: 0 <= i < |req.lines| ==>
                   !Flagged(req.lines[i], ExposureOf(s, player.value, req, now, GetActiveLimit(s.limits).value))
  {
    if player.Some? && GetActiveLimit(s.limits).Some? {
      OverLimitEmpty(req.lines, ExposureOf(s, player.value, req, now, GetActiveLimit(s.limits).value));
    }
  }

  /** Only the three checks before the `try` raise; every later refusal is a returned value. */
  lemma ThrownOnlyBeforeTry(s: Snapshot, player: Option<Player>, req: Request, now: Instant)
    ensures Admit(s, player, req, now).Refused? && Admit(s, player, req, now).outcome.Thrown? <==>
              player.None? || !IsBettingOpen(req.session, now) || !IsSessionOpen(s.rows, req.session, now)
  {
  }

  /** An over-limit refusal lists exactly the padded numbers of the flagged lines, and only once the earlier checks passed. */
  lemma OverLimitRefusal(s: Snapshot, player: Option<Player>, req: Request, now: Instant, d: string)
    requires Admit(s, player, req, now).Refused? && Admit(s, player, req, now).outcome.OverLimit?
    ensures player.Some? && LineSum(req.lines) == req.total && Balance(s.balances, player.value.id) >= req.total
    ensures Admit(s, player, req, now).outcome.digits != []
    ensures d in Admit(s, player, req, now).outcome.digits <==>
              exists i :: 0 <= i < |req.lines|
                          && FlaggedAs(req.lines[i], ExposureOf(s, player.value, req, now, GetActiveLimit(s.limits).value), d)
  {
    OverLimitMembers(req.lines, ExposureOf(s, player.value, req, now, GetActiveLimit(s.limits).value), d);
  }

  /** Every bet of an accepted batch: the padded number, its digit sum as break group, the configured payout, unsettled, on the slip. */
  lemma {:induction false} NewBetsFacts(lines: seq<Line>, p: Placement, yangon: Instant)
    ensures forall k :: 0 <= k < |lines| ==>
              var b := NewBets(lines, p, yangon)[k];
              && b.userId == p.user.id
              && b.betNumber == Pad3(lines[k].num)
              && b.betAmount == lines[k].amount
              && b.breakGroup == Some(CalculateBreakGroup(Pad3(lines[k].num)))
              && b.potentialPayout == lines[k].amount * p.multiplier
              && !b.betStatus && !b.winLose && !b.prizeSent && b.betResult.None?
              && b.drawSession == p.session && b.slipId == p.slipId
              && b.gameDate == yangon.date && b.gameTime == SecondOfDay(yangon)
    decreases |lines|
  {
    if lines != [] {
      var init := lines[..|lines| - 1];
      NewBetsFacts(init, p, yangon);
      assert forall k :: 0 <= k < |init| ==> init[k] == lines[k];
    }
  }

  /** The sum of the stakes of a list of bets. */
  function TotalStake(bets: seq<Bet>): int
    decreases |bets|
  {
    if bets == [] then 0 else TotalStake(bets[..|bets| - 1]) + bets[|bets| - 1].betAmount
  }

  /** The stakes of an accepted batch add up to the line sum, which is the total withdrawn. */
  lemma {:induction false} StakesMatchLineSum(lines: seq<Line>, p: Placement, yangon: Instant)
    ensures TotalStake(NewBets(lines, p, yangon)) == LineSum(lines)
    decreases |lines|
  {
    if lines != [] {
      StakesMatchLineSum(lines[..|lines| - 1], p, yangon);
      var r := NewBets(lines, p, yangon);
      assert r[..|r| - 1] == NewBets(lines[..|lines| - 1], p, yangon);
    }
  }

  /** An accepted batch debits exactly its total from the player and nobody else. */
  lemma AcceptedDebit(s: Snapshot, player: Option<Player>, req: Request, now: Instant)
    requires Admit(s, player, req, now).Admitted?
    ensures var u := player.value.id;
            var b := Withdraw(s.balances, u, req.total);
            && b.Some?
            && Balance(b.value, u) == Balance(s.balances, u) - req.total
            && (forall v :: v != u ==> Balance(b.value, v) == Balance(s.balances, v))
  {
  }

  /**
   * A bet above the row's `max_bet_amount` is admitted: with an open session
   * on its day before 12:30, enough funds and a generous break amount, a
   * single line of 5000 is accepted although the maximum per bet is 1000.
   */
  lemma PerBetLimitsIgnored(now: Instant)
    requires now.date == Date(2025, 2, 1) && now.hour == 9 && now.minute == 0
    ensures var session := Date(2025, 2, 1);
            var s := Snapshot(map[session := SessionRow(true, None)], map[],
                              [LimitRow(100, 1000, 100000, 80, true)], [], map[7 := 10000]);
            var req := Request(5000, [Line("5", 5000)], session);
            && req.lines[0].amount > s.limits[0].maxBetAmount
            && Admit(s, Some(Player(7, None, None)), req, now).Admitted?
  {
    var session := Date(2025, 2, 1);
    var s := Snapshot(map[session := SessionRow(true, None)], map[],
                      [LimitRow(100, 1000, 100000, 80, true)], [], map[7 := 10000]);
    var req := Request(5000, [Line("5", 5000)], session);
    assert req.lines[..0] == [];
    assert LineSum(req.lines) == 5000;
    assert GetActiveLimit(s.limits) == Some(LimitRow(100, 1000, 100000, 80, true));
    var e := ExposureOf(s, Player(7, None, None), req, now, LimitRow(100, 1000, 100000, 80, true));
    assert e.closed == {};
    assert !Flagged(req.lines[0], e);
    assert OverLimitDigits(req.lines, e) == [];
  }
}
