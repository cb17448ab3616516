/**
 * The settings actions of the admin 3D controller: `storeThreeDLimit`
 * (replace the active limit), `toggleThreeDCloseDigit` (flip one number's
 * status) and `toggleDrawSession` (set one session's `is_open` flag,
 * creating its row when missing).
 */
module AdminSettings {
  import opened Options
  import opened Dates
  import opened Digits
  import opened Limits
  import opened CloseDigits
  import opened DrawSessionModel
  import Store

  // ---------------------------------------------------------------------
  // storeThreeDLimit
  // ---------------------------------------------------------------------

  /**
   * The four request fields, in cents (the multiplier a whole number).
   * `None` is a field that is missing or not numeric.
   */
  datatype LimitRequest = LimitRequest(
    minBetAmount: Option<int>,
    maxBetAmount: Option<int>,
    maxTotalBet: Option<int>,
    payoutMultiplier: Option<int>)

  /** One field's rule, `required|numeric|min:0`. */
  predicate FieldValid(f: Option<int>) {
    f.Some? && f.value >= 0
  }

  /** The validation of `storeThreeDLimit`: every field present, numeric and not negative. */
  predicate LimitRequestValid(req: LimitRequest) {
    FieldValid(req.minBetAmount) && FieldValid(req.maxBetAmount)
    && FieldValid(req.maxTotalBet) && FieldValid(req.payoutMultiplier)
  }

  /** The row `ThreeDLimit::create` inserts for a valid request: active, with the request's values. */
  function NewLimitRow(req: LimitRequest): LimitRow
    requires LimitRequestValid(req)
  {
    LimitRow(req.minBetAmount.value, req.maxBetAmount.value, req.maxTotalBet.value,
             req.payoutMultiplier.value, true)
  }

  /**
   * `ThreeDLimit::where('is_active', true)->update(['is_active' => false])`:
   * every row inactive, nothing else about any row changed.
   */
  function DeactivateAll(rows: seq<LimitRow>): (r: seq<LimitRow>)
    ensures |r| == |rows|
    ensures forall i :: 0 <= i < |r| ==> !r[i].isActive && r[i].(isActive := rows[i].isActive) == rows[i]
  {
    seq(|rows|, i requires 0 <= i < |rows| => rows[i].(isActive := false))
  }

  /** The limit table after storing `row`: every old row deactivated, then `row` created. */
  function ReplaceLimit(rows: seq<LimitRow>, row: LimitRow): seq<LimitRow> {
    DeactivateAll(rows) + [row]
  }

  /** What `storeThreeDLimit` answers: back with errors, or the settings page with the new row. */
  datatype LimitOutcome = LimitRejected | LimitSaved(row: LimitRow)

  /** `storeThreeDLimit`: an invalid request changes nothing; a valid one replaces the active limit. */
  method StoreThreeDLimit(db: Store.Tables, req: LimitRequest) returns (outcome: LimitOutcome)
    modifies db`limits
    ensures !LimitRequestValid(req) ==> outcome == LimitRejected && db.limits == old(db.limits)
    ensures LimitRequestValid(req) ==>
              outcome == LimitSaved(NewLimitRow(req)) && db.limits == ReplaceLimit(old(db.limits), NewLimitRow(req))
  {
    if !LimitRequestValid(req) {
      return LimitRejected;
    }
    db.limits := DeactivateAll(db.limits);
    var row := NewLimitRow(req);
    db.limits := db.limits + [row];
    return LimitSaved(row);
  }

  /**
   * After storing a limit exactly one row is active, the new one, so it is
   * what `getActiveLimit` returns; the older rows keep their values.
   */
  lemma ReplaceLimitFacts(rows: seq<LimitRow>, req: LimitRequest)
    requires LimitRequestValid(req)
    ensures var r := ReplaceLimit(rows, NewLimitRow(req));
            && |r| == |rows| + 1
            && GetActiveLimit(r) == Some(NewLimitRow(req))
            && (forall j :: 0 <= j < |r| ==> (r[j].isActive <==> j == |rows|))
            && (forall j :: 0 <= j < |rows| ==> r[j].(isActive := rows[j].isActive) == rows[j])
  {
    var r := ReplaceLimit(rows, NewLimitRow(req));
    assert LatestActiveIndex(r) == Some(|rows|);
  }

  /** A stored limit carries the request's values; with `min <= max` its own bounds are admissible bets. */
  lemma NewLimitValues(req: LimitRequest)
    requires LimitRequestValid(req)
    ensures var row := NewLimitRow(req);
            && row.minBetAmount == req.minBetAmount.value && row.maxBetAmount == req.maxBetAmount.value
            && row.maxTotalBet == req.maxTotalBet.value && row.payoutMultiplier == req.payoutMultiplier.value
            && CalculatePayout(row, 1) == req.payoutMultiplier.value
            && (req.minBetAmount.value <= req.maxBetAmount.value ==>
                  IsBetAmountValid(row, req.minBetAmount.value) && IsBetAmountValid(row, req.maxBetAmount.value))
  {
    BetAmountBoundsInclusive(NewLimitRow(req), req.minBetAmount.value);
  }

  // ---------------------------------------------------------------------
  // toggleThreeDCloseDigit
  // ---------------------------------------------------------------------

  /** What `toggleThreeDCloseDigit` answers: 422, 404, or the new status with its text. */
  datatype ToggleReply =
    | ToggleInvalid
    | DigitNotFound
    | DigitToggled(closeDigit: string, status: bool, statusText: string)

  /** The HTTP status of a reply. */
  function ToggleStatusCode(r: ToggleReply): int {
    match r
    case ToggleInvalid => 422
    case DigitNotFound => 404
    case DigitToggled(_, _, _) => 200
  }

  /** `'Open'` for an open number, `'Closed'` otherwise. */
  function StatusText(status: bool): string {
    if status then "Open" else "Closed"
  }

  /** The table after toggling `digit`: that row's status negated when the digit is valid and has a row. */
  function ToggleTable(t: DigitTable, digit: string): (r: DigitTable)
    ensures r.Keys == t.Keys
    ensures forall k :: k in t && k != digit ==> r[k] == t[k]
    ensures IsNumeral3(digit) && digit in t ==> r[digit] == !t[digit]
    ensures !IsNumeral3(digit) || digit !in t ==> r == t
  {
    if IsNumeral3(digit) && digit in t then t[digit := !t[digit]] else t
  }

  /** The reply to toggling `digit` in `t`. */
  function ToggleReplyOf(t: DigitTable, digit: string): (r: ToggleReply)
    ensures ToggleStatusCode(r) == 422 <==> !IsNumeral3(digit)
    ensures ToggleStatusCode(r) == 404 <==> IsNumeral3(digit) && digit !in t
    ensures r.DigitToggled? ==> r.closeDigit == digit && r.status == ToggleTable(t, digit)[digit]
                                && r.statusText == StatusText(r.status)
  {
    if !IsNumeral3(digit) then ToggleInvalid
    else if digit !in t then DigitNotFound
    else DigitToggled(digit, !t[digit], StatusText(!t[digit]))
  }

  /**
   * `toggleThreeDCloseDigit`: the number must be exactly three digits (no
   * padding here); an unknown number is 404 and changes nothing.
   */
  method ToggleThreeDCloseDigit(db: Store.Tables, closeDigit: string) returns (reply: ToggleReply)
    modifies db`closeDigits
    ensures reply == ToggleReplyOf(old(db.closeDigits), closeDigit)
    ensures db.closeDigits == ToggleTable(old(db.closeDigits), closeDigit)
  {
    if !IsNumeral3(closeDigit) {
      return ToggleInvalid;
    }
    if closeDigit !in db.closeDigits {
      return DigitNotFound;
    }
    var status := !db.closeDigits[closeDigit];
    db.closeDigits := db.closeDigits[closeDigit := status];
    return DigitToggled(closeDigit, status, StatusText(status));
  }

  /** Toggling the same number twice restores the table. */
  lemma ToggleTwiceRestores(t: DigitTable, digit: string)
    ensures ToggleTable(ToggleTable(t, digit), digit) == t
  {
    if IsNumeral3(digit) && digit in t {
      var once := ToggleTable(t, digit);
      assert once == t[digit := !t[digit]];
      assert once[digit := !once[digit]] == t;
    }
  }

  /** A toggle moves the named number between the open and the closed list and no other. */
  lemma ToggleSwapsOpenClosed(t: DigitTable, digit: string, other: string)
    requires IsNumeral3(digit) && digit in t
    ensures IsDigitOpen(ToggleTable(t, digit), digit) <==> IsDigitClosed(t, digit)
    ensures Pad3(other) != digit ==>
              (IsDigitOpen(ToggleTable(t, digit), other) <==> IsDigitOpen(t, other))
              && (IsDigitClosed(ToggleTable(t, digit), other) <==> IsDigitClosed(t, other))
  {
    Pad3Numeral(digit);
  }

  /** Toggling keeps every key a three-digit numeral. */
  lemma ToggleKeepsWellFormed(t: DigitTable, digit: string)
    requires WellFormed(t)
    ensures WellFormed(ToggleTable(t, digit))
  {
  }

  // ---------------------------------------------------------------------
  // toggleDrawSession
  // ---------------------------------------------------------------------

  /** The `is_open` request field: missing, a JSON boolean, or text. */
  datatype FlagInput = FlagMissing | FlagBoolean(b: bool) | FlagText(s: string)

  /** ASCII lower case, as `filter_var` compares its words. */
  function LowerAscii(s: string): (r: string)
    ensures |r| == |s|
    ensures forall i :: 0 <= i < |s| ==> r[i] == (if 'A' <= s[i] <= 'Z' then (s[i] as int + 32) as char else s[i])
  {
    if s == [] then []
    else [if 'A' <= s[0] <= 'Z' then (s[0] as int + 32) as char else s[0]] + LowerAscii(s[1..])
  }

  /**
   * `filter_var($v, FILTER_VALIDATE_BOOLEAN, FILTER_NULL_ON_FAILURE)`:
   * "1", "true", "on", "yes" are true; "0", "false", "off", "no" and ""
   * are false, in any letter case; anything else is null.  A boolean is
   * itself.
   */
  function FilterBoolean(v: FlagInput): Option<bool>
    requires !v.FlagMissing?
  {
    match v
    case FlagBoolean(b) => Some(b)
    case FlagText(s) =>
      var w := LowerAscii(s);
      if w == "1" || w == "true" || w == "on" || w == "yes" then Some(true)
      else if w == "0" || w == "false" || w == "off" || w == "no" || w == "" then Some(false)
      else None
  }

  /** The rule `is_open: required`: present, and not the empty string. */
  predicate FlagPresent(v: FlagInput) {
    !v.FlagMissing? && v != FlagText("")
  }

  /** What `toggleDrawSession` answers: validation failure, 422 for an unreadable flag, or the stored row. */
  datatype SessionToggleReply =
    | SessionToggleRejected
    | InvalidFlag
    | SessionUpdated(drawSession: Date, isOpen: bool)

  /** The flag the request carries, when it is admitted. */
  function RequestedFlag(v: FlagInput): Option<bool> {
    if FlagPresent(v) then FilterBoolean(v) else None
  }

  /** `updateOrCreate`: the session's row becomes the new flag and notes, created when missing. */
  function SetSession(rows: Registry, session: Date, isOpen: bool, notes: Option<string>): (r: Registry)
    ensures r.Keys == rows.Keys + {session}
    ensures r[session] == SessionRow(isOpen, notes)
    ensures forall d :: d in rows && d != session ==> r[d] == rows[d]
  {
    rows[session := SessionRow(isOpen, notes)]
  }

  /** The reply to a `toggleDrawSession` request. */
  function SessionToggleReplyOf(session: Date, v: FlagInput): (r: SessionToggleReply)
    ensures r == SessionToggleRejected <==> !FlagPresent(v)
    ensures r == InvalidFlag <==> FlagPresent(v) && FilterBoolean(v).None?
    ensures r.SessionUpdated? ==> r.drawSession == session && Some(r.isOpen) == RequestedFlag(v)
  {
    if !FlagPresent(v) then SessionToggleRejected
    else match FilterBoolean(v)
      case None => InvalidFlag
      case Some(b) => SessionUpdated(session, b)
  }

  /** The registry after a `toggleDrawSession` request. */
  function SessionToggleRows(rows: Registry, session: Date, v: FlagInput, notes: Option<string>): Registry {
    match RequestedFlag(v)
    case None => rows
    case Some(b) => SetSession(rows, session, b, notes)
  }

  /** `toggleDrawSession`: the session's row is upserted with the parsed flag; a rejected request changes nothing. */
  method ToggleDrawSession(db: Store.Tables, session: Date, isOpen: FlagInput, notes: Option<string>)
    returns (reply: SessionToggleReply)
    modifies db`drawSessions
    ensures reply == SessionToggleReplyOf(session, isOpen)
    ensures db.drawSessions == SessionToggleRows(old(db.drawSessions), session, isOpen, notes)
  {
    if !FlagPresent(isOpen) {
      return SessionToggleRejected;
    }
    var flag := FilterBoolean(isOpen);
    if flag.None? {
      return InvalidFlag;
    }
    db.drawSessions := db.drawSessions[session := SessionRow(flag.value, notes)];
    return SessionUpdated(session, flag.value);
  }

  /**
   * After an updated toggle, `isSessionOpen` reports the requested flag for
   * that session at every clock reading, and every other session reads as
   * before.
   */
  lemma ToggleSetsSessionFlag(rows: Registry, session: Date, v: FlagInput, notes: Option<string>, now: Instant, other: Date)
    requires SessionToggleReplyOf(session, v).SessionUpdated?
    ensures var r := SessionToggleRows(rows, session, v, notes);
            && IsSessionOpen(r, session, now) == SessionToggleReplyOf(session, v).isOpen
            && (other != session ==> IsSessionOpen(r, other, now) == IsSessionOpen(rows, other, now))
  {
  }

  /** Repeating a toggle request leaves the registry as the first one did. */
  lemma ToggleSessionIdempotent(rows: Registry, session: Date, v: FlagInput, notes: Option<string>)
    ensures var once := SessionToggleRows(rows, session, v, notes);
            SessionToggleRows(once, session, v, notes) == once
  {
    var once := SessionToggleRows(rows, session, v, notes);
    if RequestedFlag(v).Some? {
      assert SessionToggleRows(once, session, v, notes) == once[session := SessionRow(RequestedFlag(v).value, notes)];
    }
  }

  /** The words are read in any letter case: "TRUE" opens. */
  lemma FilterBooleanUpperCase()
    ensures FilterBoolean(FlagText("TRUE")) == Some(true)
  {
    assert LowerAscii("TRUE") == "true" by {
      assert LowerAscii("TRUE")[..] == ['t', 'r', 'u', 'e'];
    }
  }

  /** A word `filter_var` does not know is answered with 422. */
  lemma FilterBooleanUnknownWord()
    ensures SessionToggleReplyOf(Date(2025, 3, 1), FlagText("ja")) == InvalidFlag
  {
    assert LowerAscii("ja") == "ja";
  }

  /** A JSON `false` passes `required` and closes the session. */
  lemma FilterBooleanJsonFalse()
    ensures SessionToggleReplyOf(Date(2025, 3, 1), FlagBoolean(false)) == SessionUpdated(Date(2025, 3, 1), false)
  {
  }
}
