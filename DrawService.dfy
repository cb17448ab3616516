/**
 * ThreeDDrawService: the loops that build and scan the draw calendar, the
 * per-session status listing and the reconciliation sweep over the
 * draw-session registry.  Each method is proved against the value-level
 * definition of DrawCalendar.  The clock is a parameter (`now`); Carbon's
 * in-place `startOfDay()` is reproduced by a local clock variable that the
 * loops overwrite.
 */
module DrawService {
  import opened Options
  import opened Dates
  import opened DrawCalendar
  import opened DrawSessionModel
  import opened SessionLifecycle
  import Store

  /** `getDrawSessionsForYear`. */
  method GetDrawSessionsForYear(year: Option<int>, now: Instant) returns (sessions: seq<Date>)
    ensures sessions == Calendar(YearOrNow(year, now))
  {
    var y := YearOrNow(year, now);
    sessions := [Date(y, 1, 16)];
    for month := 2 to 13
      invariant sessions + MonthPairs(y, month) == [Date(y, 1, 16)] + MonthPairs(y, 2)
    {
      sessions := sessions + [Date(y, month, 1)];
      sessions := sessions + [Date(y, month, 16)];
    }
    sessions := sessions + [Date(y, 12, 30)];
  }

  /**
   * `array_merge(getDrawSessionsForYear(year), getDrawSessionsForYear(year + 1))`,
   * the list both `getNextDrawSession` (this and next year) and
   * `getLastDrawSession` (last and this year) scan; for the positive years
   * a clock reading has it is `TwoYears(year)`.
   */
  method GetTwoYears(year: int, now: Instant) returns (all: seq<Date>)
    ensures year > 0 ==> all == TwoYears(year)
  {
    var first := GetDrawSessionsForYear(Some(year), now);
    var second := GetDrawSessionsForYear(Some(year + 1), now);
    all := first + second;
  }

  /** The `foreach` of `getNextDrawSession`: the first session whose midnight is later than now, or null. */
  method ScanForNext(sessions: seq<Date>, now: Instant) returns (next: Option<Date>)
    ensures next == FirstSessionAfter(sessions, now.date)
  {
    for i := 0 to |sessions|
      invariant forall j :: 0 <= j < i ==> !Before(now.date, sessions[j])
    {
      MidnightLaterIff(sessions[i], now);
      if Earlier(now, Midnight(sessions[i])) {
        FirstAfterAt(sessions, now.date, i);
        return Some(sessions[i]);
      }
    }
    FirstAfterFacts(sessions, now.date);
    return None;
  }

  /** `getNextDrawSession`: the first session of this and next year whose midnight is later than now. */
  method GetNextDrawSession(now: Instant) returns (next: Option<Date>)
    ensures next == NextDrawSession(now)
  {
    var all := GetTwoYears(now.date.year, now);
    next := ScanForNext(all, now);
  }

  /** The `foreach` of `getLastDrawSession`: remembers each past session and stops at the first that is not past. */
  method ScanForLast(sessions: seq<Date>, now: Instant) returns (last: Option<Date>)
    ensures last == LastSessionPast(sessions, now)
  {
    last := None;
    var i := 0;
    while i < |sessions|
      invariant 0 <= i <= |sessions|
      invariant forall j :: 0 <= j < i ==> Earlier(Midnight(sessions[j]), now)
      invariant last == if i == 0 then None else Some(sessions[i - 1])
    {
      if Earlier(Midnight(sessions[i]), now) {
        last := Some(sessions[i]);
      } else {
        break;
      }
      i := i + 1;
    }
    FirstNotPastAt(sessions, now, i);
  }

  /** `getLastDrawSession`: scans last and this year's sessions until one is not in the past. */
  method GetLastDrawSession(now: Instant) returns (last: Option<Date>)
    ensures last == LastDrawSession(now)
  {
    var all := GetTwoYears(now.date.year - 1, now);
    last := ScanForLast(all, now);
  }

  /** The `foreach` of `getDrawSessionsForMonth`: keeps, in order, the sessions that fall in `month`. */
  method FilterMonth(sessions: seq<Date>, month: int) returns (monthSessions: seq<Date>)
    ensures monthSessions == InMonth(sessions, month)
  {
    monthSessions := [];
    for i := 0 to |sessions|
      invariant monthSessions + InMonth(sessions[i..], month) == InMonth(sessions, month)
    {
      InMonthStep(sessions, i, month);
      if sessions[i].month == month {
        monthSessions := monthSessions + [sessions[i]];
      }
    }
  }

  /** `getDrawSessionsForMonth`. */
  method GetDrawSessionsForMonth(year: int, month: int, now: Instant) returns (monthSessions: seq<Date>)
    ensures monthSessions == InMonth(Calendar(YearOrNow(Some(year), now)), month)
  {
    var allSessions := GetDrawSessionsForYear(Some(year), now);
    monthSessions := FilterMonth(allSessions, month);
  }

  /**
   * The `foreach` of `getDrawSessionsWithStatus` over `sessions`, with the
   * `is_open` values of the registry (`pluck('is_open', 'draw_session')`).
   */
  method ListStatuses(sessions: seq<Date>, rows: Registry, now: Instant) returns (listing: seq<SessionView>)
    ensures listing == ListingFrom(sessions, rows, now, now)
  {
    var clock: DateTime := now;
    listing := [];
    for i := 0 to |sessions|
      invariant listing + ListingFrom(sessions[i..], rows, clock, now) == ListingFrom(sessions, rows, now, now)
    {
      ListingStep(sessions, i, rows, clock, now);
      var status;
      status, clock := StatusAt(sessions[i], clock);
      listing := listing + [View(sessions[i], status, rows, now)];
    }
  }

  /** The `if`/`elseif` of that loop: `lt` against the clock, else `eq` against the clock reset to midnight. */
  method StatusAt(session: Date, clock: DateTime) returns (status: SessionStatus, after: DateTime)
    ensures (status, after) == StatusStep(session, clock)
  {
    after := clock;
    if Earlier(Midnight(session), after) {
      status := Past;
    } else {
      after := StartOfDay(after);
      if Midnight(session) == after {
        status := Current;
      } else {
        status := Future;
      }
    }
  }

  /**
   * `getDrawSessionsWithStatus`: every session of the year, in calendar
   * order, with the status it is given against the clock (a draw day
   * counts as past from 00:00:01 on), whether betting on it is open, and
   * its stored flag, or open exactly when it is current.
   */
  method GetDrawSessionsWithStatus(db: Store.Tables, year: Option<int>, now: Instant) returns (listing: seq<SessionView>)
    ensures |listing| == 24
    ensures forall i :: 0 <= i < 24 ==>
              listing[i] == View(Calendar(YearOrNow(year, now))[i], StatusAsWritten(Calendar(YearOrNow(year, now))[i], now), db.drawSessions, now)
  {
    var drawSessions := GetDrawSessionsForYear(year, now);
    CalendarFacts(YearOrNow(year, now));
    listing := ListStatuses(drawSessions, db.drawSessions, now);
    ListingOfAscending(drawSessions, db.drawSessions, now, now);
  }

  /**
   * `getCurrentDrawSessionWithStatus`: the listing entry of today when
   * today is a draw day, and null otherwise.
   */
  method GetCurrentDrawSessionWithStatus(db: Store.Tables, now: Instant) returns (view: Option<SessionView>)
    ensures view == if Scheduled(now.date) then Some(View(now.date, StatusAsWritten(now.date, now), db.drawSessions, now)) else None
  {
    var currentSession := CurrentDrawSession(now);
    if currentSession.None? {
      return None;
    }
    var drawSessions := GetDrawSessionsForYear(None, now);
    CalendarFacts(now.date.year);
    var listing := ListStatuses(drawSessions, db.drawSessions, now);
    ListedDayFound(drawSessions, db.drawSessions, now, now.date);
    view := FirstWithDate(listing, currentSession.value);
  }

  /**
   * The first `foreach` of `autoTransitionDrawSessions`: today's session
   * when it is listed, the first session after today, and the clock,
   * which `startOfDay()` has reset to midnight once the loop has run.
   */
  method FindCurrentAndNext(sessions: seq<Date>, now: Instant) returns (current: Option<Date>, next: Option<Date>, clock: DateTime)
    ensures current == if now.date in sessions then Some(now.date) else None
    ensures next == FirstSessionAfter(sessions, now.date)
    ensures clock == if sessions == [] then now else StartOfDay(now)
  {
    clock := now;
    current, next := None, None;
    for i := 0 to |sessions|
      invariant clock == if i == 0 then now else StartOfDay(now)
      invariant current == if now.date in sessions[..i] then Some(now.date) else None
      invariant next.None? ==> forall j :: 0 <= j < i ==> !Before(now.date, sessions[j])
      invariant next.Some? ==> next == FirstSessionAfter(sessions, now.date)
    {
      var session := sessions[i];
      assert sessions[..i + 1] == sessions[..i] + [session];
      clock := StartOfDay(clock);
      if Midnight(session) == clock {
        current := Some(session);
      }
      MidnightLaterIff(session, clock);
      if Earlier(clock, Midnight(session)) && next.None? {
        FirstAfterAt(sessions, now.date, i);
        next := Some(session);
      }
    }
    assert sessions[..|sessions|] == sessions;
    if next.None? {
      FirstAfterFacts(sessions, now.date);
    }
  }

  /**
   * The search of `autoTransitionDrawSessions` over this and next year's
   * sessions: `getCurrentDrawSession`, `getNextDrawSession`, and the clock
   * reset to midnight.
   */
  method SearchTwoYears(now: Instant) returns (current: Option<Date>, next: Option<Date>, clock: DateTime)
    ensures current == CurrentDrawSession(now)
    ensures next == NextDrawSession(now) && next.Some?
    ensures clock == StartOfDay(now)
  {
    var y := now.date.year;
    var allSessions := GetTwoYears(y, now);
    current, next, clock := FindCurrentAndNext(allSessions, now);
    TwoYearsListed(y);
    assert NextDrawSession(now) == FirstSessionAfter(allSessions, now.date);
    CurrentInTwoYears(allSessions, now);
    NextDrawSessionIsEarliest(now);
  }

  /** The first step: close the current session's open row when the clock passes the draw-time test. */
  method CloseCurrentAfterDraw(db: Store.Tables, current: Option<Date>, clock: DateTime) returns (transitions: seq<Transition>)
    modifies db`drawSessions
    ensures db.drawSessions == CloseCurrentRows(old(db.drawSessions), current, clock)
    ensures transitions == if ClosesCurrent(old(db.drawSessions), current, clock) then [ClosedCurrent(current.value)] else []
  {
    transitions := [];
    if current.Some? {
      if clock.hour >= 14 && clock.minute >= 30 {
        if current.value in db.drawSessions && db.drawSessions[current.value].isOpen {
          db.drawSessions := db.drawSessions[current.value := SessionRow(false, Some(NoteClosedAfterDraw))];
          transitions := [ClosedCurrent(current.value)];
        }
      }
    }
  }

  /**
   * The sweep: every row that is open (`where('is_open', true)->get()`,
   * in no particular order) is closed unless it is the next session's.
   */
  method CloseOthers(db: Store.Tables, next: Option<Date>) returns (transitions: seq<Transition>)
    modifies db`drawSessions
    ensures db.drawSessions == SweepRows(old(db.drawSessions), next)
    ensures ReportsClosed(transitions, ToClose(old(db.drawSessions), next))
  {
    ghost var rows := db.drawSessions;
    ghost var toClose := ToClose(rows, next);
    ghost var done: set<Date> := {};
    var pending := OpenSessions(db.drawSessions);
    transitions := [];
    while pending != {}
      invariant pending <= OpenSessions(rows)
      invariant done == toClose - pending
      invariant SweptSoFar(db.drawSessions, rows, done)
      invariant ReportsClosed(transitions, done)
      decreases |pending|
    {
      var d :| d in pending;
      pending := pending - {d};
      if next.Some? && d == next.value {
        continue;
      }
      SweepStep(db.drawSessions, rows, done, transitions, d);
      done := done + {d};
      db.drawSessions := db.drawSessions[d := SessionRow(false, Some(NoteClosedToKeepOne))];
      transitions := transitions + [ClosedOther(d)];
    }
    SweepFinished(db.drawSessions, rows, next);
  }

  /** The last step: open the next session's row when it exists and is closed. */
  method OpenNextSession(db: Store.Tables, next: Option<Date>) returns (transitions: seq<Transition>)
    modifies db`drawSessions
    ensures db.drawSessions == OpenNextRows(old(db.drawSessions), next)
    ensures transitions == if OpensNext(old(db.drawSessions), next) then [OpenedNext(next.value)] else []
  {
    transitions := [];
    if next.Some? {
      if next.value in db.drawSessions && !db.drawSessions[next.value].isOpen {
        db.drawSessions := db.drawSessions[next.value := SessionRow(true, Some(NoteOpenedNext))];
        transitions := [OpenedNext(next.value)];
      }
    }
  }

  /**
   * `autoTransitionDrawSessions`: the registry afterwards is
   * `TransitionRows`; the report names today's and the next session, never
   * says the current session was closed, always says the next one was
   * opened, and lists each transition of `Transitions` exactly once.
   */
  method AutoTransitionDrawSessions(db: Store.Tables, now: Instant) returns (report: TransitionReport)
    modifies db`drawSessions
    ensures db.drawSessions == TransitionRows(old(db.drawSessions), now)
    ensures report.currentSession == CurrentDrawSession(now) && report.nextSession == NextDrawSession(now)
    ensures !report.currentClosed && report.nextOpened
    ensures forall x :: x in report.transitions <==> x in Transitions(old(db.drawSessions), now)
    ensures |report.transitions| == TransitionCount(old(db.drawSessions), now)
  {
    var currentSession, nextSession, clock := SearchTwoYears(now);
    ghost var rows := db.drawSessions;
    var closedCurrent := CloseCurrentAfterDraw(db, currentSession, clock);
    ghost var closed := db.drawSessions;
    var closedOthers := CloseOthers(db, nextSession);
    var openedNext := OpenNextSession(db, nextSession);
    var transitions := closedCurrent + closedOthers + openedNext;
    TransitionsAssembled(rows, currentSession, nextSession, clock, closedCurrent, closedOthers, openedNext);
    report := TransitionReport(
      currentSession,
      nextSession,
      if currentSession.Some? then clock.hour >= 14 && clock.minute >= 30 else false,
      nextSession.Some?,
      transitions);
  }
}
