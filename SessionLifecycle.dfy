/**
 * What the session-lifecycle operations of ThreeDDrawService compute, as
 * values: the per-session status listing of `getDrawSessionsWithStatus`
 * and the registry that `autoTransitionDrawSessions` leaves behind, with
 * the transitions it reports.  The methods of DrawService are proved equal
 * to these; the lemmas here say what the results mean.
 */
module SessionLifecycle {
  import opened Options
  import opened Dates
  import opened DrawCalendar
  import opened DrawSessionModel

  // ---------------------------------------------------------------------
  // getDrawSessionsWithStatus
  // ---------------------------------------------------------------------

  /** The `status` of a listed session. */
  datatype SessionStatus = Past | Current | Future

  /** One entry of `getDrawSessionsWithStatus`: `date`, `status`, `is_betting_open`, `is_open`. */
  datatype SessionView = SessionView(date: Date, status: SessionStatus, isBettingOpen: bool, isOpen: bool)

  /**
   * The status the loop gives `session` when its clock variable reads
   * `clock`, and what the clock reads afterwards: `lt` first, and only
   * when that fails, `eq($currentDate->startOfDay())`, which resets the
   * clock to midnight for the rest of the loop.
   */
  function StatusStep(session: Date, clock: DateTime): (SessionStatus, DateTime) {
    if Earlier(Midnight(session), clock) then (Past, clock)
    else
      var reset := StartOfDay(clock);
      (if Midnight(session) == reset then Current else Future, reset)
  }

  /** The entry for `session` with the given status: the stored flag, or open exactly when the status is current. */
  function View(session: Date, status: SessionStatus, rows: Registry, now: Instant): SessionView {
    SessionView(session, status, IsBettingOpen(session, now),
                if session in rows then rows[session].isOpen else status == Current)
  }

  /** The entries the loop appends for `sessions` when its clock variable starts at `clock`. */
  function ListingFrom(sessions: seq<Date>, rows: Registry, clock: DateTime, now: Instant): (r: seq<SessionView>)
    ensures |r| == |sessions|
  {
    if sessions == [] then []
    else
      var (status, after) := StatusStep(sessions[0], clock);
      [View(sessions[0], status, rows, now)] + ListingFrom(sessions[1..], rows, after, now)
  }

  /** The listing has one entry per session, in the order of `sessions`. */
  lemma {:induction false} ListingKeepsOrder(sessions: seq<Date>, rows: Registry, clock: DateTime, now: Instant)
    ensures forall i :: 0 <= i < |sessions| ==> ListingFrom(sessions, rows, clock, now)[i].date == sessions[i]
    decreases |sessions|
  {
    if sessions != [] {
      var after := StatusStep(sessions[0], clock).1;
      ListingKeepsOrder(sessions[1..], rows, after, now);
      var l := ListingFrom(sessions, rows, clock, now);
      forall i | 0 <= i < |sessions| ensures l[i].date == sessions[i] {
        if i > 0 {
          assert l[i] == ListingFrom(sessions[1..], rows, after, now)[i - 1];
        }
      }
    }
  }

  /** One step of the listing from position `i` on. */
  lemma ListingStep(sessions: seq<Date>, i: nat, rows: Registry, clock: DateTime, now: Instant)
    requires i < |sessions|
    ensures ListingFrom(sessions[i..], rows, clock, now)
         == [View(sessions[i], StatusStep(sessions[i], clock).0, rows, now)]
            + ListingFrom(sessions[i + 1..], rows, StatusStep(sessions[i], clock).1, now)
  {
    assert sessions[i..][1..] == sessions[i + 1..];
  }

  /** The status of a session judged against the unmodified clock. */
  function StatusAsWritten(session: Date, now: Instant): SessionStatus {
    if Earlier(Midnight(session), now) then Past
    else if session == now.date then Current
    else Future
  }

  /**
   * On an ascending list the clock reset never changes a verdict: every
   * entry carries the status `StatusAsWritten` gives it against `now`.
   */
  lemma {:induction false} ListingOfAscending(sessions: seq<Date>, rows: Registry, clock: DateTime, now: Instant)
    requires Ascending(sessions)
    requires clock == now || (clock == StartOfDay(now) && forall i :: 0 <= i < |sessions| ==> Before(now.date, sessions[i]))
    ensures forall i :: 0 <= i < |sessions| ==>
              ListingFrom(sessions, rows, clock, now)[i] == View(sessions[i], StatusAsWritten(sessions[i], now), rows, now)
    decreases |sessions|
  {
    if sessions != [] {
      var s := sessions[0];
      var (status, after) := StatusStep(s, clock);
      var rest := sessions[1..];
      assert Ascending(rest);
      MidnightEarlierIff(s, now);
      if clock == now && !Earlier(Midnight(s), now) {
        forall i | 0 <= i < |rest| ensures Before(now.date, rest[i]) {
          assert rest[i] == sessions[i + 1];
        }
      }
      ListingOfAscending(rest, rows, after, now);
      var l := ListingFrom(sessions, rows, clock, now);
      assert l == [View(s, status, rows, now)] + ListingFrom(rest, rows, after, now);
      forall i | 0 <= i < |sessions|
        ensures l[i] == View(sessions[i], StatusAsWritten(sessions[i], now), rows, now)
      {
        if i > 0 {
          assert sessions[i] == rest[i - 1];
        }
      }
    }
  }

  /**
   * The draw day itself is listed as past at every moment of that day
   * except 00:00:00, when it is current; earlier days are past and later
   * days future.
   */
  lemma StatusAsWrittenCases(session: Date, now: Instant)
    ensures Before(session, now.date) ==> StatusAsWritten(session, now) == Past
    ensures Before(now.date, session) ==> StatusAsWritten(session, now) == Future
    ensures StatusAsWritten(now.date, now) == (if SecondOfDay(now) == 0 then Current else Past)
  {
    MidnightEarlierIff(session, now);
    MidnightEarlierIff(now.date, now);
  }

  /** At 10:00 on the draw day of 1 February 2025 the listing calls that session past while betting on it is still open. */
  lemma PastWhileBettingOpen()
    ensures var now: Instant := DateTime(Date(2025, 2, 1), 10, 0, 0);
            StatusAsWritten(Date(2025, 2, 1), now) == Past && IsBettingOpen(Date(2025, 2, 1), now)
  {
    var now: Instant := DateTime(Date(2025, 2, 1), 10, 0, 0);
    StatusAsWrittenCases(Date(2025, 2, 1), now);
  }

  /** The status the listing evidently means: past, current (the whole draw day) or future by calendar day. */
  function IntendedStatus(session: Date, now: Instant): (status: SessionStatus)
    ensures status == Current <==> session == now.date
    ensures status == Past <==> Before(session, now.date)
    ensures status == Future <==> Before(now.date, session)
  {
    if Before(session, now.date) then Past
    else if session == now.date then Current
    else Future
  }

  /** The listing as written agrees with the intended status everywhere except on the draw day after midnight. */
  lemma StatusAsWrittenAgreement(session: Date, now: Instant)
    ensures StatusAsWritten(session, now) == IntendedStatus(session, now) <==> session != now.date || SecondOfDay(now) == 0
  {
    StatusAsWrittenCases(session, now);
    MidnightEarlierIff(session, now);
  }

  /** Laravel's `firstWhere('date', d)`: the first entry dated `d`. */
  function FirstWithDate(l: seq<SessionView>, d: Date): (r: Option<SessionView>)
    ensures r.Some? ==> r.value in l && r.value.date == d
    ensures r.None? ==> forall i :: 0 <= i < |l| ==> l[i].date != d
  {
    if l == [] then None
    else if l[0].date == d then Some(l[0])
    else FirstWithDate(l[1..], d)
  }

  lemma {:induction false} FirstWithDateAt(l: seq<SessionView>, k: nat)
    requires k < |l|
    requires forall j :: 0 <= j < k ==> l[j].date != l[k].date
    ensures FirstWithDate(l, l[k].date) == Some(l[k])
  {
    if k > 0 {
      forall j | 0 <= j < k - 1 ensures l[1..][j].date != l[1..][k - 1].date {
        assert l[1..][j] == l[j + 1];
      }
      FirstWithDateAt(l[1..], k - 1);
    }
  }

  /** In the listing of an ascending list, the entry of a listed day is found and carries that day's status. */
  lemma ListedDayFound(sessions: seq<Date>, rows: Registry, now: Instant, d: Date)
    requires Ascending(sessions) && d in sessions
    ensures FirstWithDate(ListingFrom(sessions, rows, now, now), d) == Some(View(d, StatusAsWritten(d, now), rows, now))
  {
    var k :| 0 <= k < |sessions| && sessions[k] == d;
    var l := ListingFrom(sessions, rows, now, now);
    ListingOfAscending(sessions, rows, now, now);
    forall j | 0 <= j < k ensures l[j].date != l[k].date {
      assert Before(sessions[j], sessions[k]);
    }
    FirstWithDateAt(l, k);
  }

  // ---------------------------------------------------------------------
  // autoTransitionDrawSessions
  // ---------------------------------------------------------------------

  const NoteClosedAfterDraw: string := "Automatically closed after draw time"
  const NoteClosedToKeepOne: string := "Automatically closed to ensure only one session is open"
  const NoteOpenedNext: string := "Automatically opened as next draw session"

  /**
   * An entry of `$transitions`: "Closed current session: d", "Closed
   * session: d" and "Opened next session: d".
   */
  datatype Transition = ClosedCurrent(session: Date) | ClosedOther(session: Date) | OpenedNext(session: Date)

  /** The array `autoTransitionDrawSessions` returns. */
  datatype TransitionReport = TransitionReport(
    currentSession: Option<Date>,
    nextSession: Option<Date>,
    currentClosed: bool,
    nextOpened: bool,
    transitions: seq<Transition>)

  /** The draw-time test as written: `hour >= 14 && minute >= 30`. */
  predicate DrawTimeAsWritten(clock: DateTime) {
    clock.hour >= 14 && clock.minute >= 30
  }

  /** Whether the first step closes the current session's row. */
  predicate ClosesCurrent(rows: Registry, current: Option<Date>, clock: DateTime) {
    current.Some? && DrawTimeAsWritten(clock) && current.value in rows && rows[current.value].isOpen
  }

  /** The registry after the first step. */
  function CloseCurrentRows(rows: Registry, current: Option<Date>, clock: DateTime): Registry {
    if ClosesCurrent(rows, current, clock) then rows[current.value := SessionRow(false, Some(NoteClosedAfterDraw))]
    else rows
  }

  /** The open rows the sweep closes: all of them except the next session's. */
  function ToClose(rows: Registry, next: Option<Date>): set<Date> {
    set d | d in rows && rows[d].isOpen && next != Some(d)
  }

  /** The registry after the sweep. */
  function SweepRows(rows: Registry, next: Option<Date>): Registry {
    map d | d in rows :: if d in ToClose(rows, next) then SessionRow(false, Some(NoteClosedToKeepOne)) else rows[d]
  }

  /** Whether the last step opens the next session's row: only an existing, closed one. */
  predicate OpensNext(rows: Registry, next: Option<Date>) {
    next.Some? && next.value in rows && !rows[next.value].isOpen
  }

  /** The registry after the last step. */
  function OpenNextRows(rows: Registry, next: Option<Date>): Registry {
    if OpensNext(rows, next) then rows[next.value := SessionRow(true, Some(NoteOpenedNext))]
    else rows
  }

  /** The three steps, for given current and next sessions and the clock the first step reads. */
  function TransitionRowsWith(rows: Registry, current: Option<Date>, next: Option<Date>, clock: DateTime): Registry {
    OpenNextRows(SweepRows(CloseCurrentRows(rows, current, clock), next), next)
  }

  /** The transitions the three steps report, as a set. */
  function TransitionsWith(rows: Registry, current: Option<Date>, next: Option<Date>, clock: DateTime): set<Transition> {
    var closed := CloseCurrentRows(rows, current, clock);
    (if ClosesCurrent(rows, current, clock) then {ClosedCurrent(current.value)} else {})
    + (set d | d in ToClose(closed, next) :: ClosedOther(d))
    + (if OpensNext(SweepRows(closed, next), next) then {OpenedNext(next.value)} else {})
  }

  /** How many transitions the three steps report. */
  function TransitionCountWith(rows: Registry, current: Option<Date>, next: Option<Date>, clock: DateTime): nat {
    var closed := CloseCurrentRows(rows, current, clock);
    (if ClosesCurrent(rows, current, clock) then 1 else 0)
    + |ToClose(closed, next)|
    + (if OpensNext(SweepRows(closed, next), next) then 1 else 0)
  }

  /**
   * `autoTransitionDrawSessions` at `now`: the first step reads the clock
   * after the search loop has reset it to midnight.
   */
  function TransitionRows(rows: Registry, now: Instant): Registry {
    TransitionRowsWith(rows, CurrentDrawSession(now), NextDrawSession(now), StartOfDay(now))
  }

  function Transitions(rows: Registry, now: Instant): set<Transition> {
    TransitionsWith(rows, CurrentDrawSession(now), NextDrawSession(now), StartOfDay(now))
  }

  function TransitionCount(rows: Registry, now: Instant): nat {
    TransitionCountWith(rows, CurrentDrawSession(now), NextDrawSession(now), StartOfDay(now))
  }

  /** The time test never holds at midnight, so the first step never changes the registry. */
  lemma CloseCurrentNeverFires(rows: Registry, current: Option<Date>, now: Instant)
    ensures !DrawTimeAsWritten(StartOfDay(now))
    ensures !ClosesCurrent(rows, current, StartOfDay(now)) && CloseCurrentRows(rows, current, StartOfDay(now)) == rows
  {
  }

  /** At 15:10 the test as written fails although 14:30 has passed. */
  lemma DrawTimeTestMissesQuarterPast()
    ensures var t := DateTime(Date(2025, 2, 1), 15, 10, 0);
            !DrawTimeAsWritten(t) && Earlier(DateTime(Date(2025, 2, 1), 14, 30, 0), t)
  {
  }

  /** 14:30, the draw time, as a second of the day. */
  const DrawSecond: nat := 14 * 3600 + 30 * 60

  /** The evidently intended test, read from the unmodified clock: 14:30 has been reached. */
  predicate DrawTimeReached(now: Instant) {
    SecondOfDay(now) >= DrawSecond
  }

  /** The intended first step: close the current session's open row once the draw time has been reached. */
  function CloseCurrentIntended(rows: Registry, current: Option<Date>, now: Instant): (r: Registry)
    ensures r.Keys == rows.Keys
    ensures forall d :: d in rows && Some(d) != current ==> r[d] == rows[d]
    ensures current.Some? && current.value in rows ==>
              r[current.value].isOpen == (rows[current.value].isOpen && !DrawTimeReached(now))
  {
    if current.Some? && DrawTimeReached(now) && current.value in rows && rows[current.value].isOpen
    then rows[current.value := SessionRow(false, Some(NoteClosedAfterDraw))]
    else rows
  }

  /** The intended test holds exactly when the reading is not earlier than 14:30 of its own day. */
  lemma DrawTimeReachedIff(now: Instant)
    ensures DrawTimeReached(now) <==> !Earlier(now, DateTime(now.date, 14, 30, 0))
  {
  }

  /** The registry part-way through the sweep: exactly the rows in `done` have been closed. */
  ghost predicate SweptSoFar(current: Registry, rows: Registry, done: set<Date>) {
    && current.Keys == rows.Keys
    && forall d :: d in rows ==> current[d] == if d in done then SessionRow(false, Some(NoteClosedToKeepOne)) else rows[d]
  }

  /** `t` reports the closing of each day of `done` once, and nothing else. */
  ghost predicate ReportsClosed(t: seq<Transition>, done: set<Date>) {
    && (forall x :: x in t <==> x.ClosedOther? && x.session in done)
    && |t| == |done|
  }

  /** Closing one more row, and reporting it. */
  lemma SweepStep(current: Registry, rows: Registry, done: set<Date>, t: seq<Transition>, d: Date)
    requires SweptSoFar(current, rows, done) && ReportsClosed(t, done)
    requires d in rows && d !in done
    ensures SweptSoFar(current[d := SessionRow(false, Some(NoteClosedToKeepOne))], rows, done + {d})
    ensures ReportsClosed(t + [ClosedOther(d)], done + {d})
  {
    assert |done + {d}| == |done| + 1;
  }

  /** Once every row to close has been closed, the registry is `SweepRows`. */
  lemma SweepFinished(current: Registry, rows: Registry, next: Option<Date>)
    requires SweptSoFar(current, rows, ToClose(rows, next))
    ensures current == SweepRows(rows, next)
  {
  }

  /** A report of closings lists exactly the `ClosedOther` images of its days. */
  lemma ReportsClosedImage(t: seq<Transition>, done: set<Date>)
    requires ReportsClosed(t, done)
    ensures forall x :: x in t <==> x in (set d | d in done :: ClosedOther(d))
  {
    forall x ensures x in t <==> x in (set d | d in done :: ClosedOther(d)) {
      if x.ClosedOther? && x.session in done {
        assert x == ClosedOther(x.session);
      }
    }
  }

  /** The three steps' reports together list exactly the members of `TransitionsWith`. */
  lemma TransitionsListed(rows: Registry, current: Option<Date>, next: Option<Date>, clock: DateTime,
                          t1: seq<Transition>, t2: seq<Transition>, t3: seq<Transition>)
    requires t1 == if ClosesCurrent(rows, current, clock) then [ClosedCurrent(current.value)] else []
    requires ReportsClosed(t2, ToClose(CloseCurrentRows(rows, current, clock), next))
    requires t3 == if OpensNext(SweepRows(CloseCurrentRows(rows, current, clock), next), next) then [OpenedNext(next.value)] else []
    ensures forall x :: x in t1 + t2 + t3 <==> x in TransitionsWith(rows, current, next, clock)
  {
    var closed := CloseCurrentRows(rows, current, clock);
    var toClose := ToClose(closed, next);
    var first := if ClosesCurrent(rows, current, clock) then {ClosedCurrent(current.value)} else {};
    var last := if OpensNext(SweepRows(closed, next), next) then {OpenedNext(next.value)} else {};
    var image := set d | d in toClose :: ClosedOther(d);
    assert TransitionsWith(rows, current, next, clock) == first + image + last;
    ReportsClosedImage(t2, toClose);
    forall x ensures x in t1 + t2 + t3 <==> x in first + image + last {
      assert x in t1 + t2 + t3 <==> x in t1 || x in t2 || x in t3;
      assert x in t1 <==> x in first;
      assert x in t3 <==> x in last;
    }
  }

  /** The three steps' reports are as long as `TransitionCountWith` counts. */
  lemma TransitionsCounted(rows: Registry, current: Option<Date>, next: Option<Date>, clock: DateTime,
                           t1: seq<Transition>, t2: seq<Transition>, t3: seq<Transition>)
    requires t1 == if ClosesCurrent(rows, current, clock) then [ClosedCurrent(current.value)] else []
    requires ReportsClosed(t2, ToClose(CloseCurrentRows(rows, current, clock), next))
    requires t3 == if OpensNext(SweepRows(CloseCurrentRows(rows, current, clock), next), next) then [OpenedNext(next.value)] else []
    ensures |t1 + t2 + t3| == TransitionCountWith(rows, current, next, clock)
  {
    assert |t2| == |ToClose(CloseCurrentRows(rows, current, clock), next)|;
  }

  /** The three steps' reports together list `TransitionsWith`, each once. */
  lemma TransitionsAssembled(rows: Registry, current: Option<Date>, next: Option<Date>, clock: DateTime,
                             t1: seq<Transition>, t2: seq<Transition>, t3: seq<Transition>)
    requires t1 == if ClosesCurrent(rows, current, clock) then [ClosedCurrent(current.value)] else []
    requires ReportsClosed(t2, ToClose(CloseCurrentRows(rows, current, clock), next))
    requires t3 == if OpensNext(SweepRows(CloseCurrentRows(rows, current, clock), next), next) then [OpenedNext(next.value)] else []
    ensures forall x :: x in t1 + t2 + t3 <==> x in TransitionsWith(rows, current, next, clock)
    ensures |t1 + t2 + t3| == TransitionCountWith(rows, current, next, clock)
  {
    TransitionsListed(rows, current, next, clock, t1, t2, t3);
    TransitionsCounted(rows, current, next, clock, t1, t2, t3);
  }

  /** The three steps never add or remove a row. */
  lemma TransitionKeepsRows(rows: Registry, current: Option<Date>, next: Option<Date>, clock: DateTime)
    ensures TransitionRowsWith(rows, current, next, clock).Keys == rows.Keys
  {
    var closed := CloseCurrentRows(rows, current, clock);
    assert SweepRows(closed, next).Keys == closed.Keys;
  }

  /**
   * After the three steps the only open row is the next session's: it is
   * open when it exists, and every other row is closed.
   */
  lemma TransitionLeavesOnlyNextOpen(rows: Registry, current: Option<Date>, next: Option<Date>, clock: DateTime)
    ensures OpenSessions(TransitionRowsWith(rows, current, next, clock))
         == if next.Some? && next.value in rows then {next.value} else {}
  {
    var closed := CloseCurrentRows(rows, current, clock);
    var swept := SweepRows(closed, next);
    var after := OpenNextRows(swept, next);
    TransitionKeepsRows(rows, current, next, clock);
    forall d | d in after ensures after[d].isOpen <==> next == Some(d) {
      assert d in swept;
    }
  }

  /** A second run with the same sessions and no writes in between changes nothing and reports nothing. */
  lemma TransitionIdempotent(rows: Registry, current: Option<Date>, next: Option<Date>, clock: DateTime)
    requires !DrawTimeAsWritten(clock)
    ensures var after := TransitionRowsWith(rows, current, next, clock);
            TransitionRowsWith(after, current, next, clock) == after
            && TransitionsWith(after, current, next, clock) == {}
            && TransitionCountWith(after, current, next, clock) == 0
  {
    var after := TransitionRowsWith(rows, current, next, clock);
    TransitionLeavesOnlyNextOpen(rows, current, next, clock);
    TransitionKeepsRows(rows, current, next, clock);
    assert CloseCurrentRows(after, current, clock) == after;
    assert ToClose(after, next) == {};
    assert SweepRows(after, next) == after;
    assert !OpensNext(after, next);
  }

  /**
   * After `autoTransitionDrawSessions` at `now` no row is open except the
   * next session's; in particular a draw day's own row is closed by the
   * sweep whatever the time.
   */
  lemma AutoTransitionLeavesNextOpen(rows: Registry, now: Instant)
    ensures NextDrawSession(now).Some?
    ensures OpenSessions(TransitionRows(rows, now))
         == if NextDrawSession(now).value in rows then {NextDrawSession(now).value} else {}
    ensures now.date in rows ==> !TransitionRows(rows, now)[now.date].isOpen
    ensures TransitionRows(rows, now).Keys == rows.Keys
  {
    NextDrawSessionIsEarliest(now);
    var current, next, clock := CurrentDrawSession(now), NextDrawSession(now), StartOfDay(now);
    TransitionLeavesOnlyNextOpen(rows, current, next, clock);
    TransitionKeepsRows(rows, current, next, clock);
    if now.date in rows {
      assert now.date != next.value;
      assert now.date !in OpenSessions(TransitionRows(rows, now));
    }
  }

  /** Running `autoTransitionDrawSessions` twice at the same instant: the second run changes nothing and reports no transition. */
  lemma AutoTransitionIdempotent(rows: Registry, now: Instant)
    ensures TransitionRows(TransitionRows(rows, now), now) == TransitionRows(rows, now)
    ensures Transitions(TransitionRows(rows, now), now) == {}
    ensures TransitionCount(TransitionRows(rows, now), now) == 0
  {
    TransitionIdempotent(rows, CurrentDrawSession(now), NextDrawSession(now), StartOfDay(now));
  }
}
