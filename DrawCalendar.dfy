/**
 * The draw calendar of ThreeDDrawService as values: the semi-monthly
 * sessions of a year, the next, current and last session relative to a
 * clock reading, the betting-time gate and the month filter, with the
 * properties the service relies on.
 */
module DrawCalendar {
  import opened Options
  import opened Dates

  // ---------------------------------------------------------------------
  // The calendar
  // ---------------------------------------------------------------------

  /** The draw days of a year: January 16, the 1st and 16th of February to December, and December 30. */
  predicate IsDrawDay(month: int, day: int) {
    (month == 1 && day == 16)
    || (2 <= month <= 12 && (day == 1 || day == 16))
    || (month == 12 && day == 30)
  }

  predicate Scheduled(d: Date) {
    IsDrawDay(d.month, d.day)
  }

  /** What the `for ($month = …; $month <= 12; …)` loop appends from `month` on. */
  function MonthPairs(year: int, month: int): seq<Date>
    decreases 13 - month
  {
    if month > 12 then []
    else [Date(year, month, 1), Date(year, month, 16)] + MonthPairs(year, month + 1)
  }

  /** The sessions `getDrawSessionsForYear` lists, in its order. */
  function Calendar(year: int): seq<Date> {
    [Date(year, 1, 16)] + MonthPairs(year, 2) + [Date(year, 12, 30)]
  }

  /** Strictly increasing dates. */
  ghost predicate Ascending(s: seq<Date>) {
    forall i, j :: 0 <= i < j < |s| ==> Before(s[i], s[j])
  }

  lemma AscendingConcat(a: seq<Date>, b: seq<Date>)
    requires Ascending(a) && Ascending(b)
    requires forall i, j :: 0 <= i < |a| && 0 <= j < |b| ==> Before(a[i], b[j])
    ensures Ascending(a + b)
  {
    var c := a + b;
    forall i, j | 0 <= i < j < |c| ensures Before(c[i], c[j]) {
      if j < |a| {
        assert c[i] == a[i] && c[j] == a[j];
      } else if i < |a| {
        assert c[i] == a[i] && c[j] == b[j - |a|];
      } else {
        assert c[i] == b[i - |a|] && c[j] == b[j - |a|];
      }
    }
  }

  lemma {:induction false} MonthPairsFacts(year: int, month: int)
    requires 2 <= month <= 13
    ensures |MonthPairs(year, month)| == 2 * (13 - month)
    ensures Ascending(MonthPairs(year, month))
    ensures forall d :: d in MonthPairs(year, month) <==>
              d.year == year && month <= d.month <= 12 && (d.day == 1 || d.day == 16)
    decreases 13 - month
  {
    if month <= 12 {
      MonthPairsFacts(year, month + 1);
      var head := [Date(year, month, 1), Date(year, month, 16)];
      var rest := MonthPairs(year, month + 1);
      assert MonthPairs(year, month) == head + rest;
      forall i, j | 0 <= i < |head| && 0 <= j < |rest| ensures Before(head[i], rest[j]) {
        assert rest[j] in rest;
      }
      AscendingConcat(head, rest);
    }
  }

  lemma CalendarShape(year: int)
    ensures Calendar(year) == [Date(year, 1, 16)] + MonthPairs(year, 2) + [Date(year, 12, 30)]
    ensures |MonthPairs(year, 2)| == 22
    ensures |Calendar(year)| == 24
    ensures Calendar(year)[0] == Date(year, 1, 16) && Calendar(year)[23] == Date(year, 12, 30)
  {
    MonthPairsFacts(year, 2);
  }

  lemma AscendingFramed(first: Date, mid: seq<Date>, last: Date)
    requires Ascending(mid)
    requires forall j :: 0 <= j < |mid| ==> Before(first, mid[j]) && Before(mid[j], last)
    requires Before(first, last)
    ensures Ascending([first] + mid + [last])
  {
    AscendingConcat([first], mid);
    AscendingConcat([first] + mid, [last]);
  }

  lemma CalendarAscending(year: int)
    ensures Ascending(Calendar(year))
  {
    MonthPairsFacts(year, 2);
    var mid := MonthPairs(year, 2);
    forall j | 0 <= j < |mid| ensures Before(Date(year, 1, 16), mid[j]) && Before(mid[j], Date(year, 12, 30)) {
      assert mid[j] in mid;
    }
    AscendingFramed(Date(year, 1, 16), mid, Date(year, 12, 30));
  }

  lemma CalendarMembers(year: int)
    ensures forall d :: d in Calendar(year) <==> d.year == year && Scheduled(d)
  {
    MonthPairsFacts(year, 2);
    var mid := MonthPairs(year, 2);
    assert Calendar(year) == [Date(year, 1, 16)] + mid + [Date(year, 12, 30)];
    forall d ensures d in Calendar(year) <==> d.year == year && Scheduled(d) {
      calc {
        d in Calendar(year);
      ==
        d == Date(year, 1, 16) || d in mid || d == Date(year, 12, 30);
      }
    }
  }

  /**
   * Every year has 24 sessions in strictly ascending order, from January 16
   * to December 30, and they are exactly that year's draw days.
   */
  lemma CalendarFacts(year: int)
    ensures |Calendar(year)| == 24
    ensures Ascending(Calendar(year))
    ensures Calendar(year)[0] == Date(year, 1, 16) && Calendar(year)[23] == Date(year, 12, 30)
    ensures forall d :: d in Calendar(year) <==> d.year == year && Scheduled(d)
  {
    CalendarShape(year);
    CalendarAscending(year);
    CalendarMembers(year);
  }

  /** Every session of the calendar is a real calendar day. */
  lemma CalendarDatesValid(year: int)
    ensures forall d :: d in Calendar(year) ==> ValidDate(d)
  {
    CalendarFacts(year);
  }

  /** The year `getDrawSessionsForYear` uses: the argument, or the current year when it is null or 0. */
  function YearOrNow(year: Option<int>, now: Instant): int {
    if year.None? || year.value == 0 then now.date.year else year.value
  }

  /** Two consecutive years' sessions, as `getNextDrawSession` and `getLastDrawSession` merge them. */
  function TwoYears(year: int): seq<Date> {
    Calendar(year) + Calendar(year + 1)
  }

  lemma TwoYearsShape(year: int)
    ensures |TwoYears(year)| == 48
    ensures TwoYears(year)[0] == Date(year, 1, 16)
    ensures TwoYears(year)[47] == Date(year + 1, 12, 30)
  {
    CalendarShape(year);
    CalendarShape(year + 1);
  }

  lemma TwoYearsAscending(year: int)
    ensures Ascending(TwoYears(year))
  {
    CalendarAscending(year);
    CalendarAscending(year + 1);
    CalendarMembers(year);
    CalendarMembers(year + 1);
    var a, b := Calendar(year), Calendar(year + 1);
    forall i, j | 0 <= i < |a| && 0 <= j < |b| ensures Before(a[i], b[j]) {
      assert a[i] in a && b[j] in b;
    }
    AscendingConcat(a, b);
  }

  lemma TwoYearsMembers(year: int)
    ensures forall d :: d in TwoYears(year) <==> (d.year == year || d.year == year + 1) && Scheduled(d)
  {
    CalendarMembers(year);
    CalendarMembers(year + 1);
  }
  /** An ascending list of 48 sessions holding exactly the draw days of `year` and `year + 1`, from January 16 to December 30. */
  ghost predicate ListsTwoYears(s: seq<Date>, year: int) {
    && Ascending(s) && |s| == 48
    && s[0] == Date(year, 1, 16) && s[47] == Date(year + 1, 12, 30)
    && forall d :: d in s <==> (d.year == year || d.year == year + 1) && Scheduled(d)
  }

  lemma TwoYearsListed(year: int)
    ensures ListsTwoYears(TwoYears(year), year)
  {
    TwoYearsShape(year);
    TwoYearsAscending(year);
    TwoYearsMembers(year);
  }


  // ---------------------------------------------------------------------
  // Next, current and last session
  // ---------------------------------------------------------------------

  /** Position of the first session strictly after the day `today` (|s| when there is none). */
  function FirstAfter(s: seq<Date>, today: Date): (k: nat)
    ensures k <= |s|
  {
    if s == [] then 0
    else if Before(today, s[0]) then 0
    else 1 + FirstAfter(s[1..], today)
  }

  /** Every session before position `FirstAfter` is on or before `today`, and the one at it is after. */
  lemma {:induction false} FirstAfterFacts(s: seq<Date>, today: Date)
    ensures forall j :: 0 <= j < FirstAfter(s, today) ==> !Before(today, s[j])
    ensures FirstAfter(s, today) < |s| ==> Before(today, s[FirstAfter(s, today)])
  {
    if s != [] && !Before(today, s[0]) {
      FirstAfterFacts(s[1..], today);
    }
  }

  /** The first session of `s` strictly after the day `today`, if any. */
  function FirstSessionAfter(s: seq<Date>, today: Date): Option<Date> {
    var k := FirstAfter(s, today);
    if k < |s| then Some(s[k]) else None
  }

  /** In an ascending list, the first session after `today` is one of the list, after `today`, and no later than any other such. */
  lemma FirstSessionAfterIsEarliest(s: seq<Date>, today: Date, d: Date)
    requires Ascending(s)
    requires d in s && Before(today, d)
    ensures FirstSessionAfter(s, today).Some?
    ensures FirstSessionAfter(s, today).value in s
    ensures Before(today, FirstSessionAfter(s, today).value)
    ensures !Before(d, FirstSessionAfter(s, today).value)
  {
    FirstAfterFacts(s, today);
    var i :| 0 <= i < |s| && s[i] == d;
    var k := FirstAfter(s, today);
    assert k <= i;
    assert k == i || Before(s[k], s[i]);
  }

  /** A scan that stops at the first session after `today` stops at `FirstAfter`. */
  lemma FirstAfterAt(s: seq<Date>, today: Date, i: nat)
    requires i < |s|
    requires forall j :: 0 <= j < i ==> !Before(today, s[j])
    requires Before(today, s[i])
    ensures FirstAfter(s, today) == i
  {
    FirstAfterFacts(s, today);
  }

  /** `getNextDrawSession`, as a value: the first of this and next year's sessions whose midnight is later than now. */
  function NextDrawSession(now: Instant): Option<Date> {
    FirstSessionAfter(TwoYears(now.date.year), now.date)
  }

  /** The next-session property for any ascending list holding exactly the draw days of `year` and `year + 1`. */
  lemma NextInTwoYears(s: seq<Date>, today: Date, year: int)
    requires ListsTwoYears(s, year) && today.year == year
    ensures FirstSessionAfter(s, today).Some?
    ensures Scheduled(FirstSessionAfter(s, today).value) && Before(today, FirstSessionAfter(s, today).value)
    ensures forall d :: Scheduled(d) && Before(today, d) ==> !Before(d, FirstSessionAfter(s, today).value)
  {
    assert s[47] in s;
    FirstSessionAfterIsEarliest(s, today, s[47]);
    forall d | Scheduled(d) && Before(today, d) ensures !Before(d, FirstSessionAfter(s, today).value) {
      if d.year <= year + 1 {
        FirstSessionAfterIsEarliest(s, today, d);
      }
    }
  }

  /**
   * There always is a next session (next year's are searched too), and it
   * is the earliest draw day strictly after today.
   */
  lemma NextDrawSessionIsEarliest(now: Instant)
    ensures NextDrawSession(now).Some?
    ensures Scheduled(NextDrawSession(now).value) && Before(now.date, NextDrawSession(now).value)
    ensures forall d :: Scheduled(d) && Before(now.date, d) ==> !Before(d, NextDrawSession(now).value)
  {
    var y := now.date.year;
    var all := TwoYears(y);
    assert NextDrawSession(now) == FirstSessionAfter(all, now.date);
    TwoYearsListed(y);
    NextInTwoYears(all, now.date, y);
  }

  /** `getCurrentDrawSession`: today, when today is a draw day. */
  function CurrentDrawSession(now: Instant): (r: Option<Date>)
    ensures r.Some? <==> Scheduled(now.date)
    ensures r.Some? ==> r.value == now.date
  {
    CalendarMembers(now.date.year);
    if now.date in Calendar(now.date.year) then Some(now.date) else None
  }

  /** Today is among this and next year's sessions exactly when `getCurrentDrawSession` finds it. */
  lemma CurrentInTwoYears(s: seq<Date>, now: Instant)
    requires ListsTwoYears(s, now.date.year)
    ensures (if now.date in s then Some(now.date) else None) == CurrentDrawSession(now)
  {
  }

  /** Position of the first session whose midnight is not earlier than now (|s| when there is none). */
  function FirstNotPast(s: seq<Date>, now: Instant): (k: nat)
    ensures k <= |s|
  {
    if s == [] then 0
    else if !Earlier(Midnight(s[0]), now) then 0
    else 1 + FirstNotPast(s[1..], now)
  }

  /** Every session before position `FirstNotPast` has a past midnight, and the one at it does not. */
  lemma {:induction false} FirstNotPastFacts(s: seq<Date>, now: Instant)
    ensures forall j :: 0 <= j < FirstNotPast(s, now) ==> Earlier(Midnight(s[j]), now)
    ensures FirstNotPast(s, now) < |s| ==> !Earlier(Midnight(s[FirstNotPast(s, now)]), now)
  {
    if s != [] && Earlier(Midnight(s[0]), now) {
      FirstNotPastFacts(s[1..], now);
    }
  }

  /** The session just before the first one of `s` whose midnight is not past, if any. */
  function LastSessionPast(s: seq<Date>, now: Instant): Option<Date> {
    var k := FirstNotPast(s, now);
    if k == 0 then None else Some(s[k - 1])
  }

  /** When a later day's midnight is past, so is an earlier day's. */
  lemma PastBeforeNotPast(a: Date, b: Date, now: Instant)
    requires Before(a, b) && Earlier(Midnight(b), now)
    ensures Earlier(Midnight(a), now)
  {
  }

  /** In an ascending list, the last past session is one of the list, past, and no earlier than any other past one. */
  lemma LastSessionPastIsLatest(s: seq<Date>, now: Instant, d: Date)
    requires Ascending(s)
    requires d in s && Earlier(Midnight(d), now)
    ensures LastSessionPast(s, now).Some?
    ensures LastSessionPast(s, now).value in s
    ensures Earlier(Midnight(LastSessionPast(s, now).value), now)
    ensures !Before(LastSessionPast(s, now).value, d)
  {
    FirstNotPastFacts(s, now);
    var i :| 0 <= i < |s| && s[i] == d;
    var k := FirstNotPast(s, now);
    if k <= i {
      if k < i {
        PastBeforeNotPast(s[k], s[i], now);
      }
      assert false;
    }
    if k - 1 != i {
      assert Before(s[i], s[k - 1]);
    }
  }

  /** A scan that records past sessions until the first one that is not past ends at `FirstNotPast`. */
  lemma FirstNotPastAt(s: seq<Date>, now: Instant, i: nat)
    requires i <= |s|
    requires forall j :: 0 <= j < i ==> Earlier(Midnight(s[j]), now)
    requires i < |s| ==> !Earlier(Midnight(s[i]), now)
    ensures FirstNotPast(s, now) == i
  {
    FirstNotPastFacts(s, now);
  }

  /** `getLastDrawSession`, as a value: of last and this year's sessions, the one just before the first whose midnight is not past. */
  function LastDrawSession(now: Instant): Option<Date> {
    LastSessionPast(TwoYears(now.date.year - 1), now)
  }

  /** The last-session property for any ascending list holding exactly the draw days of `year` and `year + 1`. */
  lemma LastInTwoYears(s: seq<Date>, now: Instant, year: int)
    requires ListsTwoYears(s, year) && now.date.year == year + 1
    ensures LastSessionPast(s, now).Some?
    ensures Scheduled(LastSessionPast(s, now).value) && Earlier(Midnight(LastSessionPast(s, now).value), now)
    ensures forall d :: Scheduled(d) && Earlier(Midnight(d), now) ==> !Before(LastSessionPast(s, now).value, d)
  {
    assert s[0] in s;
    LastSessionPastIsLatest(s, now, s[0]);
    forall d | Scheduled(d) && Earlier(Midnight(d), now) ensures !Before(LastSessionPast(s, now).value, d) {
      if d.year >= year {
        LastSessionPastIsLatest(s, now, d);
      }
    }
  }

  /**
   * There always is a last session (last year's are searched too), and it
   * is the latest draw day whose midnight lies strictly before now.
   */
  lemma LastDrawSessionIsLatest(now: Instant)
    ensures LastDrawSession(now).Some?
    ensures Scheduled(LastDrawSession(now).value) && Earlier(Midnight(LastDrawSession(now).value), now)
    ensures forall d :: Scheduled(d) && Earlier(Midnight(d), now) ==> !Before(LastDrawSession(now).value, d)
  {
    var previous := now.date.year - 1;
    var all := TwoYears(previous);
    assert LastDrawSession(now) == LastSessionPast(all, now);
    TwoYearsListed(previous);
    LastInTwoYears(all, now, previous);
  }

  // ---------------------------------------------------------------------
  // The betting-time gate and the month filter
  // ---------------------------------------------------------------------

  /** 12:30, the draw time 14:30 less two hours, as a second of the day. */
  const ClosingSecond: nat := 12 * 3600 + 30 * 60

  /** `isBettingOpen`: now is before 12:30 on the session's day. */
  function IsBettingOpen(session: Date, now: Instant): (open: bool)
    ensures open <==> Before(now.date, session) || (now.date == session && SecondOfDay(now) < ClosingSecond)
  {
    var closingTime := DateTime(session, 14, 30, 0).(hour := 14 - 2);
    Earlier(now, closingTime)
  }

  /** The sessions of `s` that fall in `month`, in order. */
  function InMonth(s: seq<Date>, month: int): seq<Date> {
    if s == [] then []
    else (if s[0].month == month then [s[0]] else []) + InMonth(s[1..], month)
  }

  lemma InMonthStep(s: seq<Date>, i: nat, month: int)
    requires i < |s|
    ensures InMonth(s[i..], month) == (if s[i].month == month then [s[i]] else []) + InMonth(s[i + 1..], month)
  {
    assert s[i..][1..] == s[i + 1..];
  }

  lemma {:induction false} InMonthConcat(a: seq<Date>, b: seq<Date>, month: int)
    ensures InMonth(a + b, month) == InMonth(a, month) + InMonth(b, month)
  {
    if a == [] {
      assert a + b == b;
    } else {
      var head := if a[0].month == month then [a[0]] else [];
      assert (a + b)[0] == a[0];
      assert (a + b)[1..] == a[1..] + b;
      InMonthConcat(a[1..], b, month);
      calc {
        InMonth(a + b, month);
        head + InMonth(a[1..] + b, month);
        head + (InMonth(a[1..], month) + InMonth(b, month));
        { assert head + (InMonth(a[1..], month) + InMonth(b, month)) == (head + InMonth(a[1..], month)) + InMonth(b, month); }
        InMonth(a, month) + InMonth(b, month);
      }
    }
  }

  lemma {:induction false} InMonthPairs(year: int, from: int, month: int)
    requires 2 <= from <= 13
    ensures InMonth(MonthPairs(year, from), month)
            == if from <= month <= 12 then [Date(year, month, 1), Date(year, month, 16)] else []
    decreases 13 - from
  {
    if from <= 12 {
      var head := [Date(year, from, 1), Date(year, from, 16)];
      assert MonthPairs(year, from) == head + MonthPairs(year, from + 1);
      InMonthConcat(head, MonthPairs(year, from + 1), month);
      InMonthPairs(year, from + 1, month);
      assert InMonth(head, month) == if from == month then head else [] by {
        assert head[1..] == [Date(year, from, 16)];
        assert InMonth(head[1..], month) == (if from == month then [Date(year, from, 16)] else []) + InMonth([], month);
      }
    }
  }

  /**
   * The sessions of a month: January 16 alone in January, the 1st and 16th
   * in February to November, those and the 30th in December, none for any
   * other month number.
   */
  lemma MonthSessions(year: int, month: int)
    ensures InMonth(Calendar(year), month) ==
      if month == 1 then [Date(year, 1, 16)]
      else if 2 <= month <= 11 then [Date(year, month, 1), Date(year, month, 16)]
      else if month == 12 then [Date(year, 12, 1), Date(year, 12, 16), Date(year, 12, 30)]
      else []
    ensures |InMonth(Calendar(year), month)| == if month == 1 then 1 else if 2 <= month <= 11 then 2 else if month == 12 then 3 else 0
  {
    InMonthConcat([Date(year, 1, 16)] + MonthPairs(year, 2), [Date(year, 12, 30)], month);
    InMonthConcat([Date(year, 1, 16)], MonthPairs(year, 2), month);
    InMonthPairs(year, 2, month);
    assert InMonth([Date(year, 1, 16)], month) == if month == 1 then [Date(year, 1, 16)] else [];
    assert InMonth([Date(year, 12, 30)], month) == if month == 12 then [Date(year, 12, 30)] else [];
  }
}
