/**
 * The number map of the admin `dailyLedger` page: for one draw session and
 * one game date, the stake on every number from 000 to 999, summed over the
 * stored bets (only the agent's own bets when an agent or sub-agent looks),
 * 0 where nothing was bet.  When no session is chosen, the page uses the
 * first session of the current year not before today, or the year's last.
 */
module DailyLedger {
  import opened Options
  import opened Dates
  import opened Digits
  import opened Wallets
  import opened DrawCalendar
  import opened Bets
  import opened DrawService

  /** The user looking at the page: agents and sub-agents only see their own players' bets. */
  datatype Viewer = Viewer(id: UserId, isAgent: bool)

  /** The `agent_id` filter of the query, if any. */
  function AgentFilter(v: Viewer): Option<UserId> {
    if v.isAgent then Some(v.id) else None
  }

  /** A bet row the query counts for `num`. */
  predicate Counted(b: Bet, session: Date, date: Date, agent: Option<UserId>, num: string) {
    b.drawSession == session && b.gameDate == date && b.betNumber == num
    && (agent.Some? ==> b.agentId == agent)
  }

  /** `SUM(bet_amount)` of the rows of `num`, grouped by `bet_number`; 0 when there are none. */
  function LedgerAmount(bets: seq<Bet>, session: Date, date: Date, agent: Option<UserId>, num: string): int {
    if bets == [] then 0
    else
      LedgerAmount(bets[..|bets| - 1], session, date, agent, num)
      + (if Counted(bets[|bets| - 1], session, date, agent, num) then bets[|bets| - 1].betAmount else 0)
  }

  /** The `mapWithKeys` over `str_pad(0 .. 999)`: one entry per three-digit numeral. */
  function LedgerMap(bets: seq<Bet>, session: Date, date: Date, agent: Option<UserId>): (m: map<string, int>)
    ensures m.Keys == AllNumerals()
    ensures forall k :: k in m ==> m[k] == LedgerAmount(bets, session, date, agent, k)
  {
    map k | k in AllNumerals() :: LedgerAmount(bets, session, date, agent, k)
  }

  /** The map always has the 1000 numbers "000" .. "999" as keys, whatever was bet. */
  lemma LedgerMapKeys(bets: seq<Bet>, session: Date, date: Date, agent: Option<UserId>)
    ensures forall k :: k in LedgerMap(bets, session, date, agent) <==> IsNumeral3(k)
    ensures |LedgerMap(bets, session, date, agent).Keys| == 1000
  {
    AllNumeralsSize();
  }

  /** A number no counted bet was placed on shows 0. */
  lemma {:induction false} LedgerZeroWhenUnbet(bets: seq<Bet>, session: Date, date: Date, agent: Option<UserId>, num: string)
    requires forall i :: 0 <= i < |bets| ==> !Counted(bets[i], session, date, agent, num)
    ensures LedgerAmount(bets, session, date, agent, num) == 0
  {
    if bets != [] {
      LedgerZeroWhenUnbet(bets[..|bets| - 1], session, date, agent, num);
    }
  }

  /** The ledger of a table grown by new rows is the old ledger plus the new rows' ledger. */
  lemma {:induction false} LedgerAdditive(a: seq<Bet>, b: seq<Bet>, session: Date, date: Date, agent: Option<UserId>, num: string)
    ensures LedgerAmount(a + b, session, date, agent, num)
            == LedgerAmount(a, session, date, agent, num) + LedgerAmount(b, session, date, agent, num)
  {
    if b != [] {
      assert (a + b)[..|a + b| - 1] == a + b[..|b| - 1];
      assert (a + b)[|a + b| - 1] == b[|b| - 1];
      LedgerAdditive(a, b[..|b| - 1], session, date, agent, num);
    } else {
      assert a + b == a;
    }
  }

  /** With stakes that are never negative, an agent's ledger never shows more than the owner's. */
  lemma {:induction false} AgentLedgerBounded(bets: seq<Bet>, session: Date, date: Date, agent: UserId, num: string)
    requires forall i :: 0 <= i < |bets| ==> bets[i].betAmount >= 0
    ensures 0 <= LedgerAmount(bets, session, date, Some(agent), num) <= LedgerAmount(bets, session, date, None, num)
  {
    if bets != [] {
      AgentLedgerBounded(bets[..|bets| - 1], session, date, agent, num);
    }
  }

  /** The first session of `sessions` not before today's midnight, else the last one, else none. */
  function DefaultFrom(sessions: seq<Date>, now: Instant): Option<Date> {
    var k := FirstNotPast(sessions, StartOfDay(now));
    if k < |sessions| then Some(sessions[k])
    else if sessions == [] then None
    else Some(sessions[|sessions| - 1])
  }

  /** The session the page shows: the chosen one, or the default for this year. */
  function LedgerSession(chosen: Option<Date>, now: Instant): Option<Date> {
    if chosen.Some? then chosen else DefaultFrom(Calendar(now.date.year), now)
  }

  /**
   * The `foreach` with `break` of `dailyLedger`: the first session whose
   * midnight is not earlier than today's, or `end($drawSessions)`.
   */
  method ScanForDefault(sessions: seq<Date>, now: Instant) returns (session: Option<Date>)
    ensures session == DefaultFrom(sessions, now)
  {
    var today := StartOfDay(now);
    session := None;
    var i := 0;
    while i < |sessions|
      invariant i <= |sessions|
      invariant forall j :: 0 <= j < i ==> Earlier(Midnight(sessions[j]), today)
    {
      if !Earlier(Midnight(sessions[i]), today) {
        session := Some(sessions[i]);
        break;
      }
      i := i + 1;
    }
    FirstNotPastFacts(sessions, today);
    if session.None? {
      NotPastAbsent(sessions, today);
      if sessions != [] {
        session := Some(sessions[|sessions| - 1]);
      }
    } else {
      NotPastAt(sessions, today, i);
    }
  }

  /** Where the scan stops is `FirstNotPast`. */
  lemma {:induction false} NotPastAt(s: seq<Date>, now: Instant, i: nat)
    requires i < |s| && !Earlier(Midnight(s[i]), now)
    requires forall j :: 0 <= j < i ==> Earlier(Midnight(s[j]), now)
    ensures FirstNotPast(s, now) == i
  {
    if i > 0 {
      NotPastAt(s[1..], now, i - 1);
    }
  }

  /** When every midnight is past, `FirstNotPast` runs off the end. */
  lemma {:induction false} NotPastAbsent(s: seq<Date>, now: Instant)
    requires forall j :: 0 <= j < |s| ==> Earlier(Midnight(s[j]), now)
    ensures FirstNotPast(s, now) == |s|
  {
    if s != [] {
      NotPastAbsent(s[1..], now);
    }
  }

  /** `dailyLedger`'s choice of session, with the request's session if any, else the default of this year. */
  method DailyLedgerSession(chosen: Option<Date>, now: Instant) returns (session: Option<Date>)
    ensures session == LedgerSession(chosen, now)
  {
    if chosen.Some? {
      return chosen;
    }
    var drawSessions := GetDrawSessionsForYear(Some(now.date.year), now);
    session := ScanForDefault(drawSessions, now);
  }

  /**
   * `dailyLedger`: the per-number stake for the session chosen (or its
   * default) and the game date chosen (or today).
   */
  method DailyLedger(bets: seq<Bet>, viewer: Viewer, chosen: Option<Date>, date: Option<Date>, now: Instant)
    returns (session: Date, result: map<string, int>)
    ensures Some(session) == LedgerSession(chosen, now)
    ensures result == LedgerMap(bets, session, if date.Some? then date.value else now.date, AgentFilter(viewer))
  {
    var s := DailyLedgerSession(chosen, now);
    DefaultSessionFacts(now);
    session := s.value;
    var gameDate := if date.Some? then date.value else now.date;
    result := LedgerMap(bets, session, gameDate, AgentFilter(viewer));
  }

  /** For an ascending list, the default is its earliest entry not before today, or its last entry. */
  lemma DefaultFromFacts(s: seq<Date>, now: Instant)
    requires Ascending(s) && s != []
    ensures var d := DefaultFrom(s, now);
            && d.Some? && d.value in s
            && (!Before(s[|s| - 1], now.date) ==>
                  !Before(d.value, now.date) && forall e :: e in s && !Before(e, now.date) ==> !Before(e, d.value))
            && (Before(s[|s| - 1], now.date) ==> d.value == s[|s| - 1])
  {
    var today := StartOfDay(now);
    FirstNotPastFacts(s, today);
    var k := FirstNotPast(s, today);
    forall j | 0 <= j < |s|
      ensures Earlier(Midnight(s[j]), today) <==> Before(s[j], now.date)
    {
      MidnightEarlierIff(s[j], today);
    }
    if k < |s| {
      forall e | e in s && !Before(e, now.date)
        ensures !Before(e, s[k])
      {
        var j :| 0 <= j < |s| && s[j] == e;
        assert k <= j;
        if j > k {
          assert Before(s[k], s[j]);
        }
      }
    } else {
      assert Before(s[|s| - 1], now.date);
    }
  }

  /**
   * The default session of the page is a draw day of the current year: the
   * first one not before today, or December 30 once that is past.
   */
  lemma DefaultSessionFacts(now: Instant)
    ensures var d := LedgerSession(None, now);
            && d.Some? && d.value.year == now.date.year && Scheduled(d.value)
            && (!Before(Date(now.date.year, 12, 30), now.date) ==>
                  !Before(d.value, now.date)
                  && forall e: Date :: e.year == now.date.year && Scheduled(e) && !Before(e, now.date) ==> !Before(e, d.value))
            && (Before(Date(now.date.year, 12, 30), now.date) ==> d.value == Date(now.date.year, 12, 30))
  {
    var s := Calendar(now.date.year);
    CalendarFacts(now.date.year);
    DefaultFromFacts(s, now);
  }
}
