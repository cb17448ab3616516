/**
 * The two seeders that initialise 3D tables: ThreeDDrawSessionSeeder (one
 * registry row per draw day of the current year, only today's open) and
 * ThreeDCloseDigitSeeder (every number from 000 to 999 open for betting).
 * Both first delete every row of their table.
 */
module Seeders {
  import opened Options
  import opened Text
  import opened Dates
  import opened Digits
  import opened DrawCalendar
  import opened DrawSessionModel
  import opened CloseDigits
  import opened DrawService
  import Store

  // ---------------------------------------------------------------------
  // ThreeDDrawSessionSeeder
  // ---------------------------------------------------------------------

  const NoteOpenByDefault: string := "Current draw session - open by default"
  const NoteClosedByDefault: string := "Closed by default"

  /** The row the seeder inserts for `session`: open, with its note, exactly when it is today. */
  function SeedRow(session: Date, today: Date): SessionRow {
    if session == today then SessionRow(true, Some(NoteOpenByDefault))
    else SessionRow(false, Some(NoteClosedByDefault))
  }

  /** The rows inserted for `sessions`. */
  function SeededRegistry(sessions: seq<Date>, today: Date): Registry {
    map d | d in sessions :: SeedRow(d, today)
  }

  /** Inserting the row of the next session extends the seeded rows by that session. */
  lemma SeedInsertStep(current: Registry, before: Registry, sessions: seq<Date>, i: nat, today: Date)
    requires i < |sessions|
    requires current == before + SeededRegistry(sessions[..i], today)
    ensures current[sessions[i] := SeedRow(sessions[i], today)] == before + SeededRegistry(sessions[..i + 1], today)
  {
    assert sessions[..i + 1] == sessions[..i] + [sessions[i]];
    assert SeededRegistry(sessions[..i + 1], today) == SeededRegistry(sessions[..i], today)[sessions[i] := SeedRow(sessions[i], today)];
  }

  /**
   * The `foreach` of the seeder: inserts one row per session, open exactly
   * when `eq($currentDate->startOfDay())` holds, which also resets the
   * clock to midnight.
   */
  method InsertSeedRows(db: Store.Tables, sessions: seq<Date>, now: Instant)
    modifies db`drawSessions
    ensures db.drawSessions == old(db.drawSessions) + SeededRegistry(sessions, now.date)
  {
    var clock: DateTime := now;
    for i := 0 to |sessions|
      invariant db.drawSessions == old(db.drawSessions) + SeededRegistry(sessions[..i], now.date)
      invariant clock == if i == 0 then now else StartOfDay(now)
    {
      var session := sessions[i];
      clock := StartOfDay(clock);
      var isCurrentSession := Midnight(session) == clock;
      var row := SessionRow(isCurrentSession, Some(if isCurrentSession then NoteOpenByDefault else NoteClosedByDefault));
      assert row == SeedRow(session, now.date);
      SeedInsertStep(db.drawSessions, old(db.drawSessions), sessions, i, now.date);
      db.drawSessions := db.drawSessions[session := row];
    }
    assert sessions[..|sessions|] == sessions;
  }

  /** `ThreeDDrawSessionSeeder::run`: the registry becomes the seeded rows of the current year's calendar. */
  method SeedDrawSessions(db: Store.Tables, now: Instant)
    modifies db`drawSessions
    ensures db.drawSessions == SeededRegistry(Calendar(now.date.year), now.date)
  {
    db.drawSessions := map[];
    var drawSessions := GetDrawSessionsForYear(None, now);
    InsertSeedRows(db, drawSessions, now);
  }

  /** An ascending list has as many distinct elements as entries. */
  lemma {:induction false} AscendingDistinct(s: seq<Date>)
    requires Ascending(s)
    ensures |(set d | d in s)| == |s|
  {
    if s != [] {
      var rest := s[1..];
      assert Ascending(rest);
      AscendingDistinct(rest);
      assert (set d | d in s) == {s[0]} + (set d | d in rest);
      assert s[0] !in rest;
    }
  }

  /** The seeded rows of an ascending list: one per entry, only today's open. */
  lemma SeededRegistryOf(s: seq<Date>, today: Date)
    requires Ascending(s)
    ensures var r := SeededRegistry(s, today);
            && r.Keys == (set d | d in s)
            && |r.Keys| == |s|
            && OpenSessions(r) == (if today in s then {today} else {})
  {
    AscendingDistinct(s);
    var r := SeededRegistry(s, today);
    assert r.Keys == (set d | d in s);
  }

  /**
   * After seeding, the registry holds exactly one row for each of the 24
   * draw days of the current year; the row of a day is open exactly when it
   * is today, so at most one row is open and none is when today is not a
   * draw day; the notes say which.
   */
  lemma SeededRegistryFacts(now: Instant)
    ensures var r := SeededRegistry(Calendar(now.date.year), now.date);
            && (forall d :: d in r <==> d.year == now.date.year && Scheduled(d))
            && |r.Keys| == 24
            && OpenSessions(r) == (if Scheduled(now.date) then {now.date} else {})
            && forall d :: d in r ==> r[d].notes == Some(if d == now.date then NoteOpenByDefault else NoteClosedByDefault)
  {
    var s := Calendar(now.date.year);
    CalendarFacts(now.date.year);
    SeededRegistryOf(s, now.date);
  }

  // ---------------------------------------------------------------------
  // ThreeDCloseDigitSeeder
  // ---------------------------------------------------------------------

  /** The seeded table: every three-digit numeral, open. */
  function SeededDigitTable(): DigitTable {
    map k | k in AllNumerals() :: true
  }

  /** The rows inserted for 0..n-1. */
  function DigitRowsBelow(n: nat): DigitTable
    requires n <= 1000
  {
    map k | k in NumeralsBelow(n) :: true
  }

  /** `ThreeDCloseDigitSeeder::run`: delete every row, then insert `str_pad($i, 3, '0', STR_PAD_LEFT)` open, for 0 to 999. */
  method SeedCloseDigits(db: Store.Tables)
    modifies db`closeDigits
    ensures db.closeDigits == SeededDigitTable()
  {
    db.closeDigits := map[];
    for i := 0 to 1000
      invariant db.closeDigits == DigitRowsBelow(i)
    {
      Num3IsPadded(i);
      assert NumeralsBelow(i + 1) == NumeralsBelow(i) + {Num3(i)};
      db.closeDigits := db.closeDigits[PadLeft(NatText(i), 3, '0') := true];
    }
    assert NumeralsBelow(1000) == AllNumerals();
  }

  /** After seeding, the table has exactly 1000 rows, one per three-digit numeral "000" .. "999". */
  lemma SeededDigitRows()
    ensures WellFormed(SeededDigitTable())
    ensures forall s :: s in SeededDigitTable() <==> IsNumeral3(s)
    ensures |SeededDigitTable().Keys| == 1000
  {
    AllNumeralsSize();
    assert SeededDigitTable().Keys == AllNumerals();
  }

  /** Every seeded number is open, whether it is looked up padded or not. */
  lemma SeededDigitsOpen(digit: string)
    requires 1 <= |digit| <= 3 && forall i :: 0 <= i < |digit| ==> IsDigitChar(digit[i])
    ensures IsDigitOpen(SeededDigitTable(), digit) && !IsDigitClosed(SeededDigitTable(), digit)
  {
    Pad3Numeral(digit);
  }

  /** After seeding, `getClosedDigits` is empty and `getOpenDigits` lists every numeral, in ascending order. */
  lemma SeededDigitLists()
    ensures GetClosedDigits(SeededDigitTable()) == []
    ensures forall s :: s in GetOpenDigits(SeededDigitTable()) <==> IsNumeral3(s)
    ensures LexAscending(GetOpenDigits(SeededDigitTable()))
  {
    var t := SeededDigitTable();
    SeededDigitRows();
    OpenClosedListsPartition(t);
    EmptyWhenNoMember(GetClosedDigits(t));
  }

  /** A list with no member is empty. */
  lemma EmptyWhenNoMember(s: seq<string>)
    ensures (forall x :: x !in s) ==> s == []
  {
    if s != [] {
      assert s[0] in s;
    }
  }
}
