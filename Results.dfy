/**
 * The `three_d_results` table (model ThreeDResult).  `draw_session` is
 * unique, so the table is a map from the draw day to its result row.
 */
module Results {
  import opened Options
  import opened Dates
  import opened Digits

  /** The `status` enum of the table. */
  datatype ResultStatus = Pending | Declared | Completed

  /** A result row; `resultTime` is the second of the day of the draw time. */
  datatype ResultRow = ResultRow(
    winNumber: string,
    resultDate: Date,
    resultTime: nat,
    breakGroup: Option<int>,
    status: ResultStatus)

  type ResultTable = map<Date, ResultRow>

  /** `calculateBreakGroup`: the digit sum of the win number. */
  function CalculateBreakGroup(winNumber: string): nat {
    DigitSum(winNumber)
  }

  /** The break group of a three-character win number lies in 0..27. */
  lemma BreakGroupRange(winNumber: string)
    requires |winNumber| == 3
    ensures CalculateBreakGroup(winNumber) <= 27
  {
    DigitSumRange(winNumber);
  }

  /** The sessions whose result has the given status. */
  function WithStatus(t: ResultTable, status: ResultStatus): set<Date> {
    set d | d in t && t[d].status == status
  }

  /** `scopePending`. */
  function PendingSessions(t: ResultTable): set<Date> {
    WithStatus(t, Pending)
  }

  /** `scopeDeclared`. */
  function DeclaredSessions(t: ResultTable): set<Date> {
    WithStatus(t, Declared)
  }

  /** `scopeCompleted`. */
  function CompletedSessions(t: ResultTable): set<Date> {
    WithStatus(t, Completed)
  }

  /** The three status scopes are pairwise disjoint and cover the table. */
  lemma StatusScopesPartition(t: ResultTable)
    ensures PendingSessions(t) + DeclaredSessions(t) + CompletedSessions(t) == t.Keys
    ensures PendingSessions(t) * DeclaredSessions(t) == {}
    ensures PendingSessions(t) * CompletedSessions(t) == {}
    ensures DeclaredSessions(t) * CompletedSessions(t) == {}
  {
  }

  /** `scopeToday`: the sessions whose `result_date` is the given day. */
  function TodaySessions(t: ResultTable, today: Date): set<Date> {
    set d | d in t && t[d].resultDate == today
  }

  /** `scopeForDrawSession`: the rows of one session, of which there is at most one. */
  function ForDrawSession(t: ResultTable, session: Date): (r: seq<ResultRow>)
    ensures |r| <= 1
    ensures |r| == 1 <==> session in t
    ensures |r| == 1 ==> r[0] == t[session]
  {
    if session in t then [t[session]] else []
  }

  /** The `creating` hook: an unset or zero break group is filled from the win number; nothing else changes. */
  method Creating(result: ResultRow) returns (stored: ResultRow)
    ensures result.breakGroup.None? || result.breakGroup.value == 0 ==>
              stored.breakGroup == Some(CalculateBreakGroup(result.winNumber))
    ensures result.breakGroup.Some? && result.breakGroup.value != 0 ==> stored.breakGroup == result.breakGroup
    ensures stored.(breakGroup := result.breakGroup) == result
  {
    stored := result;
    if result.breakGroup.None? || result.breakGroup.value == 0 {
      stored := stored.(breakGroup := Some(CalculateBreakGroup(result.winNumber)));
    }
  }
}
