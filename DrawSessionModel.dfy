/**
 * The `three_d_draw_sessions` registry (model ThreeDDrawSession): one row
 * per draw day saying whether betting on that draw is open.  The
 * `draw_session` column is unique, so the table is a map from the day to
 * the rest of its row.
 */
module DrawSessionModel {
  import opened Options
  import opened Dates

  /** A registry row without its key: `is_open` and `notes`. */
  datatype SessionRow = SessionRow(isOpen: bool, notes: Option<string>)

  type Registry = map<Date, SessionRow>

  /** `scopeOpen`: the sessions whose row says `is_open`. */
  function OpenSessions(rows: Registry): set<Date> {
    set d | d in rows && rows[d].isOpen
  }

  /** `scopeClosed`: the sessions whose row says not `is_open`. */
  function ClosedSessions(rows: Registry): set<Date> {
    set d | d in rows && !rows[d].isOpen
  }

  /** The two scopes split the registry: every row is in exactly one of them. */
  lemma ScopesPartition(rows: Registry)
    ensures OpenSessions(rows) * ClosedSessions(rows) == {}
    ensures OpenSessions(rows) + ClosedSessions(rows) == rows.Keys
  {
  }

  /**
   * `isSessionOpen`: the stored flag when the session has a row; otherwise
   * the session counts as open exactly when it is today's.
   */
  function IsSessionOpen(rows: Registry, session: Date, now: Instant): (open: bool)
    ensures session in rows ==> open == rows[session].isOpen
    ensures session !in rows ==> (open <==> session == now.date)
  {
    if session in rows then rows[session].isOpen
    else Midnight(session) == StartOfDay(now)
  }

  /** One entry of `getAllSessionsWithStatus`. */
  datatype SessionFlag = SessionFlag(drawSession: Date, isOpen: bool)

  /**
   * `getAllSessionsWithStatus`: one entry per input session, in input order,
   * with the stored flag, or open when the session has no row.
   */
  function AllSessionsWithStatus(rows: Registry, sessions: seq<Date>): (r: seq<SessionFlag>)
    ensures |r| == |sessions|
    ensures forall i :: 0 <= i < |r| ==> r[i].drawSession == sessions[i]
    ensures forall i :: 0 <= i < |r| ==> (r[i].isOpen <==> sessions[i] !in rows || rows[sessions[i]].isOpen)
  {
    if sessions == [] then []
    else
      [SessionFlag(sessions[0], if sessions[0] in rows then rows[sessions[0]].isOpen else true)]
      + AllSessionsWithStatus(rows, sessions[1..])
  }

  /**
   * The two lookups agree on every session that has a row, and disagree on
   * every session without one that is not today's: `isSessionOpen` calls it
   * closed and `getAllSessionsWithStatus` calls it open.
   */
  lemma DefaultsDisagree(rows: Registry, sessions: seq<Date>, now: Instant, i: nat)
    requires i < |sessions|
    ensures sessions[i] in rows ==> AllSessionsWithStatus(rows, sessions)[i].isOpen == IsSessionOpen(rows, sessions[i], now)
    ensures sessions[i] !in rows && sessions[i] != now.date ==>
              AllSessionsWithStatus(rows, sessions)[i].isOpen && !IsSessionOpen(rows, sessions[i], now)
  {
  }
}
