/**
 * The database tables the 3D services read and write, as one object whose
 * fields are the tables.  Rows are values; each operation that writes a
 * table names that field in its `modifies` clause.  Unique columns are
 * map keys (`draw_session` of the registry and of the results,
 * `close_digit`); the slip and bet tables are sequences in insertion order,
 * and a slip's id is its position plus one.
 */
module Store {
  import opened Options
  import opened Dates
  import opened Wallets
  import opened DrawSessionModel
  import opened Limits
  import opened CloseDigits
  import opened Bets
  import opened Results

  /** The `status` enum of `three_d_bet_slips`. */
  datatype SlipStatus = SlipPending | SlipCompleted | SlipCancelled

  /** A `three_d_bet_slips` row (amounts in cents, `gameTime` the second of the day). */
  datatype Slip = Slip(
    slipNo: string,
    userId: UserId,
    agentId: Option<UserId>,
    totalBetAmount: int,
    drawSession: Date,
    status: SlipStatus,
    gameDate: Date,
    gameTime: nat,
    beforeBalance: int,
    afterBalance: int)

  class Tables {
    var drawSessions: Registry
    var closeDigits: DigitTable
    var limits: seq<LimitRow>
    var slips: seq<Slip>
    var bets: seq<Bet>
    var results: ResultTable
    /** `current_number` of the `slip_number_counters` row with id 2, or none while that row is missing. */
    var slipCounter: Option<nat>
    var balances: Balances
    /** The ids of the `users` rows. */
    var users: set<UserId>

    /** An empty database. */
    constructor ()
      ensures drawSessions == map[] && closeDigits == map[] && limits == [] && slips == []
      ensures bets == [] && results == map[] && slipCounter == None && balances == map[] && users == {}
    {
      drawSessions, closeDigits, limits, slips := map[], map[], [], [];
      bets, results, slipCounter, balances, users := [], map[], None, map[], {};
    }
  }
}
