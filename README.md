# 3D lottery engine — a Dafny model

This project models the three-digit ("3D") lottery of a Laravel betting site, together with the small
chat layer that ships beside it. The model covers:

- **Draw calendar and session lifecycle.** The fixed semi-monthly schedule and the next, current and
  last session derived from it. The 12:30 betting gate. The registry of per-session `is_open` flags,
  its seeder, and the `autoTransitionDrawSessions` sweep that reconciles it.
- **Wager admission.** `ThreeDPlayService::play` with `checkAllLimits` and slip numbering. It reads
  the active `ThreeDLimit`, the closed numbers of `ThreeDCloseDigit` and the bets already stored.
  An accepted batch writes one withdraw, one slip and one `ThreeDBet` per line.
- **Settlement.** `storeThreeDResult`: exact match pays 500 times the stake, a permutation 100 times.
  One deposit is made per winner, every bet is settled and the session's slips are completed.
- **Digit utilities and admin screens.** The following are modelled:
  - break groups (digit sums 0..27);
  - the three permutation generators: the model's, the API's and the ledger page's recursive one;
  - the close-digit toggle, the limit replacement and the draw-session toggle;
  - the daily-ledger number map;
  - the API's bet submission reply, current-draw info and winners report;
  - the 2D play request validator.
- **Chat state.** The client reducer, participant presence and the message accessors.

The database is one object, `Store.Tables`, whose fields are the tables. Rows are datatypes, and
operations that write are methods whose `modifies` clauses name exactly the tables they touch. Each
such method is proved against a specification function of the old state: for example,
`db.drawSessions == TransitionRows(old(db.drawSessions), now)`. The properties the code promises
are then lemmas about those functions.

Conventions:
- Money is whole integer cents, as the `decimal(…,2)` columns allow.
- Numbers are strings of characters, as PHP handles them.
- The clock is a parameter: `now` for the application clock, `yangon` for the Asia/Yangon clock the
  bet hook reads.
- Carbon's mutable `startOfDay()` is reproduced by overwriting the local clock variable, exactly
  where the source calls it.

## Model

| member | source | states |
|---|---|---|
| Wallets.Deposit | app/Services/WalletService.php:30-33 | Credits `amount` to the user and changes no other balance. |
| Wallets.Withdraw | app/Services/WalletService.php:35-55 | Succeeds exactly when the balance covers the amount; then debits it from that user only. |
| Wallets.WithdrawThenDeposit | app/Services/WalletService.php:30-55 | A withdraw followed by a deposit of the same amount restores every balance. |
| Text.PadLeft | database/seeders/ThreeDCloseDigitSeeder.php:22 | `str_pad(..., STR_PAD_LEFT)`: an input already `width` long is returned as it is; a shorter one becomes exactly `width` long, ending with the input and padded with the pad character before it. |
| Text.NatTextValue | database/seeders/ThreeDCloseDigitSeeder.php:22 | PHP's text of an integer spells its value in decimal digits, with no leading zero. |
| Text.ZeroPadded | app/Services/ThreeDPlayService.php:306 | `sprintf('%06d')`: all decimal digits, exactly `width` long when the number has fewer digits, and otherwise the number's own digits, never truncated. |
| Text.ZeroPaddedValue | app/Services/ThreeDPlayService.php:306 | The zero-filled text spells the number it was given. |
| Dates.MidnightLaterIff | app/Services/ThreeDDrawService.php:53 | A draw day's midnight is later than a clock reading exactly when the day is after the reading's day. |
| Dates.MidnightEarlierIff | app/Services/ThreeDDrawService.php:207 | A draw day's midnight is earlier than a reading exactly when the day is earlier, or is the same day after 00:00:00. |
| Digits.DigitValue | app/Models/ThreeDigit/ThreeDBet.php:85-86 | The integer `array_sum` adds for a one-character string: its digit, or 0 for any other character. |
| Digits.DigitSum3 | app/Models/ThreeDigit/ThreeDBet.php:83-87 | The digit sum of a three-character string is the sum of its three digit values. |
| Digits.DigitSumRange | app/Models/ThreeDigit/ThreeDBet.php:83-87 | The digit sum ("break group") of a three-digit numeral lies in 0..27. |
| Digits.Num3IsPadded | database/seeders/ThreeDCloseDigitSeeder.php:22 | `Num3(i)` is what `str_pad($i, 3, '0', STR_PAD_LEFT)` gives for 0 <= i <= 999. |
| Digits.Num3OfValue | database/seeders/ThreeDCloseDigitSeeder.php:20-27 | Every three-digit numeral is `Num3` of its value, so the loop 0..999 enumerates all of them. |
| Digits.Num3Injective | database/seeders/ThreeDCloseDigitSeeder.php:20-27 | Different values give different numerals. |
| Digits.AllNumeralsSize | database/seeders/ThreeDCloseDigitSeeder.php:20-27 | There are exactly 1000 three-digit numerals. |
| Digits.NumeralOrderIsLex | app/Models/ThreeDigit/ThreeDCloseDigit.php:51-62 | Ordering numerals by value is the same as ordering them as strings. |
| Digits.Pad3Numeral | app/Models/ThreeDigit/ThreeDCloseDigit.php:67-71 | Padding a numeral of up to three digits keeps its value and yields a three-digit numeral. |
| Digits.Pad3Example | app/Models/ThreeDigit/ThreeDCloseDigit.php:69 | "7" is padded to "007". |
| DrawSessionModel.ScopesPartition | app/Models/ThreeDigit/ThreeDDrawSession.php:27-38 | The open and closed scopes split the registry: every row is in exactly one of them. |
| DrawSessionModel.IsSessionOpen | app/Models/ThreeDigit/ThreeDDrawSession.php:43-57 | With a row, the stored flag. Without a row, open exactly when the session is today's. |
| DrawSessionModel.AllSessionsWithStatus | app/Models/ThreeDigit/ThreeDDrawSession.php:62-72 | One entry per input session, in input order, with the stored flag, or open when there is no row. |
| DrawSessionModel.DefaultsDisagree | app/Models/ThreeDigit/ThreeDDrawSession.php:51-56 | The two lookups agree wherever there is a row. Without a row on a day that is not today, `isSessionOpen` says closed and `getAllSessionsWithStatus` says open. |
| Limits.GetActiveLimit | app/Models/ThreeDigit/ThreeDLimit.php:34-37 | None exactly when no row is active. Otherwise an active row with no active row created after it: `latest()` over rows kept in creation order. |
| Limits.BetAmountBoundsInclusive | app/Models/ThreeDigit/ThreeDLimit.php:42-45 | `isBetAmountValid` accepts both bounds and nothing outside them. |
| Limits.TotalBetValidIsComplement | app/Models/ThreeDigit/ThreeDLimit.php:50-53 | `isTotalBetValid` is exactly the negation of the strict `>` test admission uses. |
| Limits.PayoutAdditive | app/Models/ThreeDigit/ThreeDLimit.php:58-61 | The payout of a split stake is the sum of the payouts of its parts. |
| CloseDigits.OpenClosedExclusive | app/Models/ThreeDigit/ThreeDCloseDigit.php:67-80 | A number is never both open and closed. It is neither when it has no row. |
| CloseDigits.PaddedLookupExample | app/Models/ThreeDigit/ThreeDCloseDigit.php:67-71 | "7" is looked up as "007". |
| CloseDigits.WithStatusFromSound | app/Models/ThreeDigit/ThreeDCloseDigit.php:51-62 | Everything a status list holds is a numeral at or after its start, with that status. |
| CloseDigits.WithStatusFromAscending | app/Models/ThreeDigit/ThreeDCloseDigit.php:51-62 | A status list is strictly increasing in value. |
| CloseDigits.WithStatusFromComplete | app/Models/ThreeDigit/ThreeDCloseDigit.php:51-62 | Every numeral at or after the start with that status is listed. |
| CloseDigits.StatusListFacts | app/Models/ThreeDigit/ThreeDCloseDigit.php:35-62 | On a well-formed table, the list of one status holds exactly the rows with that status, in ascending string order. |
| CloseDigits.OpenClosedListsPartition | app/Models/ThreeDigit/ThreeDCloseDigit.php:51-62 | `getOpenDigits` lists exactly the open numbers and `getClosedDigits` exactly the closed ones, each ascending without repetition. Together the two lists partition the table. |
| Bets.BreakGroupRange | app/Models/ThreeDigit/ThreeDBet.php:83-87 | The break group of a three-character number is the sum of its digits, in 0..27. |
| Bets.LoopsComputePermutationList | app/Models/ThreeDigit/ThreeDBet.php:98-109 | The three nested loops with the `in_array` guard compute `PermutationList`. |
| Bets.GeneratePermutations | app/Models/ThreeDigit/ThreeDBet.php:92-112 | The method returns `PermutationList` of the bet number. |
| Bets.PermutationListMembers | app/Models/ThreeDigit/ThreeDBet.php:98-109 | The list holds exactly the six index arrangements of the digits. |
| Bets.PermutationListDistinct | app/Models/ThreeDigit/ThreeDBet.php:103-105 | The listed arrangements are pairwise distinct. |
| Bets.PermutationListFirst | app/Models/ThreeDigit/ThreeDBet.php:98-109 | The first arrangement is the number itself. |
| Bets.SameDigitsAreArranged | app/Models/ThreeDigit/ThreeDBet.php:92-112 | A string with the same characters as a three-character number is one of its arrangements. |
| Bets.PermutationsAreRearrangements | app/Models/ThreeDigit/ThreeDBet.php:92-112 | A string is among the permutations exactly when it has the same characters with the same multiplicities. |
| Bets.PermutationsOfDistinct | app/Models/ThreeDigit/ThreeDBet.php:98-109 | Three different digits give all six arrangements, in the loops' order. |
| Bets.PermutationsOfFirstPair | app/Models/ThreeDigit/ThreeDBet.php:98-109 | When the first two digits agree and the third differs, there are three arrangements. |
| Bets.PermutationsOfLastPair | app/Models/ThreeDigit/ThreeDBet.php:98-109 | When the last two digits agree and the first differs, there are three arrangements. |
| Bets.PermutationsOfOuterPair | app/Models/ThreeDigit/ThreeDBet.php:98-109 | When the outer digits agree and the middle one differs, there are three arrangements. |
| Bets.PermutationsOfTriple | app/Models/ThreeDigit/ThreeDBet.php:98-109 | Three equal digits give the number itself, once. |
| Bets.PermutationCount | app/Models/ThreeDigit/ThreeDBet.php:92-112 | There are 6, 3 or 1 permutations as three, two or one distinct digits occur. |
| Bets.PermutationExample | app/Models/ThreeDigit/ThreeDBet.php:92-112 | "112" gives "112", "121" and "211", in that order. |
| Bets.Creating | app/Models/ThreeDigit/ThreeDBet.php:118-128 | The Yangon date and time replace the caller's. A break group that is unset or 0 is recomputed from the number; any other is kept. |
| Results.BreakGroupRange | app/Models/ThreeDigit/ThreeDResult.php:34-38 | The break group of a three-character win number lies in 0..27. |
| Results.StatusScopesPartition | app/Models/ThreeDigit/ThreeDResult.php:43-62 | The pending, declared and completed scopes are pairwise disjoint and cover the table. |
| Results.ForDrawSession | app/Models/ThreeDigit/ThreeDResult.php:75-78 | The rows of one session, of which there is at most one. |
| Results.Creating | app/Models/ThreeDigit/ThreeDResult.php:84-89 | An unset or zero break group is filled from the win number; nothing else changes. |
| DrawCalendar.CalendarFacts | app/Services/ThreeDDrawService.php:12-33 | Every year has 24 sessions, strictly ascending, from January 16 to December 30, and they are exactly that year's draw days. |
| DrawCalendar.CalendarDatesValid | app/Services/ThreeDDrawService.php:12-33 | Every session is a real calendar day. |
| DrawCalendar.FirstSessionAfterIsEarliest | app/Services/ThreeDDrawService.php:51-56 | In an ascending list, the first session after today is in the list, after today, and no later than any other such session. |
| DrawCalendar.NextDrawSessionIsEarliest | app/Services/ThreeDDrawService.php:38-59 | A next session always exists because next year is searched too. It is the earliest draw day strictly after today. |
| DrawCalendar.CurrentDrawSession | app/Services/ThreeDDrawService.php:64-75 | Today, exactly when today is a draw day. |
| DrawCalendar.CurrentInTwoYears | app/Services/ThreeDDrawService.php:64-75 | Today is among this and next year's sessions exactly when `getCurrentDrawSession` finds it. |
| DrawCalendar.LastSessionPastIsLatest | app/Services/ThreeDDrawService.php:205-212 | In an ascending list, the last past session is in the list, past, and no earlier than any other past one. |
| DrawCalendar.LastDrawSessionIsLatest | app/Services/ThreeDDrawService.php:191-215 | A last session always exists because last year is searched too. It is the latest draw day whose midnight lies strictly before now. |
| DrawCalendar.IsBettingOpen | app/Services/ThreeDDrawService.php:220-229 | Betting is open exactly when now is strictly before 12:30 on the session's day. |
| DrawCalendar.MonthSessions | app/Services/ThreeDDrawService.php:234-247 | A month's sessions:<br>January: January 16 only.<br>February to November: the 1st and the 16th.<br>December: those and the 30th.<br>Any other month number: none. |
| SessionLifecycle.ListingKeepsOrder | app/Services/ThreeDDrawService.php:252-291 | The listing has one entry per session, in the order of the sessions. |
| SessionLifecycle.ListingOfAscending | app/Services/ThreeDDrawService.php:266-274 | On an ascending list, the clock reset never changes a verdict: every entry carries its `StatusAsWritten` against now. |
| SessionLifecycle.StatusAsWrittenCases | app/Services/ThreeDDrawService.php:268-274 | At every moment of its draw day except 00:00:00, that day is listed as past; at 00:00:00 it is current. Earlier days are past and later days future. |
| SessionLifecycle.PastWhileBettingOpen | app/Services/ThreeDDrawService.php:268-280 | At 10:00 on 1 February 2025, that session is listed as past while betting on it is still open. |
| SessionLifecycle.IntendedStatus | app/Services/ThreeDDrawService.php:268-274 | Past, current or future by calendar day, with the whole draw day current. |
| SessionLifecycle.StatusAsWrittenAgreement | app/Services/ThreeDDrawService.php:268-274 | The listing as written agrees with the intended status everywhere except on the draw day after midnight. |
| SessionLifecycle.ListedDayFound | app/Services/ThreeDDrawService.php:80-91 | In the listing of an ascending list, the entry of a listed day is found and carries that day's status. |
| SessionLifecycle.CloseCurrentNeverFires | app/Services/ThreeDDrawService.php:128-143 | Against the clock reset to midnight, the time test never holds, so the first step never changes the registry. |
| SessionLifecycle.DrawTimeTestMissesQuarterPast | app/Services/ThreeDDrawService.php:132 | At 15:10 the hour-and-minute test fails although 14:30 has passed. |
| SessionLifecycle.CloseCurrentIntended | app/Services/ThreeDDrawService.php:128-143 | The intended first step closes the current session's open row once the draw time has been reached. |
| SessionLifecycle.DrawTimeReachedIff | app/Services/ThreeDDrawService.php:132 | The intended test holds exactly when the reading is not earlier than 14:30 of its own day. |
| SessionLifecycle.SweepFinished | app/Services/ThreeDDrawService.php:145-162 | Once every open row other than the next session's has been closed, the registry is `SweepRows`, whatever the order. |
| SessionLifecycle.TransitionsAssembled | app/Services/ThreeDDrawService.php:126-185 | The three steps' reports together list each transition of `TransitionsWith` exactly once. |
| SessionLifecycle.TransitionKeepsRows | app/Services/ThreeDDrawService.php:126-177 | The three steps never add or remove a row. |
| SessionLifecycle.TransitionLeavesOnlyNextOpen | app/Services/ThreeDDrawService.php:145-177 | Afterwards the only open row is the next session's. It is open when it exists, and every other row is closed. |
| SessionLifecycle.TransitionIdempotent | app/Services/ThreeDDrawService.php:126-185 | A second run with the same sessions and no writes in between changes nothing and reports nothing. |
| SessionLifecycle.AutoTransitionLeavesNextOpen | app/Services/ThreeDDrawService.php:97-186 | After a run at `now`, no row is open except the next session's. A draw day's own row is closed by the sweep whatever the time. |
| SessionLifecycle.AutoTransitionIdempotent | app/Services/ThreeDDrawService.php:97-186 | A second run at the same instant changes nothing and reports no transition. |
| DrawService.GetDrawSessionsForYear | app/Services/ThreeDDrawService.php:12-33 | The calendar of the given year, or of the clock's year when none is given. |
| DrawService.ScanForNext | app/Services/ThreeDDrawService.php:51-58 | The `foreach` returns the first session whose midnight is later than now, or null. |
| DrawService.GetNextDrawSession | app/Services/ThreeDDrawService.php:38-59 | The first session of this and next year after now, which is `NextDrawSession`. |
| DrawService.ScanForLast | app/Services/ThreeDDrawService.php:203-214 | The loop remembers each past session and stops at the first that is not past. |
| DrawService.GetLastDrawSession | app/Services/ThreeDDrawService.php:191-215 | It scans last and this year's sessions and returns `LastDrawSession`. |
| DrawService.FilterMonth | app/Services/ThreeDDrawService.php:238-246 | Keeps, in order, exactly the sessions that fall in the month. |
| DrawService.GetDrawSessionsForMonth | app/Services/ThreeDDrawService.php:234-247 | The calendar's sessions in that month. |
| DrawService.ListStatuses | app/Services/ThreeDDrawService.php:262-288 | The loop over the sessions with the `pluck`ed flags yields the listing from the same clock. |
| DrawService.StatusAt | app/Services/ThreeDDrawService.php:268-274 | First `lt` against the clock, then `eq` against the clock reset to midnight; the reset clock is returned. |
| DrawService.GetDrawSessionsWithStatus | app/Services/ThreeDDrawService.php:252-291 | Every session of the year, in calendar order. Each carries its status against the clock (a draw day is past from 00:00:01), whether betting is open, and its stored flag; with no row, open exactly when current. |
| DrawService.GetCurrentDrawSessionWithStatus | app/Services/ThreeDDrawService.php:80-91 | The listing entry of today when today is a draw day, and null otherwise. |
| DrawService.FindCurrentAndNext | app/Services/ThreeDDrawService.php:112-124 | Today's session when listed, and the first session after today. The clock comes back reset to midnight once the loop has run. |
| DrawService.SearchTwoYears | app/Services/ThreeDDrawService.php:99-124 | Over this and next year: `CurrentDrawSession`, `NextDrawSession`, and the clock reset to midnight. |
| DrawService.CloseCurrentAfterDraw | app/Services/ThreeDDrawService.php:128-143 | The registry after the close-current step is the as-written step applied to the reset clock. |
| DrawService.CloseOthers | app/Services/ThreeDDrawService.php:145-162 | Every open row except the next session's is closed, in no particular order; each closing is reported once. |
| DrawService.OpenNextSession | app/Services/ThreeDDrawService.php:164-177 | The next session's row is opened when it exists and is closed; no row is created. |
| DrawService.AutoTransitionDrawSessions | app/Services/ThreeDDrawService.php:97-186 | The registry becomes `TransitionRows`. The report names today's and the next session. It never says the current session was closed, always says the next one was opened, and lists each transition exactly once. |
| Seeders.SeedInsertStep | database/seeders/ThreeDDrawSessionSeeder.php:26-42 | Inserting the next session's row extends the seeded rows by that session. |
| Seeders.InsertSeedRows | database/seeders/ThreeDDrawSessionSeeder.php:26-42 | One row per session, open exactly when `eq($currentDate->startOfDay())` holds; that call resets the clock to midnight. |
| Seeders.SeedDrawSessions | database/seeders/ThreeDDrawSessionSeeder.php:16-43 | After deleting every row, the registry is the seeded rows of the current year's calendar. |
| Seeders.SeededRegistryOf | database/seeders/ThreeDDrawSessionSeeder.php:26-42 | The seeded rows of an ascending list: one per entry, and only today's is open. |
| Seeders.SeededRegistryFacts | database/seeders/ThreeDDrawSessionSeeder.php:19-42 | Exactly one row per each of the 24 draw days of the year. A row is open exactly when it is today, so at most one row is open, and none when today is not a draw day. The notes say which. |
| Seeders.SeedCloseDigits | database/seeders/ThreeDCloseDigitSeeder.php:14-30 | After deleting every row, `str_pad($i, 3, '0')` is inserted open for 0 to 999. |
| Seeders.SeededDigitRows | database/seeders/ThreeDCloseDigitSeeder.php:17-27 | Exactly 1000 rows, one per numeral "000" .. "999". |
| Seeders.SeededDigitsOpen | database/seeders/ThreeDCloseDigitSeeder.php:23 | Every seeded number is open, whether it is looked up padded or not. |
| Seeders.SeededDigitLists | database/seeders/ThreeDCloseDigitSeeder.php:20-27 | `getClosedDigits` is empty and `getOpenDigits` lists every numeral, ascending. |
| PlayService.ClosedNumbers | app/Services/ThreeDPlayService.php:193-197 | The closed numbers are the rows with status false, padded to three characters. |
| PlayService.OverLimitStep | app/Services/ThreeDPlayService.php:199-237 | One more line adds its padded number exactly when it is flagged. |
| PlayService.CheckAllLimits | app/Services/ThreeDPlayService.php:183-240 | Every line is checked in order against the stored bets only. The padded number of each flagged line is listed. |
| PlayService.OverLimitLinewise | app/Services/ThreeDPlayService.php:199-237 | The list of a batch is the lists of its parts joined, so a line is never compared with other lines of its batch. |
| PlayService.OverLimitWitness | app/Services/ThreeDPlayService.php:199-237 | A listed number comes from a flagged line with that number. |
| PlayService.OverLimitListed | app/Services/ThreeDPlayService.php:199-237 | A flagged line's number is listed. |
| PlayService.OverLimitMembers | app/Services/ThreeDPlayService.php:199-237 | A number is listed exactly when some line with that padded number is flagged. |
| PlayService.OverLimitEmpty | app/Services/ThreeDPlayService.php:199-239 | The list is empty exactly when no line is flagged. |
| PlayService.BreakAmountReachable | app/Services/ThreeDPlayService.php:210-229 | The comparisons are strict: a stake that exactly reaches the break amount is accepted. |
| PlayService.RepeatedNumbersNotSummed | app/Services/ThreeDPlayService.php:210-229 | With no stored bets, two lines of 60 on "123" against a break amount of 100 both pass, although together they exceed it. |
| PlayService.RepeatedNumberListedTwice | app/Services/ThreeDPlayService.php:199-239 | Against a break amount of 50, the same batch lists "123" twice. |
| PlayService.GenerateBaseSlipNumberWithCounter | app/Services/ThreeDPlayService.php:277-310 | The counter row becomes what `CounterStep` stores (0 when it was missing, one more otherwise), and the slip number is the text of the number issued. |
| PlayService.CounterStoresIssued | app/Services/ThreeDPlayService.php:290-304 | The row ends holding the issued number exactly when it already existed; a creation stores one less. |
| PlayService.FirstNumberIssuedTwice | app/Services/ThreeDPlayService.php:290-304 | Right after the row is created, the next call issues 1 again, so the first two slip numbers share a counter. |
| PlayService.CounterAfterValue | app/Services/ThreeDPlayService.php:290-304 | After `k` calls the counter is `c + k` from an existing row, and `k - 1` once the row is created. |
| PlayService.GenerateUniqueSlipNumber | app/Services/ThreeDPlayService.php:245-272 | Up to 20 attempts, each advancing the counter. The first number not already on a slip is returned, and none after 20 collisions. |
| PlayService.UniqueFromNone | app/Services/ThreeDPlayService.php:250-271 | From attempt `a` on, no number is found exactly when attempts `a` to 19 all collide. |
| PlayService.UniqueFromFound | app/Services/ThreeDPlayService.php:250-271 | A number found is the first candidate from `a` on that is not on a slip. |
| PlayService.UniqueSlipNumberSound | app/Services/ThreeDPlayService.php:245-272 | Fails exactly when all 20 candidates are taken; otherwise returns the first free one. |
| PlayService.FirstSlipPrefix | app/Services/ThreeDPlayService.php:306-308 | "000001" is the prefix for counter 1. |
| PlayService.NewBetsStep | app/Services/ThreeDPlayService.php:136-161 | Creating one more bet extends the stored rows by the next line's row. |
| PlayService.InsertBets | app/Services/ThreeDPlayService.php:136-161 | One `ThreeDBet::create` per line, appended in line order. |
| PlayService.AppendFreshSlip | app/Services/ThreeDPlayService.php:122-134 | Appending a slip whose number is not yet taken keeps the slip numbers unique. |
| PlayService.Screen | app/Services/ThreeDPlayService.php:43-90 | The checks up to `checkAllLimits`, in the source's order, computing `Admit`; nothing is written. |
| PlayService.PlaceBatch | app/Services/ThreeDPlayService.php:100-161 | One withdraw of the total, one pending slip, then one bet per line; slip numbers stay unique. |
| PlayService.Play | app/Services/ThreeDPlayService.php:38-178 | A refused batch, or one whose slip number cannot be found, leaves every table unchanged. An accepted one withdraws the total once, advances the counter, and appends one pending slip and one bet per line. |
| PlayService.AdmittedIff | app/Services/ThreeDPlayService.php:43-90 | A batch is admitted exactly when every check passes. A balance equal to the total is enough. |
| PlayService.ThrownOnlyBeforeTry | app/Services/ThreeDPlayService.php:43-55 | Only the three checks before the `try` raise; every later refusal is a returned value. |
| PlayService.OverLimitRefusal | app/Services/ThreeDPlayService.php:87-90 | An over-limit refusal lists exactly the padded numbers of the flagged lines, and happens only once the earlier checks have passed. |
| PlayService.NewBetsFacts | app/Services/ThreeDPlayService.php:136-161 | Every bet of an accepted batch has:<br>- the padded number;<br>- its digit sum as break group;<br>- the stake times the multiplier as payout;<br>- unsettled status;<br>- the slip's id. |
| PlayService.StakesMatchLineSum | app/Services/ThreeDPlayService.php:64-71 | The stakes of an accepted batch add up to the line sum, which is the total withdrawn. |
| PlayService.AcceptedDebit | app/Services/ThreeDPlayService.php:100-106 | An accepted batch debits exactly its total from the player and from nobody else. |
| PlayService.PerBetLimitsIgnored | app/Services/ThreeDPlayService.php:76-90 | A single line of 5000 is accepted although the maximum per bet is 1000, given an open session before 12:30, enough funds and a generous break amount. |
| Settlement.SettleBets | app/Http/Controllers/Admin/ThreeD/ThreeDigitController.php:270-379 | The bet table after the declaration: same length, each bet settled by `SettleAt`. |
| Settlement.SettlePrize | app/Http/Controllers/Admin/ThreeD/ThreeDigitController.php:282-322 | The loop's prize: 500 times for an exact match, otherwise 100 times when `generatePermutations` contains the win number. |
| Settlement.CreditsStep | app/Http/Controllers/Admin/ThreeD/ThreeDigitController.php:325-356 | One more bet adds its deposit, if any. |
| Settlement.SettleSessionBets | app/Http/Controllers/Admin/ThreeD/ThreeDigitController.php:270-379 | Each bet of the session is settled in place and its prize deposited when its user exists. It succeeds exactly when no deposit is refused. |
| Settlement.StoreThreeDResult | app/Http/Controllers/Admin/ThreeD/ThreeDigitController.php:215-409 | An invalid number, an existing result or a refused deposit leaves every table unchanged. Otherwise the result row is stored completed, the bets are settled, prizes credited and the session's slips completed. |
| Settlement.PrizeRule | app/Http/Controllers/Admin/ThreeD/ThreeDigitController.php:282-322 | 500 times the stake for the exact number. Otherwise 100 times exactly when the win number has the same digits in another order. Otherwise nothing. |
| Settlement.SettledBetsFacts | app/Http/Controllers/Admin/ThreeD/ThreeDigitController.php:358-378 | Every bet of the session is settled with the win number. A winner carries its prize and is marked won and paid; a loser carries 0 and neither. Bets of other sessions are untouched. |
| Settlement.CreditsBalance | app/Http/Controllers/Admin/ThreeD/ThreeDigitController.php:325-356 | Each existing user gains exactly the prizes of their winning bets of the session. Nobody else's balance moves. |
| Settlement.CompleteSlipsFacts | app/Http/Controllers/Admin/ThreeD/ThreeDigitController.php:382-383 | Every slip of the session ends completed; other slips are untouched. |
| Settlement.ExactWinnerPayoutOverwritten | app/Http/Controllers/Admin/ThreeD/ThreeDigitController.php:358-361 | An exact winner's `potential_payout` becomes 500 times its stake, whatever multiplier placed it. |
| Settlement.ZeroStakeExactBetLoses | app/Http/Controllers/Admin/ThreeD/ThreeDigitController.php:325 | A bet of 0 on the win number wins no prize and is recorded as lost. |
| Settlement.CompletedRowBreakGroup | app/Http/Controllers/Admin/ThreeD/ThreeDigitController.php:249-255 | The completed result row carries the win number's digit sum as break group. |
| BreakGroups.GetBreakGroupCount | app/Http/Controllers/Admin/ThreeD/ThreeDigitController.php:170-181 | Counts the numbers 000 .. 999 whose digits add up to the argument. |
| BreakGroups.GroupNumbers | app/Http/Controllers/Admin/ThreeD/ThreeDigitController.php:576-582 | The inner loop yields the numbers of one group, in ascending order. |
| BreakGroups.GetBreakGroups | app/Http/Controllers/Admin/ThreeD/ThreeDigitController.php:570-597 | One entry per digit sum 0 .. 27, named "Break n", with its numbers and their count. |
| BreakGroups.GroupCountAgrees | app/Http/Controllers/Admin/ThreeD/ThreeDigitController.php:170-181 | A group lists exactly as many numbers as `getBreakGroupCount` counts. |
| BreakGroups.GroupMembers | app/Http/Controllers/Admin/ThreeD/ThreeDigitController.php:574-589 | A group holds exactly the numerals with that digit sum. |
| BreakGroups.GroupAscending | app/Http/Controllers/Admin/ThreeD/ThreeDigitController.php:576-582 | The numbers of a group ascend strictly in value. |
| BreakGroups.CountsPartition | app/Http/Controllers/Admin/ThreeD/ThreeDigitController.php:574-589 | Every number is in exactly one group, so the counts add up to the numbers covered. |
| BreakGroups.BreakGroupsCover | app/Http/Controllers/Admin/ThreeD/ThreeDigitController.php:570-597 | The 28 groups together hold the 1000 numbers. |
| AdminSettings.DeactivateAll | app/Http/Controllers/Admin/ThreeD/ThreeDigitController.php:197 | Every row becomes inactive; nothing else about any row changes. |
| AdminSettings.StoreThreeDLimit | app/Http/Controllers/Admin/ThreeD/ThreeDigitController.php:186-210 | An invalid request changes nothing. A valid one deactivates every row and appends the new active row. |
| AdminSettings.ReplaceLimitFacts | app/Http/Controllers/Admin/ThreeD/ThreeDigitController.php:197-205 | Afterwards exactly one row is active, the new one, and it is what `getActiveLimit` returns. The older rows keep their values. |
| AdminSettings.NewLimitValues | app/Http/Controllers/Admin/ThreeD/ThreeDigitController.php:199-205 | The stored limit carries the request's values. When `min <= max`, its own bounds are admissible bets. |
| AdminSettings.ToggleTable | app/Http/Controllers/Admin/ThreeD/ThreeDigitController.php:648-659 | That row's status is negated when the number is valid and has a row, and nothing else changes. |
| AdminSettings.ToggleReplyOf | app/Http/Controllers/Admin/ThreeD/ThreeDigitController.php:644-669 | The reply: 422 for a malformed number, 404 for an unknown one, otherwise the new status and its text. |
| AdminSettings.ToggleThreeDCloseDigit | app/Http/Controllers/Admin/ThreeD/ThreeDigitController.php:642-670 | The number must be exactly three digits, with no padding here. An unknown number gets 404 and changes nothing. |
| AdminSettings.ToggleTwiceRestores | app/Http/Controllers/Admin/ThreeD/ThreeDigitController.php:658 | Toggling the same number twice restores the table. |
| AdminSettings.ToggleSwapsOpenClosed | app/Http/Controllers/Admin/ThreeD/ThreeDigitController.php:658 | A toggle moves the named number between the open and closed lists and moves no other number. |
| AdminSettings.ToggleKeepsWellFormed | app/Http/Controllers/Admin/ThreeD/ThreeDigitController.php:648-659 | Toggling keeps every key a three-digit numeral. |
| AdminSettings.LowerAscii | app/Http/Controllers/Admin/ThreeD/ThreeDigitController.php:705 | ASCII lower case, as `filter_var` compares words; same length, letters mapped one to one. |
| AdminSettings.SetSession | app/Http/Controllers/Admin/ThreeD/ThreeDigitController.php:714-720 | `updateOrCreate`: the session's row gets the new flag and notes, and is created when missing; other rows are kept. |
| AdminSettings.SessionToggleReplyOf | app/Http/Controllers/Admin/ThreeD/ThreeDigitController.php:698-729 | 422 for a missing value or a word `filter_var` rejects; otherwise the upserted flag. |
| AdminSettings.ToggleDrawSession | app/Http/Controllers/Admin/ThreeD/ThreeDigitController.php:696-737 | The session's row is upserted with the parsed flag. A rejected request changes nothing. |
| AdminSettings.ToggleSetsSessionFlag | app/Http/Controllers/Admin/ThreeD/ThreeDigitController.php:714-720 | After an accepted toggle, `isSessionOpen` reports the requested flag for that session at every clock reading. Every other session reads as before. |
| AdminSettings.ToggleSessionIdempotent | app/Http/Controllers/Admin/ThreeD/ThreeDigitController.php:714-720 | Repeating a toggle request leaves the registry as the first one did. |
| AdminSettings.FilterBooleanUpperCase | app/Http/Controllers/Admin/ThreeD/ThreeDigitController.php:705 | "TRUE" opens: words are read in any letter case. |
| AdminSettings.FilterBooleanUnknownWord | app/Http/Controllers/Admin/ThreeD/ThreeDigitController.php:705-712 | A word `filter_var` does not know is answered with 422. |
| AdminSettings.FilterBooleanJsonFalse | app/Http/Controllers/Admin/ThreeD/ThreeDigitController.php:698-720 | A JSON `false` passes `required` and closes the session. |
| DailyLedger.LedgerMap | app/Http/Controllers/Admin/ThreeD/ThreeDigitController.php:443-463 | The keys are exactly the 1000 numerals, each holding the summed stake of the counted bets on it. |
| DailyLedger.LedgerMapKeys | app/Http/Controllers/Admin/ThreeD/ThreeDigitController.php:456-463 | The map always has "000" .. "999" as keys, whatever was bet. |
| DailyLedger.LedgerZeroWhenUnbet | app/Http/Controllers/Admin/ThreeD/ThreeDigitController.php:461 | A number no counted bet was placed on shows 0. |
| DailyLedger.LedgerAdditive | app/Http/Controllers/Admin/ThreeD/ThreeDigitController.php:443-453 | The ledger of a table grown by new rows is the old ledger plus the new rows' ledger. |
| DailyLedger.AgentLedgerBounded | app/Http/Controllers/Admin/ThreeD/ThreeDigitController.php:449-451 | With stakes that are never negative, an agent's ledger never shows more than the owner's. |
| DailyLedger.ScanForDefault | app/Http/Controllers/Admin/ThreeD/ThreeDigitController.php:428-439 | Returns the first session whose midnight is not earlier than today's, or the last session. |
| DailyLedger.NotPastAt | app/Http/Controllers/Admin/ThreeD/ThreeDigitController.php:428-434 | Where the scan stops is `FirstNotPast`. |
| DailyLedger.DailyLedgerSession | app/Http/Controllers/Admin/ThreeD/ThreeDigitController.php:417-440 | The request's session if any, else this year's default. |
| DailyLedger.DailyLedger | app/Http/Controllers/Admin/ThreeD/ThreeDigitController.php:414-469 | The per-number stake for the session chosen, or its default, and the game date chosen, or today. |
| DailyLedger.DefaultFromFacts | app/Http/Controllers/Admin/ThreeD/ThreeDigitController.php:428-439 | For an ascending list, the default is its earliest entry not before today, or otherwise its last entry. |
| DailyLedger.DefaultSessionFacts | app/Http/Controllers/Admin/ThreeD/ThreeDigitController.php:421-440 | The default session is a draw day of the current year: the first one not before today, or December 30 once that is past. |
| ApiThreeD.NoReplyIsBettingClosed | app/Http/Controllers/Api/ThreeDController.php:76-77 | No message `play` returns is the betting-closed text, because that one is only ever thrown. |
| ApiThreeD.OutcomeResponseTable | app/Http/Controllers/Api/ThreeDController.php:70-100 | The response for each outcome of `play`:<br>placed: success;<br>missing funds: 400;<br>missing limit: 500;<br>mismatch or exhausted counter: 400;<br>non-empty over-limit list: 400 "Over Limit";<br>any exception: 500.<br>No outcome is answered with 401. |
| ApiThreeD.SubmitBet | app/Http/Controllers/Api/ThreeDController.php:35-101 | The controller's own checks, then `play`, whose outcome becomes the response. A request refused before `play` changes nothing. |
| ApiThreeD.SubmitBetStatuses | app/Http/Controllers/Api/ThreeDController.php:40-100 | Only the authentication check answers 401. Once authenticated, the status is 200, 400, 422 or 500; a bet after its betting time gets 500. |
| ApiThreeD.GeneratePermutationsEndpoint | app/Http/Controllers/Api/ThreeDController.php:366-398 | The number must be three digits. Its triple loop is the one of `ThreeDBet::generatePermutations`. |
| ApiThreeD.PermutationReplyFacts | app/Http/Controllers/Api/ThreeDController.php:372-397 | For a valid number: distinct strings, the number first, exactly the rearrangements of its digits, and a count of 6, 3 or 1. |
| ApiThreeD.GetCurrentDrawInfo | app/Http/Controllers/Api/ThreeDController.php:237-252 | Returns the current, next and last session, and whether betting is open on the current one. |
| ApiThreeD.BettingOpenOnlyOnDrawDays | app/Http/Controllers/Api/ThreeDController.php:249 | `is_betting_open` holds exactly on a draw day before 12:30, and never on another day. |
| ApiThreeD.SettledPayoutsAre500 | app/Http/Controllers/Api/ThreeDController.php:421-428 | Every row the winners query selects after a settlement carries 500 times its stake as payout. |
| ApiThreeD.PaidReportMatchesSettlement | app/Http/Controllers/Api/ThreeDController.php:409-435 | The corrected report states what settlement deposited: 500 times the winning stake. |
| ApiThreeD.SettledTwiceSame | app/Http/Controllers/Admin/ThreeD/ThreeDigitController.php:358-378 | Settling a settled bet again changes nothing. |
| ApiThreeD.WinnersReportOverstates | app/Http/Controllers/Api/ThreeDController.php:422 | One exact bet of 100 on "123", once settled, is reported with winnings 80000 while its deposit was 50000. |
| LedgerView.Remove | resources/views/admin/three_digit/ledger/index.blade.php:114 | The list without position `i`: one shorter, the elements before and after kept in order. |
| LedgerView.Prepend | resources/views/admin/three_digit/ledger/index.blade.php:116-118 | Every list with the element put in front, in order, as many as there were. |
| LedgerView.GetPermutations | resources/views/admin/three_digit/ledger/index.blade.php:105-123 | The recursion with its `for` loop computes `Perms`. |
| LedgerView.PermsCount | resources/views/admin/three_digit/ledger/index.blade.php:106-122 | n! arrangements, repetitions kept. |
| LedgerView.RemoveMultiset | resources/views/admin/three_digit/ledger/index.blade.php:114 | Taking out one element leaves the rest of the multiset. |
| LedgerView.PermsRearrange | resources/views/admin/three_digit/ledger/index.blade.php:106-122 | Every entry is a rearrangement of the input. |
| LedgerView.Perms2 | resources/views/admin/three_digit/ledger/index.blade.php:106-122 | Two elements give both orders. |
| LedgerView.Perms3 | resources/views/admin/three_digit/ledger/index.blade.php:106-122 | Three digits give the six arrangements, in the order the loops of `generatePermutations` meet them. |
| LedgerView.UniquePermsAreGenerated | resources/views/admin/three_digit/ledger/index.blade.php:59-62 | After `array_unique`, the page shows exactly `ThreeDBet::generatePermutations`, in the same order. |
| LedgerView.RowFacts | resources/views/admin/three_digit/ledger/index.blade.php:55-63 | A row's break group is the bet's (0..27). Its permutations are those of `generatePermutations` when the amount is positive, and none otherwise. They are shown (line 87) exactly when the amount is positive and the digits are not all equal. |
| TwoDPlayRequest.Authorize | app/Http/Requests/TwoD/TwoDPlayRequest.php:12-15 | Every request is authorised here. |
| TwoDPlayRequest.TotalErrors | app/Http/Requests/TwoD/TwoDPlayRequest.php:25 | No message exactly when the total is a number of at least 1. Two messages exactly for JSON `false`, which fails `numeric` and then `min` by its empty text; `true` fails `numeric` only. Every other input draws at most one. |
| TwoDPlayRequest.AmountsErrors | app/Http/Requests/TwoD/TwoDPlayRequest.php:26 | No message exactly when `amounts` is a non-empty list. A boolean fails `array`, and the `amounts.min` message appears exactly for JSON `false`. |
| TwoDPlayRequest.NumErrors | app/Http/Requests/TwoD/TwoDPlayRequest.php:27 | No message exactly when the number is a string matching `^[0-9]{1,2}$`. A JSON integer fails `string` and is matched as its decimal text; a boolean fails both `string` and `regex`. |
| TwoDPlayRequest.AmountErrors | app/Http/Requests/TwoD/TwoDPlayRequest.php:28 | No message exactly when the amount is a whole number of at least 1, or JSON `true`, which `filter_var` reads as 1. `false` fails both `integer` and `min`. |
| TwoDPlayRequest.PatternNotBlank | app/Http/Requests/TwoD/TwoDPlayRequest.php:27 | Text that matches the pattern is never blank, so `required` never rejects it. |
| TwoDPlayRequest.NumNumberErrors | app/Http/Requests/TwoD/TwoDPlayRequest.php:27 | A JSON integer passes the pattern exactly when it lies in 0 .. 99, but it always fails `string`. |
| TwoDPlayRequest.PatternAccepts | app/Http/Requests/TwoD/TwoDPlayRequest.php:27 | The pattern accepts one and two digits, a leading zero included. |
| TwoDPlayRequest.PatternRejects | app/Http/Requests/TwoD/TwoDPlayRequest.php:27 | "123" is too long, and "4a" holds a letter. |
| TwoDPlayRequest.PatternTrailingNewline | app/Http/Requests/TwoD/TwoDPlayRequest.php:27 | Because `$` also matches before a final newline, "42" followed by a newline passes. |
| TwoDPlayRequest.Put | app/Http/Requests/TwoD/TwoDPlayRequest.php:48 | Messages are appended under the key, and other keys are unchanged. Nothing is recorded when there are none. |
| TwoDPlayRequest.PutItemsEmpty | app/Http/Requests/TwoD/TwoDPlayRequest.php:27-28 | The wildcard expansion records nothing exactly when every remaining entry passes. |
| TwoDPlayRequest.RulesPass | app/Http/Requests/TwoD/TwoDPlayRequest.php:24-29 | The rules pass exactly when:<br>- the total is at least 1;<br>- the list is non-empty;<br>- every entry passes. |
| TwoDPlayRequest.AfterHook | app/Http/Requests/TwoD/TwoDPlayRequest.php:40-51 | It runs only when `amounts` is a list. It then adds exactly one message under `totalAmount` when the sum differs from the total, and leaves every other attribute alone. |
| TwoDPlayRequest.ValidateAccepts | app/Http/Requests/TwoD/TwoDPlayRequest.php:24-52 | A request is accepted exactly when all of these hold:<br>- the total is a number of at least 1;<br>- the list is non-empty;<br>- every number is a one- or two-digit string;<br>- every amount is a whole number of at least 1 or `true`;<br>- the amounts add up to the total, `true` counting 1. |
| TwoDPlayRequest.OnlyMismatch | app/Http/Requests/TwoD/TwoDPlayRequest.php:44-49 | Entries that all pass but add up to something else produce one message only: the mismatch, under `totalAmount`. |
| TwoDPlayRequest.ScalarAmountsSkipSum | app/Http/Requests/TwoD/TwoDPlayRequest.php:44 | A scalar `amounts` fails the `array` rule and never reaches the sum check. |
| TwoDPlayRequest.BooleanAmountsMessages | app/Http/Requests/TwoD/TwoDPlayRequest.php:26 | A boolean `amounts` draws "must be an array", plus the `amounts.min` message for `false`, and `totalAmount` keeps only its own rule messages. |
| TwoDPlayRequest.FalseTotalMessages | app/Http/Requests/TwoD/TwoDPlayRequest.php:25 | A JSON `false` total draws the `numeric` and then the `min` message, followed by the mismatch message exactly when a list's sum is not zero. |
| TwoDPlayRequest.TrueAmountAccepted | app/Http/Requests/TwoD/TwoDPlayRequest.php:28 | A single entry whose amount is JSON `true` is accepted against a total of 1. |
| TwoDPlayRequest.ErrorBag.Add | app/Http/Requests/TwoD/TwoDPlayRequest.php:48 | The bag becomes `Put` of the old bag with that one message. |
| TwoDPlayRequest.RunAfterHook | app/Http/Requests/TwoD/TwoDPlayRequest.php:40-51 | The bag becomes `AfterHook` of the old bag. |
| TwoDPlayRequest.ValidatePlay | app/Http/Requests/TwoD/TwoDPlayRequest.php:22-52 | The rules fill the bag, then the after-hook runs on it; the result is `Validate`. |
| ChatMessages.FormattedMessage | app/Models/ChatMessage.php:68-75 | The placeholder for a deleted message, the stored text otherwise. |
| ChatMessages.NotDeleted | app/Models/ChatMessage.php:52-55 | Never longer than the input. Every kept row is an undeleted row of the input, and every undeleted row is kept. |
| ChatMessages.NotDeletedExtremes | app/Models/ChatMessage.php:52-55 | The scope drops nothing from a list without deleted rows, and keeps nothing of a list of deleted ones. |
| ChatMessages.NotDeletedIdempotent | app/Models/ChatMessage.php:52-55 | Filtering twice is the same as filtering once. |
| ChatMessages.NotDeletedAppend | app/Models/ChatMessage.php:52-55 | The scope distributes over concatenation, so it keeps the rows' order. |
| ChatMessages.MessageKinds | app/Models/ChatMessage.php:80-91 | No message is both a system and a user message. Images and files are neither. |
| ChatParticipants.Online | app/Models/ChatParticipant.php:48-56 | Online, seen now, no longer left. Joined now unless already joined, in which case the join time is kept. |
| ChatParticipants.Offline | app/Models/ChatParticipant.php:61-68 | Offline, and both seen and left now. The join time stays. |
| ChatParticipants.Seen | app/Models/ChatParticipant.php:73-76 | Only the last-seen time changes. |
| ChatParticipants.MinutesBetween | app/Models/ChatParticipant.php:84 | The absolute difference in whole minutes, rounded down. |
| ChatParticipants.CurrentlyOnlineWindow | app/Models/ChatParticipant.php:81-85 | A member counts as online exactly when flagged online and seen less than 300 seconds from now. |
| ChatParticipants.OnlineLasts | app/Models/ChatParticipant.php:48-85 | Right after going online, a member is online for the next 299 seconds, and not from 300 on. |
| ChatParticipants.OfflineNotOnline | app/Models/ChatParticipant.php:61-85 | After going offline, a member is not online, whatever the time. |
| ChatParticipants.SeenKeepsOnline | app/Models/ChatParticipant.php:73-85 | Refreshing the last-seen time of an online member keeps them online now. |
| ChatParticipants.JoinedAtKept | app/Models/ChatParticipant.php:48-76 | The join time, once set, never changes again. |
| ChatParticipants.FirstOnlineJoins | app/Models/ChatParticipant.php:48-56 | A member that never joined joins at the first time they go online. |
| ChatParticipants.Participant.MarkAsOnline | app/Models/ChatParticipant.php:48-56 | The record's state becomes `Online` of its old state. |
| ChatParticipants.Participant.MarkAsOffline | app/Models/ChatParticipant.php:61-68 | The record's state becomes `Offline` of its old state. |
| ChatParticipants.Participant.UpdateLastSeen | app/Models/ChatParticipant.php:73-76 | The record's state becomes `Seen` of its old state. |
| ChatReducer.NoChangeSame | react-chat-components/ChatProvider.jsx:9-23 | Two states that differ in no field are the same state. |
| ChatReducer.ReduceFrame | react-chat-components/ChatProvider.jsx:41-82 | Every action changes only the fields it is about. |
| ChatReducer.UnknownUnchanged | react-chat-components/ChatProvider.jsx:79-80 | An action the switch does not list returns the state unchanged. |
| ChatReducer.AddMessageFront | react-chat-components/ChatProvider.jsx:58-62 | A new message goes in front. The list is one longer, with the older messages after it in order. |
| ChatReducer.LoadingEnds | react-chat-components/ChatProvider.jsx:46-56 | Loading a message list or an error ends loading and stores the payload. |
| ChatReducer.ClearEmpties | react-chat-components/ChatProvider.jsx:76-77 | Clearing empties the list and changes nothing else. |
| ChatReducer.AddedNewestFirst | react-chat-components/ChatProvider.jsx:58-62 | Messages added one by one end up newest first, in front of those already there. Nothing but the list changes. |
| ChatReducer.ClearAfterAdds | react-chat-components/ChatProvider.jsx:58-77 | Clearing after any run of additions leaves an empty list, and the loading flag is as it was. |

## Left out

- **Numbers and money.**
  - Floating point and PHP `decimal` rounding: money is whole cents, and the payout multiplier is a whole number.
  - PHP's loose `==` between strings and numbers is modelled only where the source compares numerals to numerals.
  - The `(float)` cast of the ledger's amounts is not modelled.
- **Database and concurrency.**
  - Transactions, `lockForUpdate` and concurrent requests are not modelled.
  - A rollback appears as "every table unchanged" in a method's contract.
  - Deposit failures in settlement are a set of refused users passed in.
  - In `generateUniqueSlipNumber`, the clock does not advance between retries, and `usleep` is not modelled.
- **Messages and replies.**
  - Logging and log-only accumulators (`$totalWinners`, `$totalPrizeAmount`) are not modelled.
  - HTTP responses keep their status code and title only.
  - The Burmese over-limit message body is not modelled.
  - The mismatch message of `play` is kept by its amounts in cents, without the details list.
- **Dates.** A draw session is a `Date`; parsing the request's date strings is not modelled.
- **Listings not modelled.** These read the same tables without logic of their own:
  - the all-sessions branch of both `dailyWinners` actions;
  - the admin `dailyWinners` listing;
  - the bet-history listings;
  - `getQuickPatterns`;
  - `triggerSessionTransition`.
- **Toggles.** `toggleDrawSession`: `filter_var` is modelled on the words it knows, in ASCII case, without trimming.
- **2D play request.**
  - The `TrimStrings` and `ConvertEmptyStringsToNull` middleware are not modelled, so input strings arrive as sent.
  - Integer-looking texts such as "1.0" are not modelled: `integer` means a whole numeric value.
  - A non-numeric amount text inside the list, which raises a type error in PHP 8's sum, is not modelled.
  - The error bag's key order is not modelled (a map).
  - `amounts` sent as an associative array is not modelled.
  - A JSON float sent as a bet number is not modelled: `num` is a string, an integer, a boolean or absent.
  - The mismatch message keeps the total's text and the computed sum, not PHP's rendering of the float.
- **ChatParticipants.MinutesBetween:**
  - It models the absolute whole minutes of Carbon 2.
  - Carbon 3's signed `diffInMinutes` differs only for a last-seen time in the future.
- **Chat client.**
  - Echo/Pusher, `fetch` and the React components are not modelled; only the reducer is.
  - Payload typing is not modelled: the reducer stores whatever the action carries.
- **Out of scope.** The chat controller, the chat room model, the other seeders and the migrations are not part of this model.

## Findings

| source | as written | input that shows it | evidently intended | confidence | as-written member | corrected member |
|---|---|---|---|---|---|---|
| app/Services/ThreeDDrawService.php:116-132 | `startOfDay()` at line 116 resets the clock before the draw-time test at line 132, which also needs hour ≥ 14 and minute ≥ 30 together. | Any run on a draw day: the clock reads 00:00, so the test fails. At 15:10 the test fails even without the reset. | Close the current session once 14:30 has passed on its day. | not executed; high | SessionLifecycle.CloseCurrentNeverFires, SessionLifecycle.DrawTimeTestMissesQuarterPast | SessionLifecycle.CloseCurrentIntended, SessionLifecycle.DrawTimeReachedIff |
| app/Services/ThreeDDrawService.php:268-274 | `lt($currentDate)` is evaluated first, so a draw day's midnight is already earlier than any later reading of that same day. | 1 February 2025 at 10:00: that session is listed as past while betting on it is open. | The whole draw day is current. | not executed; high | SessionLifecycle.StatusAsWrittenCases, SessionLifecycle.PastWhileBettingOpen | SessionLifecycle.IntendedStatus, SessionLifecycle.StatusAsWrittenAgreement |
| app/Http/Controllers/Api/ThreeDController.php:422 | The winners report computes `bet_amount * 800`; line 453 repeats it in the all-sessions branch, which is not modelled. | One exact bet of 100 on "123": reported 80000, deposited 50000. | Report the prize that was paid. Settlement pays 500 times the stake ("First Prize: 500x", app/Http/Controllers/Admin/ThreeD/ThreeDigitController.php:282-285), and the admin report sums `potential_payout` (same file, line 499). The limit seeder, however, sets an 800 `payout_multiplier` (database/seeders/ThreeDLimitSeeder.php:20), so the 500 may be the side that is off; either way report and payment disagree. | not executed; medium | ApiThreeD.WinnersReportOverstates | ApiThreeD.PaidReportMatchesSettlement |
