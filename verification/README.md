# Verification of the treasury core

A Dafny model of the arithmetic, the calendar, the forecast grid, the event stream, the approval
workflow and the tenant loader of the treasury agent, with proofs of what they promise.
`dafny verify dfyconfig.toml` checks all of it.

## What is modelled

* **Money** (`Rounding`, `Allocation`, `Conversion`, `MoneyText`). Integer division in three rounding
  modes, largest-remainder splitting as both layers write it, conversion with its leftover, and the text
  form of amounts. The split is characterised without an algorithm, shown to be the only one of its kind
  and the closest possible to the exact quotas.
* **The cash calendar** (`Gregorian`, `Calendar`, `Months`, `Holidays`, `Schedules`, `Deposits`). Dates are
  ordinals with a proven year-month-day correspondence; weekday 0 is Monday. Business days are any weekend
  rule short of all seven days plus any finite set of holidays. The loops have termination proofs.
* **Debt and covenants** (`Debt`, `Covenants`). Actual/360 interest, amortisation, safe draws, the two
  revolver gates, and the headroom of ratio covenants.
* **The forecast** (`Movements`, `Drivers`, `Forecasts`, `GridLaws`, `OverrideLaws`, `DriverTotals`,
  `Variance`, `MapSums`). Receivables, payables and dated commitments become movements; the grid groups
  them by category and week, applies overrides and carries balances; both variance bridges compare grids.
  A category is its position in the closed list of fourteen.
* **The event stream** (`EventStream`, `Reconnect`, `EventBus`). The bus, its queues and the
  replay-then-live coroutine. Every suspension point is the end of a step, and any number of events may be
  emitted between two steps. The full log exists only in the analysis. `EventBus` holds the objects, each
  method proved to be the step that the other two modules study over whole runs.
* **Approvals and the session** (`Approvals`, `SessionRuns`, `SessionObjects`). Classification and routing,
  cards, the ledger with its audit trail, and the weekly session from cycle to execution as a state machine
  with a history of when each step was taken.
* **The loader** (`Loader`, `LoaderLaws`, `LoaderPasses`, `LoadTotals`, `Reconcile`). The passes over a tenant's rows,
  the report, and the arithmetic gate that decides whether the load is kept. A stored row's id stands for the source key that
  it is derived from.

`Arith`, `Seqs`, `Text` and `Results` hold what these share.

## Where the code and its documentation part

* money.py:208-213 says that converting the leftover gives nothing. At two target units for three source
  units it does not (`Conversion.LeftoverMayConvert`). `Conversion.LeftoverVanishesIff` gives, for each rounding
  mode, the exact rates for which it does; `Conversion.LeftoverBound` bounds the leftover for all of them.
* cadence.py:502-529 stops at the first anniversary after the end of the window. One such anniversary can roll
  back into the window and is then missed (`Schedules.MissedOnMemorialDay`); `Schedules.ServiceDateMissedIff` says
  exactly when.
* cadence.py:136-141 compares month numbers without years. `Calendar.StaysInMonthIff` shows that the promise never to
  leave the month is kept exactly on calendars with an open day in every month, and
  `Calendar.RollingKeepsOrderIff` that dates keep their order exactly where no closed day finds its next business
  day in a month of the same number but another year. `Calendar.ClosedYearRollsAhead` is a calendar that breaks both.
* forecast.py:789-792 explains that an overdue payable catches the next run. A payable due after the last
  run is also moved, to the first run of the horizon, so it is paid early (`Drivers.RunForIs`,
  `Drivers.PaidBeforeDue`).
* constraints.py:147-179 floors utilisation to basis points, so the gate is one basis point more
  lenient than the exact ceiling (`Covenants.UtilizationGate`, `Covenants.GateLetsThroughOverCeiling`);
  covenants.py:138-238 does the same for leverage (`Covenants.LeverageHeadroom`,
  `Covenants.LeveragePassesBelowZero`).
* bus.py:109-114 gives the opener frame the number of an event that has not been delivered. A reader that
  resumes one after the last frame's id skips that event if it saw nothing but the opener
  (`Reconnect.OpenerSkipsAnEvent`); `Reconnect.LastIdResumesIff` says after which frames it resumes rightly. The
  resume theorem is therefore stated over log events.
* doa_matrix.yaml:8-9 asks for three different people on a card. approvals.py:450-471 compares preparer and
  approver only (`Approvals.DecisionTakenIff`), so every approved card has exactly two people on record, whatever
  its route asks for (`Approvals.ThreePeopleIff`, with an example in `Approvals.NoReviewerAsked`).
* loader.py:89-107 reports mapped and source value as one number, so the value coverage is always zero or
  full (`LoadTotals.ValueCoverageIsAllOrNothing`). The totals also count rows that a later row of the same key
  replaces, so an accepted load need not hold what was stated (`LoadTotals.DuplicateInvoiceIsAccepted`).
  `LoadTotals.AcceptanceTiesOutIff` names the sources for which acceptance means what it says.
* loader.py:207-214 reads at most fifty thousand rows per entity and does not report the rest, while loader.py:16-18
  promises that none is skipped in silence. `LoaderLaws.RunLosesNoRowIff` says exactly when none is;
  `LoaderLaws.LastCustomerVanishes` is a table of one row too many.

## Model

| member | source | states |
|---|---|---|
| `Rounding.DivRound` | backend/finance/rounding.py:14-46 | Dividing raises exactly for a zero divisor; otherwise it returns the mode's rounding of the quotient, for any signs. |
| `Rounding.RoundMagnitude` | backend/finance/rounding.py:31-45 | The part after the signs are taken off: truncation, half up, or half to even on two positive operands. |
| `Rounding.RoundedIff` | backend/finance/rounding.py:14-46 | The result is the one and only integer each mode allows: nearest towards zero; at most half away with ties outwards; at most half away with ties to even. |
| `Rounding.RoundedOdd` | backend/finance/rounding.py:21-45 | Negating the dividend negates the rounded quotient, in every mode. |
| `Rounding.RoundedMonotone` | backend/finance/rounding.py:14-46 | A larger dividend never rounds to less. |
| `Rounding.RoundedScale` | backend/finance/rounding.py:14-46 | Cancelling a common positive factor does not change the rounded quotient. |
| `Allocation.Ranking` | backend/finance/money.py:163-168 | The order in which leftover units are given: a permutation of the parts, larger remainder first, then the earlier part. |
| `Allocation.Allocate` | backend/finance/money.py:147-173 | The finance layer's loop returns the largest-remainder split, or the error for no ratios, a negative ratio, or ratios that add up to zero. |
| `Allocation.AllocateContract` | backend/contracts/money.py:161-187 | The separately written loop of the contracts layer returns the same outcome for every input. |
| `Allocation.AddUnits` | backend/finance/money.py:166-171 | The closing loop hands one more unit to each listed part and to no other. |
| `Allocation.PartsAreHamilton` | backend/finance/money.py:158-173 | The computed parts add up to the amount, each is its floored quota or one more, and whoever got the extra unit had a larger remainder (or the same one and an earlier place) than whoever did not. |
| `Allocation.HamiltonUnique` | backend/finance/money.py:158-173 | Only one split meets that description. |
| `Allocation.ZeroRatioGetsZero` | backend/finance/money.py:147-173 | A part with ratio zero gets nothing. |
| `Allocation.PartsFollowRatios` | backend/finance/money.py:147-173 | A larger ratio never gets less, and of equal ratios the earlier never gets less. |
| `Allocation.HamiltonIsClosest` | backend/finance/money.py:147-173 | No integer split of the same total lies closer to the exact quotas, in total absolute distance. |
| `Allocation.AllocationPromise` | backend/finance/money.py:147-173 | For every accepted call, signed amounts included: as many parts as ratios, nothing lost or made, and no other split of that total is closer to the exact quotas. |
| `Allocation.AllocationMirrored` | backend/finance/money.py:156-173 | Splitting the negated amount gives the negated parts. |
| `Allocation.EvenSplit` | backend/finance/money.py:175-178 | Equal ratios give parts that differ by at most one unit, the larger ones first. |
| `Conversion.MinorUnits` | backend/finance/currency.py:57-63 | The scale loop returns ten to the number of decimals. |
| `Conversion.ConvertWithRemainder` | backend/finance/money.py:199-239 | A rate whose base is the source is read as it stands, one whose base is the target the other way round, and any other pair is refused. The converted amount is what the source amount is worth at that price, to within half a minor unit or cut off towards zero; the leftover is the source amount less what the converted amount is worth back. The same currency needs a rate for itself and loses nothing. |
| `Conversion.HundredEuros` | backend/finance/money.py:221-232 | At 1.0850 dollars for a euro 100.00 euros are 108.50 dollars and nothing else; at 160 yen they are 16000 yen. |
| `Conversion.InvertedRateAgrees` | backend/finance/fx.py:38-46 | A rate and its inverse convert every amount alike. |
| `Conversion.ConvertedMonotone` | backend/finance/money.py:219-239 | A larger amount never converts to less. |
| `Conversion.ConvertedOdd` | backend/finance/money.py:219-239 | Converting the negated amount gives the negated amount and the negated leftover. |
| `Conversion.LeftoverBound` | backend/finance/money.py:199-239 | In the half modes the leftover is worth at most half a target unit plus half a source unit. |
| `Conversion.FinerTargetLosesNothing` | backend/finance/money.py:199-239 | In the half modes a target at least as fine as the source leaves no leftover. |
| `Conversion.LeftoverMayConvert` | backend/finance/money.py:208-213 | The documented promise that the leftover converts to nothing is false: at two target units for three source units, an amount of one. |
| `Conversion.LeftoverVanishesIff` | backend/finance/money.py:208-239 | For each rounding mode, that promise holds for every amount exactly for the rates that pass a test on the rate alone (its whole quotient, its remainder, their common divisor). |
| `Conversion.PromiseKept` | backend/finance/money.py:208-239 | Under that test the leftover of any amount converts to nothing. |
| `Conversion.BrokenHalfEven` | backend/finance/money.py:208-239 | For every rate that fails it, half-even conversion has an amount whose leftover converts to something. |
| `Conversion.BrokenHalfUp` | backend/finance/money.py:208-239 | The same for half-up conversion. |
| `Conversion.BrokenDown` | backend/finance/money.py:208-239 | The same for truncating conversion. |
| `MoneyText.FromMajor` | backend/finance/money.py:41-67 | Reading a text returns what its notation denotes, or the source's error: nothing there, not the notation, too many decimals. |
| `MoneyText.ShapeUnique` | backend/finance/money.py:41-67 | A text has at most one reading as sign, whole digits and decimals. |
| `MoneyText.ParseUndoesPrint` | backend/finance/money.py:69-78 | Printing any amount at any number of decimals and reading it returns the amount. |
| `MoneyText.PrintNormalises` | backend/finance/money.py:41-78 | For every accepted text, printing what it means and reading that changes nothing. |
| `Gregorian.MonthStep` | backend/finance/cadence.py:282-285 | The next month starts when this one ends, over year ends and leap years too. |
| `Gregorian.FieldsOfDate` | backend/finance/cadence.py:282-309 | Year, month and day, turned into an ordinal and back, are unchanged. |
| `Gregorian.DateOfFields` | backend/finance/cadence.py:282-309 | An ordinal, turned into year, month and day and back, is unchanged. |
| `Gregorian.FebruaryEnds` | backend/finance/cadence.py:282-294 | February has a 29th every four years, but of the full centuries only every fourth. |
| `Gregorian.FourCenturies` | backend/finance/cadence.py:282-294 | Dates and weekdays repeat every 400 years. |
| `Calendar.NextBusinessDay` | backend/finance/cadence.py:115-120 | The least business day strictly after a day. |
| `Calendar.PreviousBusinessDay` | backend/finance/cadence.py:122-127 | The greatest business day strictly before a day. |
| `Calendar.StepForward` | backend/finance/cadence.py:115-120 | The forward loop ends, for any finite holiday set and any weekend short of all seven days, on the next business day. |
| `Calendar.StepBackward` | backend/finance/cadence.py:122-127 | The backward loop ends, likewise, on the previous business day. |
| `Calendar.Adjust` | backend/finance/cadence.py:129-141 | Rolling returns the day each convention names, comparing month numbers as the code does. |
| `Calendar.RollsToNearest` | backend/finance/cadence.py:129-141 | FOLLOWING is the first business day from a day on, PRECEDING the last one up to it, and a business day stays. |
| `Calendar.ShortRunsOpenMonths` | backend/finance/cadence.py:129-141 | No 28 closed days in a row means that every month has an open day. |
| `Calendar.ModifiedFollowing` | backend/finance/cadence.py:136-141 | Where every month opens, comparing month numbers is as good as comparing months. |
| `Calendar.StaysInMonthIff` | backend/finance/cadence.py:129-141 | Rolling never leaves the month, for any date, exactly when every month has an open day. |
| `Calendar.ModifiedFollowingMonotone` | backend/finance/cadence.py:129-141 | Rolling keeps the order of two dates on any calendar where no closed day finds its next business day in a month of the same number but another year. |
| `Calendar.RollingKeepsOrderIff` | backend/finance/cadence.py:129-141 | For all dates at once rolling keeps their order exactly on those calendars. |
| `Calendar.SkippedYearBreaksOrder` | backend/finance/cadence.py:136-141 | From any closed day that is rolled ahead into another year, a later date that is rolled to an earlier day. |
| `Calendar.OpenMonthsNeverSkip` | backend/finance/cadence.py:136-141 | Calendars with an open day in every month are among them. |
| `Calendar.ClosedYearRollsAhead` | backend/finance/cadence.py:136-141 | Closed from 31 January to 31 December 2027, the 31st is rolled to 3 January 2028 and the day after it back to 29 January 2027. |
| `Calendar.AdjustMovesAtMost` | backend/finance/cadence.py:129-141 | With an open day among any n + 1 in a row, no convention moves a date by more than n days. |
| `Calendar.AddBusinessDays` | backend/finance/cadence.py:143-156 | Settlement raises exactly for negative counts; a count of zero gives the first business day from the day on; any other gives the business day with exactly that many business days after the start up to it. |
| `Calendar.SteppedCount` | backend/finance/cadence.py:143-156 | Exactly n business days lie between a day and n business days on. |
| `Calendar.BusinessDaysCompose` | backend/finance/cadence.py:143-156 | Settling m days and then n is settling m + n, for m at least one. |
| `Months.MonthEndIs` | backend/finance/cadence.py:282-285 | The month end is the day before the next month starts. |
| `Months.AddMonthsIs` | backend/finance/cadence.py:288-294 | A shift lands in the right month, on the same day of it or on its last one. |
| `Months.AddMonthsEomIs` | backend/finance/cadence.py:297-309 | The end-of-month shift lands in the right month: on its last day from a month end, otherwise as the plain shift does. |
| `Months.AddMonthsEomIncreasing` | backend/finance/cadence.py:297-309 | Later shifts are later dates. |
| `Holidays.UsFederalHolidays` | backend/finance/cadence.py:206-232 | The loop returns exactly the observed holidays of the years asked for, and refuses a range that runs backwards. |
| `Holidays.HolidaysOfYear` | backend/finance/cadence.py:191-232 | The eleven holidays one by one: five fixed days, kept on the Monday after a Sunday and not at all on a Saturday, and six weekdays in a given week of their month. |
| `Holidays.NthWeekdayWindow` | backend/finance/cadence.py:177-181 | The nth weekday of a month is that weekday, in the nth week counted from the first of the month. |
| `Holidays.LastWeekdayWindow` | backend/finance/cadence.py:184-188 | The last weekday of a month is that weekday, within its last seven days. |
| `Holidays.HolidaysApart` | backend/finance/cadence.py:206-232 | Two different observed holidays are at least five days apart, also across years. |
| `Holidays.FourDaysHoldOne` | backend/finance/cadence.py:206-236 | Any four days in a row hold a business day. |
| `Holidays.UsCalendarOpens` | backend/finance/cadence.py:129-141 | For every year range: a business day in any four, an open day in every month, and no date rolled by more than three days. |
| `Schedules.AnniversariesIncrease` | backend/finance/cadence.py:502-529 | Later anniversaries of the anchor are later dates. |
| `Schedules.PaymentsPerYear` | backend/finance/cadence.py:502-529 | Monthly, quarterly, semiannual and annual schedules reach the same month of the next year after twelve, four, two and one steps. |
| `Schedules.MonthEndAnchorKept` | backend/finance/cadence.py:297-309 | A schedule anchored on a month end never leaves month ends. |
| `Schedules.LastAnniversaryBefore` | backend/finance/cadence.py:515-519 | The rewind loop ends on the last anniversary at or before the window, or on the anchor itself. |
| `Schedules.DebtServiceDates` | backend/finance/cadence.py:502-529 | On any calendar the dates are exactly the rolled images in the window of the anniversaries the loop visits with a raw date not past the end; every anniversary inside the window, both ends included, is served if it rolls into it; and where no day is rolled into another year, all anniversaries count, over all whole step counts, either way. Ascending, none twice. |
| `Schedules.EarlierRollsEarlier` | backend/finance/cadence.py:515-519 | An anniversary before one that is not after the window's start rolls to a day before the window, unless it is rolled into another year. |
| `Schedules.WholeProgression` | backend/finance/cadence.py:520-529 | Where no day is rolled into another year, the stretch of the progression the loop visits decides the whole of it. |
| `Schedules.ServiceDateMissedIff` | backend/finance/cadence.py:520-529 | An anniversary after the end rolls back into the window, and so is missed, exactly when the rest of the end's month is closed, an anniversary falls in that rest, and the window has an open day of that month. |
| `Schedules.MissedOnMemorialDay` | backend/finance/cadence.py:520-529 | A dated example, weekends and Memorial Day closed: due 31 May 2027, paid Friday the 28th, after the raw end of a window that ends on Sunday the 30th. |
| `Schedules.ApRunDates` | backend/finance/cadence.py:439-461 | The payment runs are exactly the chosen weekday's days in the window, pulled back when closed and still in the window; ascending, none twice. |
| `Schedules.BiweeklyPayDates` | backend/finance/cadence.py:352-379 | The pay dates are exactly the days a whole number of fortnights from the anchor, paid early when closed, that fall in the window. |
| `Schedules.WeekIndexIs` | backend/finance/cadence.py:263-274 | Week w of a grid is exactly the seven days from its Monday. |
| `Deposits.SemiWeeklyDue` | backend/finance/cadence.py:408-433 | Wednesday to Friday paydays deposit on the first Wednesday after, the others on the first Friday after. |
| `Deposits.SemiWeeklyDueIff` | backend/finance/cadence.py:408-433 | That rule names exactly one day, the one computed. |
| `Deposits.MonthlyDue` | backend/finance/cadence.py:428-429 | Under the monthly rule the deposit is due on the 15th of the following month. |
| `Deposits.SamePeriodSameDue` | backend/finance/cadence.py:430-433 | Two paydays share a due date exactly when no Wednesday and no Saturday starts a new deposit period between them. |
| `Deposits.DueDateMonotone` | backend/finance/cadence.py:426-434 | A later payday is never due earlier, on either schedule. |
| `Deposits.DepositsKeepOrder` | backend/finance/cadence.py:426-435 | A deposit comes after its payday, never before its due date, and deposits keep the order of the paydays. |
| `Deposits.PayrollTaxDepositDates` | backend/finance/cadence.py:408-436 | The deposits are exactly the due dates of the paydays rolled forward; ascending, none twice. |
| `Deposits.BusinessDaysBetween` | backend/finance/cadence.py:158-162 | Exactly the business days of an inclusive range, in order. |
| `Deposits.WeekdayWeights` | backend/finance/cadence.py:537-554 | The ratios are the weekday's weights, none beyond the list; negative weights and an empty total are refused. |
| `Deposits.DistributeOverWeek` | backend/finance/cadence.py:557-576 | The parts fall on exactly the business days of the week and add up to the amount, each day weighed by its place counted from the Monday, days without weight get nothing, and once the weights pass the split cannot fail. |
| `Debt.AccruedInterest` | backend/finance/debt.py:123-137 | Interest is refused exactly for negative days or a negative rate, and otherwise is the rounded actual/360 amount. |
| `Debt.InterestWithinHalf` | backend/finance/debt.py:132-137 | That interest lies within half a minor unit of exact actual/360. |
| `Debt.AmortisationSchedule` | backend/finance/debt.py:182-229 | The schedule raises exactly for no periods, a negative principal or rate, or a rolled due date that lies before the one it follows; otherwise every row has the rolled due date, the interest of the days since the row before, its instalment and the balance after it. |
| `Debt.DatesRunForward` | backend/finance/debt.py:205-215 | Where no day is rolled into another year, and so wherever every month opens, no due date lies before the one it follows, so that error cannot arise. |
| `Debt.AmortisationPromise` | backend/finance/debt.py:199-229 | Row i is due the given number of months times i after the first payment, on its day of the month or the last one there is, rolled. Its interest is that of the actual days between its due date and the one before, over a year of 360, on what was then owed, within half a unit; the first row has none. The instalments never rise and differ by at most one unit, each row carries the balance on, and the last closes at zero. |
| `Debt.NinetyOneDays` | backend/finance/debt.py:199-229 | Four quarterly instalments of 1,000,000.00 at 6 % from 15 January 2027: the 91 days to 15 July cost 30,333.33. |
| `Debt.InstalmentsRepayPrincipal` | backend/finance/debt.py:199-229 | The instalments add up to exactly the principal. |
| `Covenants.MaxSafeDrawIsLargest` | backend/finance/debt.py:89-106 | A draw keeps a facility within its own ceiling and the policy's exactly when it is at most the maximum safe draw; a facility over either is offered nothing. |
| `Covenants.SafeDrawPassesGates` | backend/finance/constraints.py:126-179 | Every draw up to that maximum passes the capacity and the utilisation gate. |
| `Covenants.CapacityGate` | backend/finance/constraints.py:126-145 | A draw passes the capacity gate exactly if a facility that has it drawn is still within its limit. |
| `Covenants.UtilizationGate` | backend/finance/constraints.py:147-179 | The utilisation gate floors to basis points, so it lets through exactly the draws short of the next basis point. |
| `Covenants.GateLetsThroughOverCeiling` | backend/finance/constraints.py:147-179 | Two of three units drawn under a ceiling of 66.66 %: over it, and let through. |
| `Covenants.LeverageHeadroom` | backend/finance/covenants.py:138-238 | Leverage: a non-negative currency headroom means a pass, and a pass leaves it above minus a basis point of EBITDA; the headroom in basis points is the threshold less the floored ratio. |
| `Covenants.LeveragePassesBelowZero` | backend/finance/covenants.py:138-238 | A net debt of one unit against a threshold of zero passes with a headroom of minus one. |
| `Covenants.CoverageHeadroom` | backend/finance/covenants.py:138-238 | Coverage: a pass means a non-negative headroom, and a positive headroom means a pass; the headroom in basis points is the floored ratio less the threshold. |
| `Covenants.RatioNeedsBase` | backend/finance/covenants.py:190-228 | Without positive EBITDA, or without interest, a ratio covenant fails and has no headroom. |
| `Covenants.AmountHeadroom` | backend/finance/covenants.py:162-238 | Minimum cash and minimum liquidity: the headroom is exactly the cash that can still go out before the covenant fails. |
| `EventStream.NoGapNoDuplicate` | backend/orchestrator/bus.py:99-133 | For every interleaving, past the snapshot and with nothing dropped, delivered and pending events are one stretch of the full log to its end: no gap, no repeat, though events may sit in ring and queue at once. |
| `EventStream.StartsWhereAsked` | backend/orchestrator/bus.py:88-119 | That stretch starts at the later of the number asked for and the oldest number still held, exactly when the bus had reached that number by the snapshot. |
| `EventStream.ResumeKeepsStart` | backend/orchestrator/bus.py:115-119 | The snapshot fixes where the stretch starts: at the later of the number asked for and the oldest held, or where the stream joined if the bus had not got that far; no later step moves it. |
| `EventStream.ResumeKeepsRun` | backend/orchestrator/bus.py:115-131 | Every step of the stream keeps its delivered stretch joined to what is still to come. |
| `EventStream.EmitKeepsRun` | backend/orchestrator/bus.py:69-82 | So does an emit at any point between two steps, unless a queue overflows. |
| `EventStream.ResumeKeepsOrder` | backend/orchestrator/bus.py:115-131 | Every step keeps the delivered numbers strictly increasing, overflow or not. |
| `EventStream.SnapshotKeepsRun` | backend/orchestrator/bus.py:115-119 | Taking the history snapshot after subscribing loses nothing of what the queue already holds. |
| `EventStream.QueueKeepsOldest` | backend/orchestrator/bus.py:44-50 | However many events are offered, a queue holds the oldest up to its limit and has counted every other one as dropped. |
| `Reconnect.EveryRunDelivers` | backend/orchestrator/bus.py:56-133 | Over every run of emits, steps and reconnects, what a connection has delivered is strictly increasing and true to the log; without overflow it is one stretch that, with what is pending, reaches the end; and it starts at the later of the number asked for and the oldest held at the snapshot, if the bus had reached the number asked for. |
| `Reconnect.ReconnectsMissNothing` | backend/api/warroom.py:90-98 | After any chain of reconnects at last received + 1, with no overflow and the cursor still held, everything received is one stretch of the log, and a client that caught up holds all of it from the number it first asked for. |
| `Reconnect.LastIdResumesIff` | backend/orchestrator/bus.py:109-131 | Over every run without overflow or lost cursor, resuming after the last frame of any kind continues with the next event owed exactly when that frame was a log event or a heartbeat of a bus that has emitted; after the opener it skips one. |
| `Reconnect.OpenerSkipsAnEvent` | backend/orchestrator/bus.py:109-131 | A connection lost right after the opener: resuming after the opener's id, the reader never receives event 0. |
| `EventBus.Subscriber.Offer` | backend/orchestrator/bus.py:44-50 | A full queue counts a drop instead of holding up the producer; otherwise the event joins the end. |
| `EventBus.Bus.Emit` | backend/orchestrator/bus.py:69-82 | Stamp the next number, keep the newest events up to the ring's size, offer to every subscriber and to nobody else. |
| `EventBus.Bus.History` | backend/orchestrator/bus.py:88-89 | The ring's events from a number on, in order. |
| `EventBus.Bus.Subscribe` | backend/orchestrator/bus.py:91-94 | A fresh, empty queue joins the subscribers. |
| `EventBus.Bus.Unsubscribe` | backend/orchestrator/bus.py:96-97 | Only the given subscriber leaves. |
| `EventBus.Stream.Open` | backend/orchestrator/bus.py:107-114 | Up to the first frame: subscribed, and the opener carrying the number asked for. |
| `EventBus.Stream.Resume` | backend/orchestrator/bus.py:115-131 | Each resumption takes the analysed step: snapshot, one replayed event, one live event unless replayed already, or a heartbeat. |
| `EventBus.Stream.Close` | backend/orchestrator/bus.py:132-133 | After closing, the bus no longer knows the stream. |
| `EventBus.EmitReaches` | backend/orchestrator/bus.py:76-82 | An emit reaches an open stream exactly as the analysis says, and a closed one not at all. |
| `Approvals.RouteApproval` | backend/finance/controls.py:30-48 | Routing returns the only half-open band that holds the amount, or the error that none or several do. |
| `Approvals.BandsMeet` | backend/finance/controls.py:30-48 | Of two bands that meet, an amount is in exactly one: at the boundary, in the upper one. |
| `Approvals.KindByText` | backend/orchestrator/approvals.py:190-209 | The kind of a row from its text alone: one of the six openings, of which no text has two, then dunning, then a retry, then the rest. |
| `Text.OpensIff` | backend/orchestrator/approvals.py:192-204 | A lower-cased text starts with a word exactly if its first characters are those of the word in either case. |
| `Text.MentionsIff` | backend/orchestrator/approvals.py:205-208 | It holds a word exactly if the characters of the word stand somewhere in the text, in either case. |
| `Text.StripIs` | backend/orchestrator/review.py:153-156 | Stripping takes away blanks at both ends, all of them and nothing else. |
| `Approvals.ClassifyByText` | backend/orchestrator/approvals.py:139-209 | A row needs no card exactly if its text, in whatever case, opens with a call, or opens with no commitment and mentions dunning or a retry, and no protected document is touched; it is blocked exactly if one is. |
| `Approvals.ActionClassFits` | backend/orchestrator/approvals.py:116-209 | The matrix key of every text: one for each of the six openings, for dunning, for a retry and for the rest; an early-pay offer is cheap up to a rate of 2.00 % on file and dear above it or without one; a protected document has its own key. |
| `Approvals.Prepare` | backend/orchestrator/approvals.py:229-290 | The loop prepares row by row with fresh request ids; the first row that cannot be routed ends the whole preparation. |
| `Approvals.PreparedIsWell` | backend/orchestrator/approvals.py:229-290 | Every row whose text does not let it go unsigned ends up with its own card, routed under the key of its text by the only band that holds its amount, to be signed by that band's accountable role or else the CFO; and exactly the rows on protected documents are rejected. |
| `Approvals.RunKeepsLedger` | backend/orchestrator/approvals.py:401-483 | Over every run of registering fresh ids and deciding, the audit trail holds exactly one entry per decided request, with the card and the verdict as decided. |
| `Approvals.StepIsFinal` | backend/orchestrator/approvals.py:450-483 | A step only appends to the trail, an accepted decision adds its own entry, a refused one changes nothing, and a state past pending is final. |
| `Approvals.DecidedForever` | backend/orchestrator/approvals.py:450-483 | Over every run, later trails extend earlier ones, a request leaves PENDING at most once, and a BLOCKED one stays blocked. |
| `Approvals.ApprovedIsLawful` | backend/contracts/approvals.py:143-152 | Only a decision by someone other than the preparer, in the role the matrix names, on a card that is not blocked, makes a request APPROVED. |
| `Approvals.DecisionTakenIff` | backend/orchestrator/approvals.py:450-471 | A decision is taken exactly on a known, undecided card that is not blocked, by someone other than its preparer, and to approve it in the role that signs. |
| `Approvals.ThreePeopleIff` | backend/orchestrator/approvals.py:450-471 | In every reachable ledger an approved card has exactly two people on record, so the three that the matrix asks for are there exactly where the route names no reviewer. |
| `Approvals.TwoPeopleSuffice` | backend/orchestrator/approvals.py:450-471 | On any valid, unblocked route one decision by a second person in the signing role approves a fresh card, whether or not the route names a reviewer. |
| `Approvals.NoReviewerAsked` | backend/orchestrator/approvals.py:450-471 | A deferral whose route names a reviewer, prepared by Ana and approved by Bob alone. |
| `SessionRuns.RunKeepsAll` | backend/api/session.py:256-414 | Over every run of session steps: each gate presupposes the one before, cards belong to the open war room, and no decision on them is older than they are. |
| `SessionRuns.StepTakesNothingBack` | backend/api/session.py:256-414 | No step changes a publication or the cycle it is of, an executed row, an entry of the trail, or the cards of the open war room. |
| `SessionRuns.RunTakesNothingBack` | backend/api/session.py:256-414 | From any point of any run on, the publication stays and the executed rows and the trail are only added to. |
| `SessionRuns.ExecutedIsAuthorised` | backend/orchestrator/approvals.py:516-539 | In such a state a row that the adapter reaches is on no protected document, and either its text may go unsigned or its own card was lawfully approved. |
| `SessionRuns.NothingRunsUnsigned` | backend/api/session.py:256-414 | Over every run: no row on a protected document executes; a row that opens with draw, defer, pay, resolve the dispute or offer early-pay, and any other that is no call and mentions neither dunning nor a retry, executes only after its own card of the current pack was approved by someone else than its preparer, in the accountable role of the only band holding its amount, in the war room open now, which was opened on an escalating check of a run cycle's version, published by someone else than its preparer, in a role that may, for a week in an open period. |
| `SessionRuns.UnsignedRowsSay` | backend/orchestrator/approvals.py:190-209 | A text that may go unsigned, lower-cased, starts with none of the five commitments, and with a call or else holds one of the two words. |
| `Approvals.BarredByText` | backend/orchestrator/approvals.py:516-539 | Whatever the ledger, the executor lets through exactly the rows that are not rejected and carry an approved card, or carry none and do not open as a draw, a deferral or an early-pay offer. |
| `SessionRuns.ExecutesIff` | backend/orchestrator/approvals.py:516-539 | Over every run an execution is let through exactly when cards are made, the first row of that number is on no protected document, and its card, if it has one, is approved and not blocked. |
| `SessionRuns.RowExecutesIff` | backend/orchestrator/approvals.py:516-539 | The same in any state of a run; and a row without a card has a text that may go unsigned. |
| `SessionRuns.PackIsFresh` | backend/orchestrator/approvals.py:229-290 | New cards never reuse a registered request id, so approvals of an earlier war room meet no row of a later pack. |
| `SessionRuns.IsClosedIff` | backend/orchestrator/review.py:60-80 | A day is closed exactly if the first period that contains it is. |
| `SessionObjects.AuditLog.Record` | backend/orchestrator/approvals.py:412-427 | One entry is appended, with the decider's snapshot or else the card's. |
| `SessionObjects.ApprovalLedger.Register` | backend/orchestrator/approvals.py:440-442 | The cards become known under their ids; decisions and trail stay. |
| `SessionObjects.ApprovalLedger.Decide` | backend/orchestrator/approvals.py:450-471 | The object takes the analysed step: refused without a trace, or recorded and audited. |
| `SessionObjects.ApprovalLedger.CurrentState` | backend/orchestrator/approvals.py:474-483 | Unknown, blocked, pending, approved or rejected, in that order of precedence. |
| `SessionObjects.Executor.Execute` | backend/orchestrator/approvals.py:516-539 | The adapter is reached exactly by the rows nothing bars. |
| `SessionObjects.DryRunAdapter.Execute` | backend/orchestrator/approvals.py:497-506 | The row is added to the list of executed ones. |
| `SessionObjects.Session.RunCycle` | backend/api/session.py:256-284 | Running the cycle needs a data source and no publication; it replaces the cycle's result and nothing else. |
| `SessionObjects.Session.Publish` | backend/orchestrator/review.py:140-175 | Publishing needs a run cycle, a publisher other than the preparer in a role that may, and a week that is not in a closed period; a second publication raises. |
| `SessionObjects.Session.CheckPolicy` | backend/api/session.py:331-343 | The policy check needs a publication. |
| `SessionObjects.Session.OpenWarRoom` | backend/api/session.py:345-369 | A war room needs a check that escalates, and drops the cards of the one before. |
| `SessionObjects.Session.PreparePack` | backend/api/session.py:378-394 | Cards are made once per recommendation and then served from the cache. |
| `SessionObjects.Session.DecideCard` | backend/api/session.py:396-400 | Deciding is the ledger's step. |
| `SessionObjects.Session.Execute` | backend/api/session.py:402-414 | Executing needs cards and the row, and is the executor's step. |
| `Drivers.DraftBuilder.Add` | backend/finance/forecast.py:501-531 | A movement is recorded at the end unless it is zero or outside the horizon. |
| `Drivers.Curve.MixtureFor` | backend/finance/forecast.py:151-154 | Every segment, known or not, has a mixture whose weights add up to ten thousand. |
| `Drivers.BuildTradeReceipts` | backend/finance/forecast.py:539-596 | The builder gets, invoice by invoice, the drafts that lie in the horizon: nothing for a balance that is not open; otherwise the open amount times the chance of its age, cut for a dispute, both floored, to the last unit, on the first business day from the promised date, or from so many days after the due date by the weights of the segment. A negative weight raises. |
| `Drivers.BuildInvoice` | backend/finance/forecast.py:547-596 | One invoice: skipped when not open or not collectible, one receipt on its promise, or its lag mixture, each landing rolled forward. |
| `Drivers.InvoiceDraftsExpected` | backend/finance/forecast.py:539-596 | The drafts of one invoice are exactly those, for the ages up to due, 1 to 30, 31 to 60, 61 to 90 and more than 90 days past due, each part within one unit of its weight. |
| `Drivers.TradeErrorIff` | backend/finance/forecast.py:575-577 | Drafting an invoice raises exactly if something is expected of it, nothing is promised, and a lag of its segment has a negative weight. |
| `Drivers.HundredDaysLate` | backend/finance/forecast.py:82-160 | An undisputed 10,000.00 that is 100 days late, at 92 % when current and 30 % beyond 90 days: 3,000.00. |
| `Drivers.TradeReceiptsBounded` | backend/finance/forecast.py:539-596 | With probabilities between none and all, receipts lie between zero and what is open, before and after the horizon cut. |
| `Drivers.BuildAp` | backend/finance/forecast.py:773-806 | Nothing without payables or without a run; otherwise one payment for each open payable. |
| `Drivers.RunForIs` | backend/finance/forecast.py:789-792 | Due by the last run, a payable is paid on the earliest run not before its due date; due after it, on the first run of the horizon, which is before it is due. |
| `Drivers.PaidBeforeDue` | backend/finance/forecast.py:789-792 | With runs on days 10 and 17, a payable due on day 20 is paid on day 10. |
| `Drivers.PaidOnce` | backend/finance/forecast.py:786-806 | With distinct references every open payable has exactly one payment, on that run, for its balance. |
| `Drivers.ApPaysEverything` | backend/finance/forecast.py:786-806 | The payments add up to minus the open payables, each on a run day. |
| `Drivers.BuildDated` | backend/finance/forecast.py:911-923 | Each dated commitment in the horizon is recorded on its date, for its amount. |
| `Movements.CellTotalByDates` | backend/finance/forecast.py:964-969 | What a cell adds up to depends on the seven days of its week alone, not on where the grid starts or ends. |
| `Movements.KeptMembers` | backend/finance/forecast.py:501-531 | The builder keeps exactly the movements that are not zero and lie in the horizon. |
| `Forecasts.Collect` | backend/finance/forecast.py:948-960 | The drivers, one after the other, leave exactly their movements of the horizon, or stop at the first error. |
| `Forecasts.Group` | backend/finance/forecast.py:964-969 | Grouping puts every draft under its category and week. |
| `Forecasts.MapOverrides` | backend/finance/forecast.py:971-973 | Of several overrides of one cell the last one counts. |
| `Forecasts.AnyOutside` | backend/finance/forecast.py:974-976 | The loop finds an override beyond the horizon exactly when there is one. |
| `Forecasts.FillCells` | backend/finance/forecast.py:978-1037 | Category by category and week by week, each cell gets its drafts' total or its override. |
| `Forecasts.Build` | backend/finance/forecast.py:948-1060 | The grid has the Mondays of the horizon, a cell per category and week, closing balances that add up the weeks so far, and available liquidity above them by the undrawn revolver; or it fails as the drivers do, or for an override beyond the horizon. |
| `Forecasts.SumWeek` | backend/finance/forecast.py:1041-1044 | The week's sum picks out exactly the cells of that week. |
| `Forecasts.WeekTotalOfRows` | backend/finance/forecast.py:410-413 | In a finished grid that sum runs over every category once. |
| `GridLaws.CellAt` | backend/finance/forecast.py:399-403 | The lookup returns the first cell of that category and week, or none. |
| `GridLaws.OneCellEach` | backend/finance/forecast.py:978-1037 | Each category and week of the horizon has exactly one cell, and there are no others. |
| `GridLaws.CellContributions` | backend/finance/forecast.py:964-993 | A cell holds a movement as often as it was drafted if it is of its category and week, and not at all otherwise. |
| `GridLaws.KeptInGrid` | backend/finance/forecast.py:964-969 | Every kept movement falls in a week of the horizon, so none is passed over in grouping. |
| `GridLaws.RefusedOverrides` | backend/finance/forecast.py:972-977 | The build refuses exactly the overrides that are meant for no cell of the grid. |
| `GridLaws.FinalCashIsOpeningPlusDrafts` | backend/finance/forecast.py:1039-1045 | Without overrides each week closes at opening cash plus every draft dated up to then, and the last week at opening cash plus all drafts. |
| `OverrideLaws.OverridesShiftBalances` | backend/finance/forecast.py:971-1045 | Up to any week, overrides move the balance by the sum of override minus engine amount over the overrides that win. |
| `OverrideLaws.ClosingsShiftByOverrides` | backend/finance/forecast.py:971-1045 | The same of two finished grids, one with and one without the overrides, week by week. |
| `OverrideLaws.LastWinsDecides` | backend/finance/forecast.py:971-973 | The winning overrides decide every cell as the whole list does. |
| `OverrideLaws.AmountIs` | backend/finance/forecast.py:1004-1016 | The amount of a cell is that of the last override given for it, or else the total of its drafts. |
| `OverrideLaws.CellShows` | backend/finance/forecast.py:979-1036 | A cell shows every draft of its category in the seven days of its week as often as it was drafted, and is marked overridden exactly if an override was given for it. |
| `OverrideLaws.RolledCell` | backend/finance/forecast.py:1077-1098 | With dated commitments only, a rolled cell says what the prior drivers said one week further on. |
| `OverrideLaws.RolledClosingsCoincide` | backend/finance/forecast.py:1077-1098 | Opened with the prior week-1 closing, the rolled grid closes every shared week on the prior balance. |
| `DriverTotals.GridReceiptsWithinOwed` | backend/finance/forecast.py:539-596 | The trade receipts of a whole grid lie between nothing and everything customers owe. |
| `DriverTotals.GridPaysEveryPayable` | backend/finance/forecast.py:773-806 | The trade payments of a whole grid are minus the open payables if the horizon has a run, and nothing if it has none. |
| `DriverTotals.TradeCategoriesAreSeparate` | backend/finance/forecast.py:948-960 | No other driver writes to the two trade categories. |
| `DriverTotals.CellsByList` | backend/finance/forecast.py:948-1000 | What the drivers say of a cell is what its own list brings in the seven days of its week, category by category, for all fourteen. |
| `Variance.ActualVsForecast` | backend/finance/variance.py:137-189 | The closed-week bridge, or the error of a week outside the horizon, an unknown category or a missing cell. |
| `Variance.ActualBridgeTies` | backend/finance/variance.py:252-267 | That bridge ties, for every materiality threshold. |
| `Variance.ClosedWeekVariance` | backend/finance/variance.py:137-189 | Against a finished grid the bridge exists exactly when the week is in the horizon and every category known, and its variance is the actual net change minus the week's forecast total. |
| `Variance.ClosedWeekRows` | backend/finance/variance.py:137-189 | The rows are actual less forecast, a category without settled cash counting as zero, and name exactly the categories where that reaches the threshold; the bridge is dated on the end of the week. |
| `Variance.ForecastVsPrior` | backend/finance/variance.py:192-249 | The bridge over the shared calendar weeks, or the error that none are shared. |
| `Variance.SumShared` | backend/finance/variance.py:218-224 | One category summed over the shared weeks, each looked up by its own week number. |
| `Variance.PriorBridgeTies` | backend/finance/variance.py:252-267 | This bridge ties too, for every threshold. |
| `Variance.ForecastChange` | backend/finance/variance.py:192-249 | Of two finished grids there is a bridge exactly if they share a week. It closes on what this forecast's balance moves by over the shared weeks less what the prior one's does, its rows say so by category and name exactly those where the change reaches the threshold, and it is dated on the Sunday of the last shared week. |
| `Variance.GateTies` | backend/finance/variance.py:79-100 | Splitting off the immaterial lines into one summary keeps the total variance. |
| `Variance.GateNamesTheMaterial` | backend/finance/variance.py:79-100 | The named rows are exactly the material lines. |
| `Variance.GateTells` | backend/finance/variance.py:79-100 | Of a line for each category the gate makes a row for exactly those that reach the threshold, unchanged, and one more whose variance is the difference of its own two sums. |
| `Variance.RolledWeeksShared` | backend/finance/variance.py:207-215 | After a roll the shared weeks are the current 1 to H-1 and the prior 2 to H, none for a one-week horizon. |
| `Variance.RolledRow` | backend/finance/variance.py:217-226 | Each category's row compares exactly those weeks. |
| `Variance.RolledVariancesAreZero` | backend/finance/variance.py:192-249 | With dated commitments only and no overrides, every row of the rolled bridge is zero. |
| `MapSums.MapSumRemove` | backend/finance/variance.py:60-61 | Summing the values of a week's actuals does not depend on the order they are taken in. |
| `Loader.LoadReport.Finish` | backend/ingest/loader.py:195-199 | After each pass the rows read and the rows loaded are added to the report, under the entity. |
| `Loader.Loader.LoadCustomers` | backend/ingest/loader.py:266-288 | Each row is stored under its key or reported, and its key becomes known. |
| `Loader.Loader.LoadVendors` | backend/ingest/loader.py:290-318 | The same for vendors, with an unknown criticality read as standard. |
| `Loader.Loader.LoadAccounts` | backend/ingest/loader.py:320-357 | The same for accounts; an unreadable balance is reported and the account still loaded, at zero. |
| `Loader.Loader.LoadInvoices` | backend/ingest/loader.py:373-474 | The same for invoices, whose customer must be known; the open total adds up every row loaded. |
| `Loader.Loader.LoadVendorInvoices` | backend/ingest/loader.py:373-474 | The same for vendor invoices. |
| `Loader.Loader.LoadEntries` | backend/ingest/loader.py:476-523 | The same for movements, whose account must be known and whose amount must not be zero. |
| `Loader.Loader.Run` | backend/ingest/loader.py:180-203 | The planned entities in order, parents first: the stored books, the known keys, the tally of the report and its three totals. |
| `LoaderLaws.RowsPartition` | backend/ingest/loader.py:266-523 | Loaded rows plus reports are the rows, plus one for every row both loaded and reported. |
| `LoaderLaws.NoRowVanishes` | backend/ingest/loader.py:266-523 | A loaded row's key is stored and a refused row's reason is in the report. |
| `LoaderLaws.WrittenIsLast` | backend/ingest/loader.py:258-264 | What a pass leaves under a key is its last loaded row. |
| `LoaderPasses.CustomerPass` | backend/ingest/loader.py:266-288 | A pass leaves under each key the last row that has it, with name and key cut to length and the key for a missing name, under no other key anything, and a report for each row without a key. |
| `LoaderPasses.VendorPass` | backend/ingest/loader.py:290-318 | The same, with the criticality as it reads without blanks and in lower case if that is important or critical, and standard otherwise. |
| `LoaderPasses.AccountPass` | backend/ingest/loader.py:320-357 | The same for rows with a currency; the balance is as read, or zero; an unreadable one and every row that is not stored are reported with their reason. |
| `LoaderPasses.DocumentLoadedIff` | backend/ingest/loader.py:387-474 | A document row is loaded exactly when key, parent, currency, amount, due date, issue date and open amount pass their checks. Its status is the one it reads as, without blanks and in lower case, if that is part_paid, paid, written_off or void, or disputed on a vendor invoice, and open otherwise; the open amount is as read, or all of an open or part-paid document and nothing of another; a missing issue date is thirty days before due; a refusal gives a reason that is true of the row. |
| `LoaderPasses.DocumentPass` | backend/ingest/loader.py:373-474 | A pass leaves under each key the last such row of it, as just described, with the parent, dates, amounts and currency of that row, under no other key anything, and a report for each row that cannot be stored. |
| `LoaderPasses.PaidInvoice` | backend/ingest/loader.py:425-433 | An invoice of 500.00 that reads as paid, with no open amount, is stored as paid with nothing open. |
| `LoaderPasses.EntryPass` | backend/ingest/loader.py:476-523 | A pass over movements leaves under each key the last row of it that can be stored, as it reads, under no other key anything, and a report with a true reason for each row that cannot. |
| `LoaderPasses.ParentsKnown` | backend/ingest/loader.py:180-203 | The parents that documents and movements of a run may have are those known before and those of every storable row of the run's own parent tables. |
| `LoaderPasses.RunStoresInvoices` | backend/ingest/loader.py:180-203 | After a run the invoice under a key is the last storable row for it, judged by those parents, or what was there before. |
| `LoaderPasses.RunStoresBills` | backend/ingest/loader.py:180-203 | The same for vendor invoices. |
| `LoaderLaws.ReadRowsAreAccounted` | backend/ingest/loader.py:180-203 | Over a run, mapped rows plus rejects are the rows read plus the accounts loaded without a readable balance; those are the only rows counted twice. |
| `LoaderLaws.RunLosesNoRowIff` | backend/ingest/loader.py:207-214 | Every row of every planned table is counted, and is loaded or reported, exactly when no table is longer than fifty thousand rows. |
| `LoaderLaws.LastCustomerVanishes` | backend/ingest/loader.py:207-214 | Of 50,001 customers the last is neither stored nor reported, and the totals do not show it. |
| `LoaderLaws.DocumentsHaveParents` | backend/ingest/loader.py:388-395 | A stored document has a known parent, an issue date not after the due date, and an open amount within its gross. |
| `LoaderLaws.RunKeepsLinks` | backend/ingest/loader.py:180-203 | A run never leaves a document or movement whose parent is not stored. |
| `LoaderLaws.SecondRunChangesNothing` | backend/ingest/loader.py:258-264 | Loading the same source again, with a new loader or the same one, leaves the books and the report's tally as they were. |
| `LoadTotals.OpenReportedIs` | backend/ingest/loader.py:455-466 | The reported open total is what is stored plus the open amounts of the loaded rows that a later row of their key replaces. |
| `LoadTotals.MovedReportedIs` | backend/ingest/loader.py:503-523 | The same for the cash movements. |
| `LoadTotals.NothingOpenReplacedIff` | backend/ingest/loader.py:455-466 | The replaced open amounts add up to nothing exactly when no loaded row with an open amount has a later loaded row of its key. |
| `LoadTotals.AcceptanceMeans` | backend/ingest/validate.py:45-92 | Exactly what an accepted load of a fresh tenant says about the stored receivables, payables and cash. |
| `LoadTotals.AcceptedBooksTieOut` | backend/ingest/validate.py:45-92 | With one row per key, accepted books hold the stated receivables and payables, and cash within the tolerance. |
| `LoadTotals.AcceptedOpenTiesIff` | backend/ingest/validate.py:45-92 | An accepted load of a fresh tenant holds the stated receivables, or payables, exactly when no loaded row with an open amount has a later loaded row of its key. |
| `LoadTotals.AcceptedCashTiesIff` | backend/ingest/validate.py:45-92 | Whatever is stated and tolerated, acceptance leaves stored cash within the tolerance exactly when the replaced movements add up to nothing. |
| `LoadTotals.AcceptanceTiesOutIff` | backend/ingest/validate.py:45-92 | The sources for which every acceptance means stated receivables and payables and cash within tolerance: exactly those that meet all three conditions. |
| `LoadTotals.DuplicateInvoiceIsAccepted` | backend/ingest/validate.py:45-92 | A source with two rows of one invoice that is accepted although the books hold less than stated. |
| `LoadTotals.ValueCoverageIsAllOrNothing` | backend/ingest/loader.py:89-107 | The value coverage is zero or full, since both sides of it are the same number. |
| `Reconcile.Reconcile` | backend/ingest/validate.py:45-92 | The gate lists the failures in order and accepts exactly when no check fails. |
| `Reconcile.FailuresAre` | backend/ingest/validate.py:54-74 | Every failing check is listed, and listed once. |
| `Reconcile.CoverageBps` | backend/ingest/validate.py:76-86 | Coverage is the mapped part of the source in basis points, floored: at most full, full when everything is mapped, and zero for an empty source. |

## Left out

- Semi-monthly, monthly, quarterly and three-payroll-month date lists: the same month loop as the modelled schedules.
- Currencies inside a forecast, a bridge or a load: every amount of a grid is in one currency, so the mixed-currency errors do not arise.
- Order of a cell's contributions and all text on it (source, method, assumption, reason): contributions are a multiset.
- Forecast minima, liquidity windows, rendering and the DTO views: one-line reads of the proved grid.
- Materiality thresholds from policy: the threshold is an input and the bridges are proved for every one.
- `Decimal` operations of contracts/money.py other than `allocate`: they depend on the decimal context.
- `FXRate.from_decimal_string` and the currency table.
- The lead-time, protected-class and covenant constraints of constraints.py: single comparisons.
- Model calls, prompts, replay recordings, agents, FastAPI routes, SSE text, the database and its SQL invariants.
- What an awaited call returns (cycle, policy check, investigation) is an input of the session step that awaits it; executor and cycle internals are not part of this model.
- Interleaving inside a locked session step: each public method is one step.
- Heartbeat timing and cancellation: a heartbeat is a step that delivers no log event.
- Overrides recorded in the review ledger, and the notes and override ids of a publication; closed periods are an input of the session, which configures none itself.
- The order in which the database hands out the rows of a table: the model reads the first fifty thousand of a fixed order.
- Timestamps, versions and UUID generation: request ids are numbers drawn above every earlier one, and `derived_id` is taken to be injective for one tenant and kind.
- The validator that asks a rejection for a reason (contracts/approvals.py:133-136).
- Parsing of amounts, dates and currency codes while loading: each row carries the outcome of `to_minor`, `to_date` and `to_currency`; the company row and the assumption notes are not modelled.
- Python's date range, non-ASCII digits and non-ASCII case folding: ordinals are unbounded and text is ASCII.
- A negative `replay_from`, which the request schema refuses, and a weekend of all seven days, for which the business-day loops do not end.
- Forecasts.Build: the movements of subscriptions, payroll, rent, estimated tax and debt service are an input, limited to their own categories, and the errors of those five drivers do not arise; of the date lists they draw on, those modelled are listed above.
- Forecasts.Collect: as `Forecasts.Build`, for the same five drivers.
- Approvals.Prepare: discount rates in hundredths of a percent are an input, since their Decimal quantisation depends on the decimal context, and the length limits of a card's texts are not checked.
- Schedules.DebtServiceDates: where a closed day is rolled into another year, anniversaries before the visited ones can roll into the window and are not returned; the contract then names the visited ones.
- EventStream.NoGapNoDuplicate: stated for a stream whose queue has not overflowed, because a full queue drops events by design.
