# Opaca control-plane verification

A Dafny 4.11 model of Opaca's deterministic control plane, with proofs of the properties
that its layers promise to each other. It has three parts.

**TreasuryGuard.** `Money`, `Calendar`, `Domain`, `Liquidity`, `Unresolved`, `Guard`,
`GuardLoops`, `Subsets`, `PartialFill`, `FillSafety`, `Authority`, `RollingAuthority` and
`Decision` model the guard checks, the exhaustive fill-subset assessment and delegated
authority; `Requirements` and `Checks` say over the inputs alone what they ask for. Main
results: exactly which proposals are rejected, left to a human and decided automatically;
CHECK-02 decides every calendar day; CHECK-01 dominates the other cash checks; the
exhaustive subset loop equals a linear test; rolling limits hold in every window, as far as
they do.

**Ledger.** `Records`, `Tables`, `States`, `Sync`, `Execution`, `Orchestration`, `Compare`
and `Reconcile` describe each transaction as a function of the tables; `Store` holds the
tables as fields of a class whose methods carry the source's loops and early exits and are
proved against those functions. `Gates`, `Reports`, `Agreement` and `Transactions` say over
rows, calls and reports alone when each transaction answers what, and what it writes.
`Gates`, `Reports`, `Capacity`, `CapacitySteps`, `ReserveRuns`, `Oversell`, `LedgerSteps`,
`LedgerRuns`, `Proceeds` and `SubmitOnce` prove properties of whole runs: no trade in doubt,
no order without an approval in time, fills as they were last told, capacity accounting, no
cash over-commitment, no oversell, conservation of positions and of sale proceeds, at most
one submit. `Counterexamples` and `OversellRuns` hold runs from the empty ledger in which a
law fails.

**Wheel.** `WheelExposure`, `WheelLedger`, `WheelRuns` and `WheelCapital` model the
assignment-capital ledger: caps over all runs, with and without assigned shares, single
reservation, release only on proof, conservation of capital, agreement of the exposure
accumulators. `WheelAnswers` says over the rows alone what each operation answers.

`Results` and `Sums` are shared helpers: optional values, and sums over sequences.

How the source is represented:

- `Decimal` values are exact reals. ROUND_DOWN, ROUND_HALF_UP and ROUND_HALF_EVEN are
  explicit functions; concentration fractions are compared by cross-multiplication.
- A `BEGIN IMMEDIATE` block is one atomic step; a block that raises returns the old tables.
  Broker calls are steps of their own and may time out, repeat or interleave.
- Tables are sequences of rows. Primary keys and unique indexes are invariants, and the
  insert that would violate one rolls back.
- Hashed identities (client order ids, proposal hashes, reservation ids) are injective
  constructors.
- Kill switch, environment, session, quote freshness and human grants arrive as booleans
  with each call; they can change from call to call.
- Reconciling, reserving and starting are separate steps of a ledger run, so any transaction
  may fall between them. Each run theorem names the premises that it needs
  (`LedgerRuns.Premise`): accepted reports never lower a fill; sells that are over fill no
  more; verdicts are RECONCILED; nothing with an unstamped net sale is reserved for sale; no
  reservation is made while a resolved row hides another; reports keep, or do not raise, the
  value of what had filled.

Where the code and its descriptions differ, the model follows the code, shows the input and
proves when the description does hold:

- The "order count" limits of CHECK-07 and CHECK-13 compare history rows, one a proposal,
  with a limit on orders. Orders in a window of limit n can reach n + (n-1) + ... + 1
  (`RollingAuthority.EveryWindowOrders`, `TriangleIsReached`); the limits bound orders
  exactly if one of them is at most one (`BoundsOrdersIff`). A proposal without legs may go
  one row past the count (`EmptyProposalGoesPast`,
  `Counterexamples.EmptyProposalPassesTheCount`); `RowsFitIff` says exactly when.
- Merging unresolved orders picks the largest remainder of an id even when that member is
  already resolved; shares are then freed (`Unresolved.ResolvedPickFreesShares`) and sold
  again (`OversellRuns.ResolvedPickOversells`). `Unresolved.GroupKeepsReservation` gives the
  exact condition.
- A sell that is over may still fill. An answer that says FILLED without a quantity ends the
  order with nothing filled, and a later lookup raises its fill after its shares were sold
  again (`OversellRuns.LateFillOversells`). `Oversell.ReportBoundedIff` gives the exact
  condition on the report, `Oversell.ExposureRisesIff` the reports that it can concern.
- `evaluate_and_reserve` trusts the snapshot position. After a sale that no snapshot has
  stamped it admits shares that are gone (`Counterexamples.UnstampedSaleOversells`).
  `LedgerSteps.AdmittedSellsFitIff` gives the exact condition on the tables.
- A price correction without a larger fill is not recorded as proceeds
  (`Counterexamples.CorrectedPriceLifts`). `Proceeds.ValueStaysSettled` and, for the upper
  bound alone, `Proceeds.ValueStaysCovered` give the exact conditions on the report.
- Released reservations are never recreated, so a fill that falls back can leave open
  quantity without capacity (`Counterexamples.FallingFillUncovers`), which is then sold
  again (`OversellRuns.FallingFillOversells`).
  `CapacitySteps.ReportKeepsIff` gives the exact condition.

## Model

| member | source | states |
|---|---|---|
| `Money.RoundBudget` | backend/opaca/domain/money.py:103-105 | Rounding a budget moves toward zero by less than one cent: it never increases an amount. |
| `Money.RoundMoney` | backend/opaca/domain/money.py:98-100 | Rounds to within half a cent and keeps the sign. |
| `Money.TruncateCentsGreatest` | backend/opaca/domain/money.py:84-105 | The floored value is the largest whole-cent amount not above its argument. |
| `Money.RoundMoneyMonotone` | backend/opaca/domain/money.py:84-100 | Rounded values keep the order of the exact ones. |
| `Calendar.NextTradingDay` | backend/opaca/calendar/us_trading_calendar.py:61-73 | The walking loop finds the first session after a day, and fails exactly when there is none up to the bound. |
| `Calendar.AddTradingDays` | backend/opaca/calendar/us_trading_calendar.py:75-81 | The counting loop is the n-fold step; a negative count is refused. |
| `Calendar.TradingDaysBetween` | backend/opaca/calendar/us_trading_calendar.py:89-98 | Lists exactly the trading days of the interval, in order. |
| `Calendar.AddSessionsCounts` | backend/opaca/calendar/us_trading_calendar.py:61-98 | For n >= 1 the result is a trading day with exactly n sessions in (d, result]; it fails exactly when fewer than n sessions remain up to the bound. |
| `Calendar.SessionCountIdentifiesDay` | backend/opaca/calendar/us_trading_calendar.py:75-98 | Two trading days with the same session count from d are the same day. |
| `Calendar.AddSessionsComposes` | backend/opaca/calendar/us_trading_calendar.py:75-81 | Adding n and then m sessions is adding n + m, failures included. |
| `Calendar.SettlementOnCycle` | backend/opaca/calendar/us_trading_calendar.py:83-87 | For every settlement cycle: exactly when a settlement date exists, how many sessions lie up to it, and that it is after the trade date. |
| `Liquidity.ScheduleIsExact` | backend/opaca/treasury/liquidity.py:62-147 | Every schedule row equals `available_on` and `headroom_on` at its date. |
| `Liquidity.ScheduleDates` | backend/opaca/treasury/liquidity.py:108-133 | The schedule lists exactly the as-of date and every due and settlement date, ascending. |
| `Liquidity.InvestmentPoolBase` | backend/opaca/treasury/liquidity.py:185-220 | The loop computes permitted holdings at rounded market value plus non-negative investable cash, and fails on a missing price. |
| `Liquidity.DeltaBySymbol` | backend/opaca/treasury/liquidity.py:235-239 | The dictionary holds the signed quantity of every symbol. |
| `Liquidity.ProjectSymbols` | backend/opaca/treasury/liquidity.py:241-262 | One projected value a symbol and their total; fails exactly when a price is missing. |
| `Liquidity.ProjectPortfolio` | backend/opaca/treasury/liquidity.py:223-276 | Totals and concentration fractions of the projected portfolio, scoped to permitted symbols. |
| `Liquidity.DeriveSellEvents` | backend/opaca/treasury/liquidity.py:279-302 | One event a sell leg on the derived settlement date; without sells the calendar is not consulted. |
| `Unresolved.SellReservations` | backend/opaca/policy/engine.py:141-164 | The loop reserves, for every symbol, the sum of determinable unresolved sells, and flags a symbol exactly when some unresolved sell has no determinable remainder. |
| `Unresolved.MergeUnresolved` | backend/opaca/orchestration/context.py:174-197 | The grouping loops compute the merged list: anonymous orders, then the representatives of each id in order of first appearance. |
| `Unresolved.GroupKeepsReservation` | backend/opaca/orchestration/context.py:183-197 | Exact condition for a group to keep the shares of a SELL member: the group is kept whole, or the member picked is unresolved. |
| `Unresolved.ConsistentGroupCountsOnce` | backend/opaca/orchestration/context.py:183-197 | A consistent group reserves what its pick reserves, once, and a determinable pick has the largest remainder of the group. |
| `Unresolved.MergeKeepsReservations` | backend/opaca/orchestration/context.py:174-197 | Merging never frees shares: each symbol is undeterminable or still reserves at least the sum of its SELL reservations. |
| `Unresolved.ContextReservesEverything` | backend/opaca/orchestration/context.py:85-197 | The same over the whole context: active reservations, unknown rows and broker orders that are not local. |
| `Unresolved.LocalCopyReservesNothing` | backend/opaca/orchestration/context.py:137-171 | A broker order whose id is local, wherever it stands and whatever it says, changes the reserved quantity and the determinability of no symbol. |
| `Orchestration.LocalCopyChangesNoContext` | backend/opaca/orchestration/context.py:137-263 | The broker copy of an order known by an execution row, an active reservation or an unknown row leaves the whole policy context unchanged. |
| `Unresolved.ResolvedPickFreesShares` | backend/opaca/orchestration/context.py:190-197 | Witness: a stale unknown row that is already cancelled, but larger, replaces the reservation of its id and its shares vanish. |
| `OversellRuns.ResolvedPickOversells` | backend/opaca/orchestration/context.py:174-197 | Witness run from the empty ledger: a lost order found cancelled, without a filled quantity, hides its own reservation, and a second sale of the same shares is decided AUTO. |
| `GuardLoops.ExistingQuantities` | backend/opaca/policy/engine.py:296-297 | The dictionary of held quantities agrees with the position rows. |
| `GuardLoops.FrameQuantities` | backend/opaca/policy/engine.py:296-304 | The leg loop computes projected quantities and sold quantities for every symbol. |
| `GuardLoops.CheckReserve` | backend/opaca/policy/engine.py:352-383 | The loop for the worst date passes exactly when every collected date keeps the operating reserve. |
| `GuardLoops.PreTradeFractions` | backend/opaca/policy/engine.py:439-444 | The fractions of permitted, held symbols before the trade. |
| `GuardLoops.DeRiskingProblems` | backend/opaca/policy/engine.py:445-490 | No problem is recorded exactly when nothing offends, or every earlier offender strictly improves and no new one appears. |
| `GuardLoops.CheckConcentration` | backend/opaca/policy/engine.py:394-490 | CHECK-04 with its dictionaries and loops decides the concentration rule, the empty pool and missing prices included. |
| `GuardLoops.CheckLongOnly` | backend/opaca/policy/engine.py:726-771 | CHECK-16 with its loops: no projected short, and every sell within the reservation-aware bound. |
| `GuardLoops.CheckTradable` | backend/opaca/policy/engine.py:492-506 | CHECK-05 over the symbols of the proposal. |
| `GuardLoops.CheckIdentity` | backend/opaca/policy/engine.py:553-576 | CHECK-09: the loop with its set of indices seen so far decides distinct indices and derived ids. |
| `GuardLoops.CheckOpposing` | backend/opaca/policy/engine.py:578-601 | CHECK-10: set intersection and the loop over unresolved orders decide that no symbol is traded on two sides. |
| `GuardLoops.CheckObligations` | backend/opaca/policy/engine.py:625-657 | CHECK-12 over the obligations, with its vacuous and failing exits. |
| `GuardLoops.CheckDust` | backend/opaca/policy/engine.py:671-686 | CHECK-14 over the legs. |
| `Authority.CheckDimensions` | backend/opaca/authority/engine.py:70-103 | The four dimensions of CHECK-07, with the loops over legs and window. |
| `GuardLoops.EvaluateProposal` | backend/opaca/policy/engine.py:219-258 | The violated checks among those asked for; the kill switch short-circuits. |
| `Guard.NothingInvested` | backend/opaca/policy/engine.py:427-436 | With no pool base, the test on the total invested value is the test on every symbol. |
| `Guard.ReserveHoldsEveryDay` | backend/opaca/policy/engine.py:319-383 | CHECK-02 tests finitely many dates, yet passes exactly when liquidity after the trade is at least the operating reserve on every calendar day. |
| `Guard.CashCheckIsCeilingCheck` | backend/opaca/policy/engine.py:338-350 | CHECK-01 is CHECK-06 together with non-negative investable cash. |
| `Guard.CashCheckCoversDay` | backend/opaca/policy/engine.py:319-350 | CHECK-01 keeps the operating reserve on any day under any settlement schedule. |
| `Guard.CashCheckDominates` | backend/opaca/policy/engine.py:338-657 | CHECK-01 implies CHECK-06, CHECK-11 when prices are known, and CHECK-02 and CHECK-12 when settlement dates can be derived. |
| `Subsets.AllSubsets` | backend/opaca/policy/partial_fill.py:73-77 | Enumerates the combinations of every size from 1 to n. |
| `Subsets.SubsetCount` | backend/opaca/policy/partial_fill.py:73-77 | The enumeration has exactly 2^n - 1 entries. |
| `Subsets.SubsetMembers` | backend/opaca/policy/partial_fill.py:73-77 | It contains exactly the non-empty sub-tuples. |
| `PartialFill.CoversWithSubset` | backend/opaca/policy/partial_fill.py:169-189 | The loops answer whether every obligation is covered when only these sells fill. |
| `PartialFill.ExamineSubsets` | backend/opaca/policy/partial_fill.py:119-135 | No violation is recorded exactly when every subset passes both questions. |
| `PartialFill.AssessPartialFillSafety` | backend/opaca/policy/partial_fill.py:89-148 | Safe exactly when every non-empty sub-tuple is safe and zero fill is covered; counts 2^n - 1 subsets; refuses more than twelve legs. |
| `FillSafety.FillIsBetween` | backend/opaca/policy/partial_fill.py:89-148 | A partial fill leaves every value between the value before the trade and the value after all of it. |
| `FillSafety.ConcentrationByValues` | backend/opaca/policy/engine.py:424-490 | CHECK-04 on a positive pool, by cross-multiplied values instead of fractions. |
| `FillSafety.FillKeepsCash` | backend/opaca/policy/partial_fill.py:54-66 | Checks 01, 02, 06 and 11 can never fail on a fill of a passing proposal. |
| `FillSafety.FillKeepsLongOnly` | backend/opaca/policy/engine.py:726-771 | CHECK-16 can never fail on a fill of a passing proposal. |
| `FillSafety.FillStaysCovered` | backend/opaca/policy/partial_fill.py:151-189 | Obligations stay covered whichever sells fill, none of them included. |
| `FillSafety.FillSafetyIsConcentration` | backend/opaca/policy/partial_fill.py:119-135 | A fill of a passing proposal is safe exactly when CHECK-04 passes on it. |
| `FillSafety.FillPassesIffImproved` | backend/opaca/policy/engine.py:450-490 | A fill creates no offender, so it passes exactly when it strictly improves every holding that was over the limit. |
| `FillSafety.EveryFillImproves` | backend/opaca/policy/engine.py:450-490 | Every non-empty fill improves exactly when every single leg does. |
| `FillSafety.ExhaustiveIsLinear` | backend/opaca/policy/partial_fill.py:73-189 | For a proposal that passes the guard, the exhaustive subset loop is the linear test: nothing is over the limit, or exactly one holding is and every leg is a sell of it that alone strictly lowers its value. |
| `Decision.Decide` | backend/opaca/policy/decision.py:22-45 | Guard, then fill safety, then the delegated-authority dimensions. |
| `Decision.DecisionIsLinear` | backend/opaca/policy/decision.py:22-45 | REJECT exactly when the guard fails, there are more than twelve legs or the linear test fails; AUTO only within authority. |
| `RollingAuthority.RollingSeesWindow` | backend/opaca/authority/engine.py:40-60 | A decision sees the notional of every window it falls into, because future-dated rows count. |
| `RollingAuthority.EveryWindowNotional` | backend/opaca/authority/engine.py:55-94 | Notional reserved autonomously in any 24 hours stays within the limit, with clocks in any order. |
| `RollingAuthority.EveryWindowProposals` | backend/opaca/authority/engine.py:63-117 | Proposals reserved in any 24 hours and in any hour stay within the counts, one more if proposals without legs occur. |
| `RollingAuthority.RowsFitIff` | backend/opaca/authority/engine.py:95-117 | An authorized proposal leaves the rows of each window within its count exactly if it has legs or a row was still free. |
| `RollingAuthority.EmptyProposalGoesPast` | backend/opaca/authority/engine.py:95-117 | Under every policy some authorized history of proposals without legs goes one row past the tighter count, in both windows. |
| `Counterexamples.EmptyProposalPassesTheCount` | backend/opaca/orchestration/reserve.py:325-364 | Witness run from the empty ledger: three automatic reservations within the hour under a limit of two. |
| `RollingAuthority.EveryWindowOrders` | backend/opaca/authority/engine.py:95-117 | One history row a proposal bounds the orders of either window, of limit n, by n + (n-1) + ... + 1 only. |
| `RollingAuthority.TriangleIsReached` | backend/opaca/authority/engine.py:95-117 | For the tighter count that bound is reached within one hour, under every policy whose notional limits leave room for it. |
| `RollingAuthority.BoundsOrdersIff` | backend/opaca/authority/engine.py:95-117 | The two order counts bound the orders of every window if one of them is at most one and, where the notional limits leave room, only then. |
| `Orchestration.ReplayChangesNothing` | backend/opaca/orchestration/reserve.py:221-263 | A known proposal id changes no row; asking again never asserts AUTO, blocks a different payload, and repeats the recorded authority. |
| `Store.Store.ReserveProposal` | backend/opaca/orchestration/reserve.py:188-394 | `evaluate_and_reserve` and its replay path, as the specified transaction on the tables. |
| `Store.Store.InsertReservations` | backend/opaca/persistence/store.py:708-773 | SELL rows by symbol, a CASH row, identity rows and one history row, as specified. |
| `Store.Store.CollectSells` | backend/opaca/persistence/store.py:715-719 | Totals by symbol and the id of the last sell leg of each. |
| `ReserveRuns.AutoMeans` | backend/opaca/orchestration/reserve.py:333-364 | An automatic reservation was decided AUTO for an unknown id, and appends exactly its rows. |
| `ReserveRuns.InvestableIsWhatFits` | backend/opaca/orchestration/context.py:200-263 | Investable cash is settled cash less reserve, obligations and all active cash reservations. |
| `ReserveRuns.AutoFits` | backend/opaca/orchestration/reserve.py:325-364 | After an automatic reservation everything reserved fits into the cash settled that day. |
| `ReserveRuns.RunsNeverOvercommit` | backend/opaca/orchestration/reserve.py:188-519 | Once something was reserved automatically, reserve, obligations and active cash reservations stay within settled cash through every later call and replay, on that date and later. |
| `ReserveRuns.RunsAreAuthorized` | backend/opaca/persistence/store.py:769-773 | The history table is the earlier grants and then exactly the automatic reservations of the run, each authorized by the rows before it. |
| `ReserveRuns.RunsStayWithinAuthority` | backend/opaca/authority/engine.py:40-117 | Over whole runs of calls every grant keeps the per-order and per-proposal limits, and every window the rolling ones. |
| `ReserveRuns.EvaluateAndReserveKeeps` | backend/opaca/orchestration/reserve.py:350-364 | Every call keeps the capacity invariant. |
| `Requirements.PassesIff` | backend/opaca/policy/engine.py:219-771 | A proposal passes the guard exactly if it pays for its buys from free settled cash, every symbol is permitted, tradable and priced, its sells settle and fit what unresolved sells leave, nothing becomes too concentrated, its legs are well formed, and it trades one side only. |
| `Requirements.DecisionIff` | backend/opaca/policy/decision.py:22-45 | Exactly when the answer is REJECT, AUTO and APPROVAL_REQUIRED: acceptability, twelve legs, safety of any fill, each leg within the per-order limit, their sum within the per-proposal limit, and the 24-hour and hourly limits over the history rows. |
| `Checks.EachCheckIff` | backend/opaca/policy/engine.py:319-771 | Each of the sixteen checks by itself, as a condition on positions, prices, cash, obligations, legs and policy. |
| `Checks.FillSafeIff` | backend/opaca/policy/partial_fill.py:119-189 | Exactly when the assessment accepts the case that one subset of the legs fills. |
| `Checks.AssessmentIff` | backend/opaca/policy/partial_fill.py:89-148 | Safe exactly if every fill of some legs is acceptable by itself and leaves the obligations met, and no fills at all leave them met. |
| `Checks.SettlementScheduleIs` | backend/opaca/treasury/liquidity.py:279-302 | Exactly when settlement events can be derived, the day of each, and one a sell leg. |
| `Checks.PoolIff` | backend/opaca/treasury/liquidity.py:185-220 | The pool exists exactly if cash covers what is unsettled and each permitted holding has a price; it is their worth beside free cash. |
| `Checks.ComputedLiquidityIs` | backend/opaca/treasury/liquidity.py:75-147 | Every amount of the projection as a sum over the events and obligations; it exists exactly if cash covers what settles later. |
| `Checks.ScheduledDatesAre` | backend/opaca/treasury/liquidity.py:108-133 | The schedule has a row for a day exactly if it is today, a due date or the date of a settlement still to come. |
| `Checks.ScheduledRowsAre` | backend/opaca/treasury/liquidity.py:108-133 | Every column of every row as a sum over the events and obligations. |
| `Checks.FractionsAre` | backend/opaca/treasury/liquidity.py:241-276 | Exactly which symbols are given a fraction of the pool, and which. |
| `Calendar.TradesIff` | backend/opaca/calendar/us_trading_calendar.py:101-228 | Which days either calendar trades on, which it supports, and that a question outside them fails. |
| `Unresolved.RepresentativesAre` | backend/opaca/orchestration/context.py:183-197 | What a group of records of one order is merged to: all of it if they agree, else the first largest or the first of unknown size. |
| `Unresolved.ReservationSources` | backend/opaca/orchestration/context.py:85-106 | Exactly which unresolved orders the reservations contribute, column by column. |
| `Unresolved.UnknownSources` | backend/opaca/orchestration/context.py:109-134 | ... the lost orders ... |
| `Unresolved.BrokerSources` | backend/opaca/orchestration/context.py:137-152 | ... and the broker orders that the ledger does not know. |
| `Gates.ContextReads` | backend/opaca/orchestration/context.py:200-298 | Where every part of the policy context comes from; obligations include the active cash reservations of other proposals. |
| `Gates.HistoryReads` | backend/opaca/persistence/store.py:775-795 | The authority history leaves out exactly the rows of the excluded proposal. |
| `Gates.UnresolvedReads` | backend/opaca/orchestration/context.py:85-273 | The unresolved orders of a context are merged from exactly the reserved sales and lost orders of other proposals and the broker orders that no reservation, lost row, execution row or leg of the excluded proposal knows. |
| `Gates.NewIdAnswers` | backend/opaca/orchestration/reserve.py:133-364 | An unknown id is decided exactly if the snapshot exists, is reconciled, has the expected version, is not from the future and not too old, and the quotes are usable; otherwise it is blocked and nothing is written. A decision writes its row, and AUTO its reservations. |
| `Gates.KnownIdAnswers` | backend/opaca/orchestration/reserve.py:221-263 | What a known id is answered, by payload, expiry and recorded authority. |
| `Gates.ReservesAutomaticallyIff` | backend/opaca/orchestration/reserve.py:188-364 | Exactly when evaluate-and-reserve trades by itself. |
| `Gates.StartAnswers` | backend/opaca/execution/service.py:387-563 | An execution starts exactly if no order of the proposal exists, the snapshot is fresh and reconciled, nothing blocks, the payload is the recorded one, capacity is there, and it is decided AUTO again or a stored grant meets an approval that has not expired; and what is then written. |
| `Gates.VerdictIsStored` | backend/opaca/reconciliation/service.py:394-484 | The stored snapshot is the view judged, marked reconciled exactly under a RECONCILED verdict, which alone stamps the fills. |
| `Gates.DoubtNeverTrades` | backend/opaca/orchestration/reserve.py:133-186 | Over whole runs: after a verdict other than RECONCILED nothing adds a proposal, reservation, order or history row until a later verdict is RECONCILED. |
| `Gates.ProposalsWereDecided` | backend/opaca/orchestration/reserve.py:265-364 | Every proposal row of a run was decided by one step, whose authority and approval deadline it keeps for good. |
| `Gates.OrdersWereCleared` | backend/opaca/execution/service.py:399-563 | Every execution order of a run was started by a step that decided AUTO, or that came with a grant for a row awaiting approval, before the deciding call plus the approval period. |
| `Gates.NoOrderWithoutApproval` | backend/opaca/execution/service.py:496-510 | A proposal that was never decided AUTO has no execution order in a run without a granted start in time. |
| `Reports.ReportAnswers` | backend/opaca/execution/service.py:684-890 | Every column of the order after any report, by channel and by the fields of the report: an accepted lookup without a quantity keeps fill and proceeds, an acknowledgement without one means nothing filled, a quantity is taken as it is; a refused report changes nothing. |
| `Reports.FillIsLastTold` | backend/opaca/execution/service.py:855-870 | Over whole runs the fill of every order is the last quantity that an accepted report told, an acknowledgement without one counting as zero. |
| `Agreement.VerdictIff` | backend/opaca/reconciliation/service.py:178-337 | RECONCILED exactly if cash covers the proceeds still to settle, both sides know every order, positions moved by their unstamped fills, reserved symbols are held and holds are explained; and exactly what demands review. |
| `Agreement.InvalidIff` | backend/opaca/reconciliation/service.py:284-356 | Exactly which states are refused as contradictory: fills above the ordered quantity. |
| `Agreement.InputsRead` | backend/opaca/reconciliation/service.py:359-450 | Where the inputs of the comparison come from, lookups of lost orders included. |
| `Agreement.AgreedIsLiquid` | backend/opaca/treasury/liquidity.py:88-96 | After a RECONCILED verdict liquidity can be computed from the stored snapshot. |
| `Agreement.SnapshotsCoverProceeds` | backend/opaca/reconciliation/service.py:193-203 | Over whole runs the snapshot of the last RECONCILED verdict covers the proceeds that were recorded by then and settle after it. |
| `States.ReachedFrom` | backend/opaca/execution/states.py:29-81 | Exactly which states may follow which. |
| `States.StatusMeans` | backend/opaca/execution/states.py:83-118 | The state that each broker status and fill is mapped to. |
| `Transactions.SyncAnswers` | backend/opaca/execution/reservations.py:16-94 | Every row after a sync: what it is resized or released to by what is left to trade, and exactly when the sync is held back. |
| `Transactions.NewRowsAre` | backend/opaca/persistence/store.py:708-773 | The rows of a new proposal: shares by symbol in the name of the last sale, cash if it buys, the name of each leg; consecutive ids. |
| `Transactions.ReservingAdds` | backend/opaca/persistence/store.py:708-773 | Reserving appends these rows and one history row with the notional of all legs. |
| `Transactions.LoseAnswers` | backend/opaca/execution/service.py:659-680 | Losing track of an order: UNKNOWN unless it is over, and a row that stands for it. |
| `Transactions.CancelAnswers` | backend/opaca/execution/service.py:332-338 | Which order a cancel request marks. |
| `Transactions.GiveUpAnswers` | backend/opaca/execution/service.py:1059-1099 | Which orders can still be given up, and what is left then. |
| `Transactions.AbortAnswers` | backend/opaca/execution/service.py:1102-1133 | Which orders an abort gives up. |
| `Transactions.UpsertAnswers` | backend/opaca/persistence/store.py:828-848 | One row a lost order: added, or its first one updated in state and quantities only. |
| `WheelAnswers.AuthorizeAnswers` | backend/opaca/wheel/lifecycle.py:65-201 | Exactly when an authorization reserves, over account, version, contract, live reservations, caps and grant; what it writes; and what a known order is answered. |
| `WheelAnswers.FinalAnswers` | backend/opaca/wheel/execution.py:285-346 | Exactly when the final recheck says AUTO, over the rows of the other orders. |
| `WheelAnswers.DefaultPolicyIs` | backend/opaca/wheel/config.py:40-56 | What the published policy asks of a contract: one to seven days, a quote of the last fifteen seconds, thirty minutes before the close, a tenth of a percent, one contract. |
| `WheelAnswers.RecordAnswers` | backend/opaca/wheel/lifecycle.py:214-256 | The reservation is let go exactly if the order is over and it is known that nothing filled, no position is there and nothing is unresolved. |
| `WheelAnswers.ReconcileAnswers` | backend/opaca/wheel/reconciliation.py:155-342 | Exactly when an order is found assigned, expired or still short, what each writes, and that doubt moves nothing but the state of the symbol. |
| `WheelAnswers.ToleranceIs` | backend/opaca/wheel/reconciliation.py:127-133 | The larger of five dollars and five basis points, to the cent, ties to even. |
| `WheelAnswers.BootstrapAnswers` | backend/opaca/wheel/store.py:217-276 | All four answers of a binding. |
| `WheelAnswers.HeldIsLarger` | backend/opaca/wheel/exposure.py:50-69 | Held exposure is the larger of cost and market value of the lots of a symbol. |
| `ReserveRuns.GrantsKeepLimits` | backend/opaca/authority/engine.py:77-94 | Every grant of a run keeps the per-order limit on each leg and the per-proposal limit on their sum. |
| `States.TerminalAbsorbs` | backend/opaca/execution/states.py:10-81 | Terminal states absorb every run of accepted transitions. |
| `States.OpenIsNotTerminal` | backend/opaca/execution/states.py:10-27 | The recovery states are the non-terminal ones but READY, and terminal states are those without a successor. |
| `Store.Store.ReleaseActive` | backend/opaca/persistence/store.py:1130-1167 | Releases exactly the selected active rows. |
| `Store.Store.ResizeActive` | backend/opaca/persistence/store.py:1074-1128 | Resizes exactly the selected row, which the unique indexes make the only one. |
| `Store.Store.AccumulateRemaining` | backend/opaca/execution/reservations.py:36-52 | The loops compute what the proposal may still sell by symbol and still spend. |
| `Store.Store.SyncProposalReservations` | backend/opaca/execution/reservations.py:16-94 | The in-place sync leaves every row as specified. |
| `Sync.SyncMakesSellExact` | backend/opaca/execution/reservations.py:53-70 | A sync that is not held back makes a SELL reservation equal to what may still be sold, exactly if there is an active row to resize or nothing left. |
| `Sync.SyncMakesCashExact` | backend/opaca/execution/reservations.py:71-85 | ... and the CASH reservation equal to the cent-floored notional that may still be bought, under the same condition. |
| `Sync.SyncIsLocal` | backend/opaca/execution/reservations.py:16-94 | A sync leaves the capacity of other proposals alone. |
| `Sync.SyncOnlyShrinks` | backend/opaca/execution/reservations.py:31-35 | A sync never creates or revives a row, and does nothing while an order is UNKNOWN or SUBMITTING. |
| `Store.Store.WriteReport` | backend/opaca/execution/service.py:693-739 | The row after a report, through SUBMITTED when a SUBMITTING order is FILLED; an illegal transition or overfill changes nothing. |
| `Store.Store.RecordSellSettlement` | backend/opaca/execution/service.py:938-974 | Records the increment of floored proceeds once per fill size, and fails when no settlement date can be derived. |
| `Store.Store.TakeReport` | backend/opaca/execution/service.py:684-890 | Acknowledgement and lookup of a found order as one transaction: row, settlement, sync, or nothing. |
| `Store.Store.MarkUnknown` | backend/opaca/execution/service.py:789-837 | A timeout or an empty lookup: non-terminal orders become UNKNOWN and get an unknown row; nothing is released. |
| `Store.Store.UpsertUnknownOrder` | backend/opaca/persistence/store.py:828-848 | Inserts the row, or updates state and quantities of the row with its id. |
| `Store.Store.MarkCancelPending` | backend/opaca/execution/service.py:321-338 | Only a known, open broker order becomes CANCEL_PENDING. |
| `Store.Store.MarkOrderNotSubmitted` | backend/opaca/execution/service.py:1059-1099 | Only a SUBMITTING order without a broker id becomes NOT_SUBMITTED, and its capacity is synced. |
| `Store.Store.AbortUnsentLegs` | backend/opaca/execution/service.py:1102-1133 | Exactly the unattempted, never-sent orders of the proposal are given up. |
| `Store.Store.StampReconciledFills` | backend/opaca/persistence/store.py:1071-1072 | Every order is stamped with its fill. |
| `Store.Store.InsertIntents` | backend/opaca/execution/service.py:515-563 | One SUBMITTING row a leg, with capacity reserved first if there is none; a key conflict rolls everything back. |
| `Store.Store.StartProposal` | backend/opaca/execution/service.py:387-563 | Every gate of the submission-intent transaction, then its writes. |
| `Capacity.SyncRestores` | backend/opaca/execution/reservations.py:16-94 | Progress of one proposal's orders followed by its sync keeps the invariant. |
| `Capacity.SyncRestoresIff` | backend/opaca/execution/reservations.py:16-94 | Whatever happens to the orders of one proposal, its sync restores the capacity invariant exactly if what they leave to trade is coverable. |
| `Capacity.CashShortByCents` | backend/opaca/execution/reservations.py:40-52 | Active cash is short of the exact remaining notional by less than one cent an open buy order. |
| `CapacitySteps.ApplyReportKeeps` | backend/opaca/execution/service.py:684-890 | A report that is refused or whose fill does not fall back keeps the capacity invariant, on orders that are over too. |
| `CapacitySteps.LoseTrackKeeps` | backend/opaca/execution/service.py:659-680 | Losing track of an order keeps the invariant and every reservation. |
| `CapacitySteps.RequestCancelKeeps` | backend/opaca/execution/service.py:332-338 | Asking for a cancel keeps the invariant and every reservation. |
| `CapacitySteps.MarkNotSubmittedKeeps` | backend/opaca/execution/service.py:1059-1099 | Giving one order up keeps the invariant. |
| `CapacitySteps.AbortUnsentKeeps` | backend/opaca/execution/service.py:1102-1133 | Aborting unsent legs keeps the invariant. |
| `CapacitySteps.ReserveKeeps` | backend/opaca/persistence/store.py:618-773 | Recording a decision, with its reservations when AUTO, keeps the invariant. |
| `CapacitySteps.NewRowsSellSum` | backend/opaca/persistence/store.py:715-737 | New rows reserve exactly the sells of the proposal. |
| `CapacitySteps.NewRowsCashSum` | backend/opaca/persistence/store.py:738-752 | ... and exactly its buys. |
| `CapacitySteps.WriteIntentsKeeps` | backend/opaca/execution/service.py:515-563 | Writing the intents keeps the invariant. |
| `CapacitySteps.ReportKeepsIff` | backend/opaca/execution/service.py:684-890 | Exactly which reports, rising or falling, keep the invariant: those that leave to trade what an active row can be resized to, or, while an order is in doubt, already covers. |
| `Counterexamples.FallingFillUncovers` | backend/opaca/execution/reservations.py:53-70 | Witness run from the empty ledger: a fill that falls back leaves open quantity without capacity, because released rows are never recreated. |
| `Compare.CompareState` | backend/opaca/reconciliation/service.py:178-337 | The five loops compute the join of their findings; RECONCILED exactly when no reason was recorded; raises exactly on an overfilled sell or a contradictory unknown row. |
| `Compare.CompareOrders` | backend/opaca/reconciliation/service.py:212-220 | Unmapped status demands review, an order unknown locally is drift. |
| `Compare.CompareSubmitted` | backend/opaca/reconciliation/service.py:222-236 | A local submitted or UNKNOWN order absent at the broker demands review. |
| `Compare.ExplainedDelta` | backend/opaca/reconciliation/service.py:164-175 | The explained delta of every symbol is its sum of signed, unstamped fills. |
| `Compare.FindMoved` | backend/opaca/reconciliation/service.py:238-260 | The loop with its early break reports a move exactly when some symbol moved by other than its explained fills. |
| `Compare.CollectReservations` | backend/opaca/reconciliation/service.py:262-275 | Reserved quantities by symbol and the ids that hold them. |
| `Compare.CompareReserved` | backend/opaca/reconciliation/service.py:276-282 | A reserved symbol without a position is drift. |
| `Compare.CollectBrokerSells` | backend/opaca/reconciliation/service.py:284-307 | Remainders and unsized symbols of broker sells that no reservation holds; raises on an overfill. |
| `Compare.CompareHolds` | backend/opaca/reconciliation/service.py:309-328 | An undeterminable hold demands review, an unexplained one is drift. |
| `Compare.AgreesIsClean` | backend/opaca/reconciliation/service.py:178-337 | RECONCILED exactly when there is no finding of any kind. |
| `Compare.VerdictIgnoresOrder` | backend/opaca/reconciliation/service.py:178-337 | Verdict and raised error do not depend on the order of any table. |
| `Store.Store.LookupUnknown` | backend/opaca/reconciliation/service.py:88-161 | The loop resolves the UNKNOWN rows that were read before the transaction by lookup, and flags those that need review. |
| `Store.Store.ReconcileWith` | backend/opaca/reconciliation/service.py:394-484 | Comparison over the rows read earlier, upserts, snapshot and stamp as one transaction; an invalid broker state is rolled back. |
| `Reconcile.ReconciledMovesByFills` | backend/opaca/reconciliation/service.py:238-260 | A RECONCILED snapshot moves every position by exactly the unstamped signed fills, and stamps them. |
| `Oversell.ReservationsCoverOutstanding` | backend/opaca/persistence/store.py:708-773 | Active SELL reservations cover all open sells and all waiting proposals of a symbol. |
| `Oversell.AdmittedSellFits` | backend/opaca/policy/engine.py:726-771 | A sell that CHECK-16 admits fits beside everything outstanding. |
| `Oversell.ExposureRisesIff` | backend/opaca/execution/service.py:684-890 | Exactly which accepted reports raise what an order takes from the position: those that raise the fill of a sell that is over, and those that lower the fill of a buy. |
| `Oversell.ReportBoundedIff` | backend/opaca/execution/service.py:684-890 | Exactly which accepted reports keep the long-only bound, early or late, rising or falling: those whose rise fits what is left of the snapshot position. |
| `OversellRuns.LateFillOversells` | backend/opaca/execution/service.py:199-209 | Witness run from the empty ledger: an acknowledgement says FILLED without a quantity, the shares are sold again by an AUTO decision, and the lookup then tells the fill; no fill falls. |
| `OversellRuns.FallingFillOversells` | backend/opaca/execution/reservations.py:53-70 | Witness run: a fill that is taken back leaves an open order without capacity, and its shares are sold again. |
| `OversellRuns.DriftOversells` | backend/opaca/reconciliation/service.py:416-450 | Witness run: a verdict of drift takes over a smaller position than is spoken for. |
| `LedgerSteps.ReconcileKeepsBooks` | backend/opaca/reconciliation/service.py:416-450 | A reconciliation keeps capacity and names under any verdict. |
| `LedgerSteps.ReconcileKeeps` | backend/opaca/reconciliation/service.py:416-450 | A RECONCILED snapshot re-bases the long-only bound on the new position and leaves nothing unstamped. |
| `LedgerSteps.ReserveKeepsBooks` | backend/opaca/orchestration/reserve.py:188-394 | Reserving keeps capacity and names on any tables. |
| `LedgerSteps.ReserveStepKeeps` | backend/opaca/orchestration/reserve.py:188-394 | It keeps the long-only bound where no symbol that it sells has a net sale since the stamp. |
| `LedgerSteps.AdmittedSellsFitIff` | backend/opaca/policy/engine.py:726-771 | Exactly when CHECK-16 protects the position: every sell that it admits keeps the bound if and only if, for each symbol with something available, the available quantity fits beside what is outstanding or was sold since the stamp. |
| `LedgerSteps.FreshAvailabilityFits` | backend/opaca/policy/engine.py:726-771 | That condition holds where nothing available was sold since the stamp. |
| `LedgerSteps.StartKeepsBooks` | backend/opaca/execution/service.py:387-563 | Starting an execution keeps capacity and names on any tables. |
| `LedgerSteps.StartStepKeeps` | backend/opaca/execution/service.py:387-563 | It keeps the long-only bound where it reserves nothing new or sells nothing with an unstamped sale. |
| `LedgerRuns.StepKeeps` | backend/opaca/execution/service.py:131-377 | Every transaction, each a step of its own, keeps the bound under the premises of the run. |
| `LedgerRuns.RunsNeverOversell` | backend/opaca/orchestration/reserve.py:522-561 | No oversell over whole runs, any transaction between a reconciliation and the reservation included: outstanding sells plus sells minus buys since the last stamp never exceed the latest snapshot position. Each of its five premises is broken by a witness run. |
| `LedgerRuns.RunsAccountCapacity` | backend/opaca/execution/reservations.py:16-94 | Capacity accounting over all runs whose fill reports do not fall back, under any verdicts: covered always, exact without UNKNOWN or SUBMITTING orders, nothing active once all are terminal. |
| `LedgerRuns.UncertaintyFreezes` | backend/opaca/execution/reservations.py:31-35 | While an order is UNKNOWN or SUBMITTING no step resizes or releases a reservation of its proposal. |
| `LedgerRuns.RunsConservePositions` | backend/opaca/reconciliation/service.py:359-484 | Over any chain of RECONCILED snapshots, whatever else happens, positions move by exactly the net fills stamped in between. |
| `Counterexamples.UnstampedSaleOversells` | backend/opaca/orchestration/reserve.py:522-561 | Witness run from the empty ledger: a sale between the snapshot and the reservation, after which a second sale of the same shares is decided AUTO. |
| `Proceeds.ReportRecords` | backend/opaca/execution/service.py:893-974 | A report that raises a sell's fill raises its proceeds to the floored value, any other report adds nothing. |
| `Proceeds.ReportAdds` | backend/opaca/execution/service.py:938-974 | On any tables: a report that raises a sell to a fill size that was not settled yet raises the settled proceeds to the floored value, any other adds nothing, and the events record exactly what is added. |
| `Proceeds.RunsConserveProceeds` | backend/opaca/execution/service.py:938-974 | Over all runs, whatever is reported, the events of every order sum to its settled proceeds. |
| `Proceeds.SettledIsLargestSeen` | backend/opaca/execution/service.py:938-974 | Over all runs whose fills do not fall, settled proceeds of a sell are the largest cent-floored filled x price among the reports that raised its fill. |
| `Proceeds.ValueStaysSettled` | backend/opaca/execution/service.py:938-974 | Settled proceeds stay the floored value of the fill exactly if a larger fill is worth no less and the same fill the same, by the quantity and price of the report. |
| `Proceeds.SettledValueLiftsLessThanACent` | backend/opaca/treasury/liquidity.py:88-96 | A sale whose recorded proceeds are the floored value of its fill lifts settled cash by less than one cent before settlement. |
| `Proceeds.RunsLiftLessThanACent` | backend/opaca/treasury/liquidity.py:88-96 | In every run whose reports keep values, each sale credited with filled x average price lifts settled cash by less than one cent before settlement, and never lowers it. |
| `Proceeds.ValueStaysCovered` | backend/opaca/execution/service.py:938-974 | Settled proceeds go on to cover the floored value of the fill exactly if the report raises the fill or puts no more value on it than was settled. |
| `Proceeds.RunsCoverIff` | backend/opaca/execution/service.py:938-974 | Exactly the runs in which settled proceeds cover the value of every fill in every state: those without a report that, at no larger fill, puts more value on a sale than was settled. |
| `Proceeds.RunsNeverLiftACent` | backend/opaca/treasury/liquidity.py:88-96 | In all those runs no sale lifts settled cash by a cent before settlement, larger fills of smaller value included. |
| `Counterexamples.CorrectedPriceLifts` | backend/opaca/execution/service.py:893-974 | Witness run from the empty ledger: a corrected price on the same fill is not recorded, and the sale lifts settled cash by five dollars. |
| `SubmitOnce.SubmitIsFirst` | backend/opaca/execution/service.py:566-647 | A submit is made only for an order that has its row, was never sent and is not given up. |
| `SubmitOnce.WinningKeepsInv` | backend/opaca/execution/service.py:399-402 | The executor that wins the intents transaction owns the proposal alone. |
| `SubmitOnce.MoveKeeps` | backend/opaca/execution/service.py:131-285 | Every move of every executor and of everyone else keeps the ownership invariant. |
| `SubmitOnce.AtMostOneSubmit` | backend/opaca/execution/service.py:566-681 | At most one submit call for any client order id, whatever the concurrency, crashes and timeouts; every submitted id has its row. |
| `SubmitOnce.NotSubmittedNeverSent` | backend/opaca/execution/service.py:1059-1133 | An order in NOT_SUBMITTED was never sent and never will be, in any continuation. |
| `SubmitOnce.NotSubmittedForGood` | backend/opaca/execution/service.py:1059-1133 | The same at any point of any run from a fresh store. |
| `WheelExposure.ComputeWheelExposure` | backend/opaca/wheel/exposure.py:33-92 | The loops compute commitments, held exposure as the larger of cost and market value, and their totals; a negative amount is refused. |
| `WheelExposure.Check20` | backend/opaca/wheel/policy.py:142-178 | The fold with its inner filter computes the post-trade exposures and decides the hard caps and available cash. |
| `WheelExposure.FilteredSums` | backend/opaca/wheel/lifecycle.py:139-158 | The generator sums over selected rows are the sums over all rows with the filter inside. |
| `WheelExposure.OwnReservationAddsBack` | backend/opaca/wheel/execution.py:306-335 | Leaving the own reservation out and adding its capital back changes nothing. |
| `WheelExposure.AccumulatorsAgree` | backend/opaca/wheel/exposure.py:33-92 | CHECK-20, authorization, final recheck and exposure report give equal post-trade name and aggregate exposure for any reservation list. |
| `WheelLedger.EvaluateGuard` | backend/opaca/wheel/policy.py:210-226 | Checks 17 to 22 together. |
| `WheelLedger.WheelStore.BootstrapAccount` | backend/opaca/wheel/store.py:217-250 | The account and its risk base are bound once; invalid arguments, another account and an incomplete binding are told apart and change nothing. |
| `WheelLedger.WheelStore.SetSnapshotVersion` | backend/opaca/wheel/store.py:267-276 | The version is stored unless it is blank. |
| `WheelRuns.BoundForGood` | backend/opaca/wheel/store.py:217-265 | Over whole runs the first binding stays: another account is refused, the same account finds its base unchanged, and no binding is ever incomplete. |
| `WheelLedger.WheelStore.Recheck` | backend/opaca/wheel/lifecycle.py:128-169 | Policy and authority against the live rows, inside the transaction. |
| `WheelLedger.WheelStore.AuthorizeAndReserve` | backend/opaca/wheel/lifecycle.py:65-201 | One reservation and one order row, an existing order returned as it is, or nothing. |
| `WheelLedger.WheelStore.FinalPolicyAndAuthority` | backend/opaca/wheel/execution.py:285-346 | The final recheck with the own reservation left out. |
| `WheelLedger.WheelStore.RecordWheelOrderState` | backend/opaca/wheel/lifecycle.py:214-256 | The state is recorded, and the reservation released only on the complete proof. |
| `WheelLedger.WheelStore.Release` | backend/opaca/wheel/store.py:380-395 | Releases exactly the active row of the id and says whether it did. |
| `WheelLedger.WheelStore.ReconcileOrder` | backend/opaca/wheel/reconciliation.py:155-342 | Short put, assignment, expiry and every UNKNOWN exit. |
| `WheelRuns.AuthorizeKeeps` | backend/opaca/wheel/lifecycle.py:128-195 | Authorization keeps the caps and all other Wheel invariants. |
| `WheelRuns.FinalRecheckRepeats` | backend/opaca/wheel/execution.py:306-346 | Right after an authorization the final recheck in the same context says AUTO. |
| `WheelRuns.CapsHoldInEveryRun` | backend/opaca/wheel/authority.py:39-78 | Active assignment capital stays within 20% of the risk base and 10% per underlying, in every run. |
| `WheelCapital.ExposureCoversLots` | backend/opaca/wheel/exposure.py:50-69 | Held exposure computed from the stored lots is at least their cost, for every underlying. |
| `WheelCapital.CapitalHoldsInEveryRun` | backend/opaca/wheel/lifecycle.py:128-169 | Where authorizations know the cost of the stored lots, commitment plus lot cost stays within 20% of the risk base in total and 10% per underlying, in every run and across assignments. |
| `WheelRuns.ReservesOnce` | backend/opaca/wheel/lifecycle.py:107-126 | Each logical order reserves at most once and a released reservation never returns. |
| `WheelRuns.AssignmentConserves` | backend/opaca/wheel/reconciliation.py:248-283 | A reconciled assignment leaves active reservations plus lot cost unchanged and never overwrites a lot. |
| `WheelCapital.RunsConserveCapital` | backend/opaca/wheel/reconciliation.py:248-283 | Over whole runs all capital ever reserved is committed, is the cost of share lots, or was returned; each lot took over one reservation of its own order, underlying and capital. |
| `WheelRuns.AssignedOnce` | backend/opaca/wheel/store.py:406-466 | After an assignment every further reconciliation of the order is in doubt. |

## Left out

- Decimal context precision, magnitude limit, NaN and float rejection, enum-token parsing and time zones: boundary validation.
- `persistence/codec.py`: text round trips of decimals, dates and instants are easy members.
- SQLite mechanics (WAL, busy timeouts, schema creation, row decoding); only atomicity and uniqueness are kept.
- Audit events, reason texts and JSON details; a reason is kept only as a severity with a subject.
- The holiday table of the US calendar: the set of sessions is a parameter of the model.
- Order of rows where the source sorts only for display or determinism (unsettled events, proposal legs by index, symbols).
- Broker adapters and clients, the read and execution gateways, market data, quote binding and endpoint checks: a call brings one boolean or one report.
- CHECK-07 as a reported soft check: it is used only where it decides authority.
- Scenario seeding: operating reserve, obligations and policy are settings that stay fixed during a run.
- Granting human approvals: a call says whether a matching grant is stored.
- `Decision.Decide`: the promotion by `apply_human_approval` is not modelled; the code re-runs the guard before any submission.
- LedgerRuns.RunsNeverOversell: holds under five premises, and a run from the empty ledger breaks the bound without each: FillsNeverFall (`OversellRuns.FallingFillOversells`), SalesAreFinal (`OversellRuns.LateFillOversells`), Reconciling (`OversellRuns.DriftOversells`), StampedSells (`Counterexamples.UnstampedSaleOversells`), OpenPicks (`OversellRuns.ResolvedPickOversells`).
- Proceeds.SettledIsLargestSeen: a fill that falls and rises to a size again is not settled twice, so only runs whose fills never fall are covered; `Proceeds.ReportAdds` covers every report.
- Proceeds.RunsLiftLessThanACent: the broker credits filled x average price; other crediting is the broker's.
- WheelCapital.CapitalHoldsInEveryRun: the held exposure is what the caller passes; that it covers the stored lots is a premise, which `WheelCapital.ExposureCoversLots` derives for exposure computed from those lots.
- RollingAuthority.BoundsOrdersIff: attainment is stated for the tighter of the two counts; how far the looser one is reached depends on both.
- ReserveRuns.RunsNeverOvercommit: the snapshot, obligations and settlement events stay fixed, as the property is about one snapshot.
- SubmitOnce.AtMostOneSubmit: executors share one store; a second database would be a second ledger.
- WheelRuns.CapsHoldInEveryRun: covers authorization, order states and reconciliation; `reserve_assignment`, which no code path calls, checks no cap.
- WheelLedger.WheelStore.ReconcileOrder: reads and writes are one step; the source re-checks the reservation inside its transaction. The session comparison of an expiry arrives decided.
- Wheel approvals, selectors, the agent loop and the command line.
- Dashboard, network functions, preflight, evidence sanitizing, intake parsing: I/O and presentation.
