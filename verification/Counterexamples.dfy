/** Runs from the empty ledger in which a law fails, each one by breaking one premise of the
    theorem that states the law. */
module Counterexamples {
  import opened Authority
  import opened Calendar
  import opened Capacity
  import opened CapacitySteps
  import opened Compare
  import opened Decision
  import opened Domain
  import opened Execution
  import opened FillSafety
  import opened Guard
  import opened LedgerRuns
  import opened LedgerSteps
  import opened Liquidity
  import opened Money
  import opened Orchestration
  import opened Oversell
  import opened PartialFill
  import opened Proceeds
  import opened Reconcile
  import opened Records
  import opened Results
  import opened States
  import opened Sums
  import opened Sync
  import opened Tables
  import opened Unresolved

  // ---- an account that holds ten shares ----

  const FUND: Symbol := "SGOV"

  /** A number of shares, all of them available. */
  function Shares(quantity: real): Position
    requires quantity >= 0.0
  {
    RawPosition.Position(FUND, quantity, quantity, quantity)
  }

  const TEN: Position := Shares(10.0)

  const LIMITS := AuthorityPolicy.AuthorityPolicy(1000.0, 1000.0, 1000.0, 2, 2)

  const SESSIONS := Static({1})

  const CFG: Settings := RawSettings.Settings(0.0, {FUND}, 1.0, 1.0, LIMITS, [], 0, 100, SESSIONS)

  const PRICES: Prices := map[FUND := 1.0]

  function CallAt(version: int): Call {
    Call(0, PRICES, Some(version), true, true, true, false, false)
  }

  const CALL := CallAt(1)

  const VIEW: View := RawView.View(1000.0, [TEN], [], {FUND}, map[])

  /** The sell of the whole position. */
  function SellAll(pid: string): Proposal {
    SellOut(pid, FUND, 10.0)
  }

  /** A proposal without legs. */
  function Nothing(pid: string): Proposal {
    Proposal(pid, [])
  }

  /** Five or ten shares are held, and the proposal sells all of them or nothing. */
  predicate SellsAllOrNothing(p: Proposal, held: real) {
    (held == 5.0 || held == 10.0) && (p == SellOut(p.proposalId, FUND, held) || p == Nothing(p.proposalId))
  }

  lemma NextSessionIsOne()
    ensures SettlementDate(SESSIONS, 0) == Ok(1)
  {
  }

  /** Every circumstance that a decision depends on is favourable. */
  predicate Favourable(p: Proposal, c: PolicyContext, held: real) {
    && SellsAllOrNothing(p, held)
    && c.positions == [Shares(held)] && c.prices == PRICES && c.permitted == {FUND} && c.tradable == {FUND}
    && c.concentrationMax == 1.0 && c.minTradeNotional == 1.0 && c.authority == LIMITS && c.calendar == SESSIONS
    && !c.killSwitch && c.paperVerified && c.sessionOpen && c.now == 0 && (p.legs == [] || forall o <- c.unresolved :: !o.state.IsUnresolved())
    && RollingNotional(c.history, 0) <= 100.0
    && RollingCount(c.history, 0, MICROS_PER_DAY) + |p.legs| <= 2
    && RollingCount(c.history, 0, MICROS_PER_HOUR) + |p.legs| <= 2
    && LiquidityOf(c).Ok? && LiquidityOf(c).value.investableCash >= 0.0
  }

  lemma Totals(p: Proposal, s: Symbol, held: real)
    requires SellsAllOrNothing(p, held)
    ensures var sold := if p.legs == [] then 0.0 else held;
            && (forall l <- p.legs :: Notional(l) == held)
            && SumBy(p.legs, BuyNotionalOf()) == 0.0 && SumBy(p.legs, SellNotionalOf()) == sold
            && SumBy(p.legs, SignedQuantityOf(s)) == (if s == FUND then -sold else 0.0)
            && SumBy(p.legs, SellQuantityOf(s)) == if s == FUND then sold else 0.0
  {
    if p.legs != [] {
      var l := p.legs[0];
      assert (held * 1.0 * 100.0).Floor == if held == 5.0 then 500 else 1000;
      assert p.legs == [l];
      SumOne<Leg>(l, BuyNotionalOf());
      SumOne<Leg>(l, SellNotionalOf());
      SumOne<Leg>(l, SignedQuantityOf(s));
      SumOne<Leg>(l, SellQuantityOf(s));
    }
  }

  lemma HeldShares(held: real, s: Symbol)
    requires held >= 0.0
    ensures Held([Shares(held)], s) == if s == FUND then held else 0.0
  {
  }

  lemma WorthOneEach(held: real)
    requires held == 5.0 || held == 10.0
    ensures GrossValue(held, 1.0) == held
  {
    assert ((held + CENT / 2.0) * 100.0).Floor == if held == 5.0 then 500 else 1000;
  }

  lemma FavourableValues(p: Proposal, c: PolicyContext, held: real, s: Symbol)
    requires Favourable(p, c, held)
    ensures ValueAfter(c, [], s) <= held && ValueAfter(c, p.legs, s) <= held
  {
    hide LiquidityOf, Held, Notional, RollingNotional, RollingCount;
    Totals(p, s, held);
    WorthOneEach(held);
    HeldShares(held, s);
  }

  lemma FavourablePool(p: Proposal, c: PolicyContext, held: real)
    requires Favourable(p, c, held)
    ensures Pool(c) == Ok(held + LiquidityOf(c).value.investableCash)
  {
    hide LiquidityOf;
    WorthOneEach(held);
    SumOne<Position>(Shares(held), HoldingValueOf(PRICES, {FUND}));
  }

  lemma FavourableConcentration(p: Proposal, c: PolicyContext, held: real)
    requires Favourable(p, c, held)
    ensures ConcentrationAllowed(p, c) && LinearTest(p, c)
  {
    hide ValueAfter, ConcentrationAllowed, Pool, LiquidityOf;
    FavourablePool(p, c, held);
    var pool := Pool(c).value;
    forall s ensures !OverAfter(c, pool, p.legs, s) && !OverBefore(c, pool, s) {
      FavourableValues(p, c, held, s);
    }
    assert PricesKnown(p, c);
    ConcentrationByValues(p, c);
    OverIsOverBefore(c, pool);
  }

  lemma FavourableCash(p: Proposal, c: PolicyContext, held: real)
    requires Favourable(p, c, held)
    ensures && CashFundsBuys(p, c) && ReserveHoldsOnLedgerDates(p, c) && WithinFundingCeiling(p, c)
            && NoLeverage(p, c) && ObligationsFunded(p, c)
  {
    hide ReserveHoldsOnLedgerDates, ObligationsFunded, WithinFundingCeiling, NoLeverage, LiquidityOf, SettlementDate;
    Totals(p, FUND, held);
    NextSessionIsOne();
    CashCheckDominates(p, c);
  }

  lemma FavourableLimits(p: Proposal, c: PolicyContext, held: real)
    requires Favourable(p, c, held)
    ensures WithinAuthority(p, c.authority, c.history, c.now) && WithinRunawayLimit(p, c.authority, c.history, c.now)
  {
    hide LiquidityOf, RollingNotional, RollingCount, Notional;
    Totals(p, FUND, held);
  }

  lemma FavourableLongOnly(p: Proposal, c: PolicyContext, held: real)
    requires Favourable(p, c, held)
    ensures LongOnly(p, c)
  {
    hide LiquidityOf, RollingNotional, RollingCount, Notional;
    forall s: Symbol ensures ProjectedQuantity(c.positions, p.legs, s) >= 0.0 {
      Totals(p, s, held);
      HeldShares(held, s);
    }
    if p.legs != [] {
      Totals(p, FUND, held);
      SumZero<UnresolvedOrder>(c.unresolved, ReservedOf(FUND));
      assert Reserved(c.unresolved, FUND) == 0.0 && !Undeterminable(c.unresolved, FUND);
      assert PositionOf([Shares(held)], FUND) == Some(Shares(held));
      assert SellAllowed(p, c, FUND);
    }
  }

  lemma FavourableRest(p: Proposal, c: PolicyContext, held: real)
    requires Favourable(p, c, held)
    ensures Whitelisted(p, c) && AssetsTradable(p, c) && DeterministicIdentity(p) && NoOpposingSides(p, c) && NoDust(p, c)
  {
    hide LiquidityOf, Notional, RollingNotional, RollingCount;
    Totals(p, FUND, held);
  }

  lemma FavourablePasses(p: Proposal, c: PolicyContext, held: real, id: CheckId)
    requires Favourable(p, c, held)
    ensures Passes(id, p, c) && !c.killSwitch
  {
    hide LongOnly, Whitelisted, AssetsTradable, DeterministicIdentity, NoOpposingSides, NoDust, WithinRunawayLimit,
         ConcentrationAllowed, CashFundsBuys, ReserveHoldsOnLedgerDates, WithinFundingCeiling, NoLeverage, ObligationsFunded,
         LiquidityOf, LinearTest, SellsAllOrNothing, RollingCount, RollingNotional;
    FavourableConcentration(p, c, held);
    FavourableCash(p, c, held);
    FavourableLimits(p, c, held);
    FavourableLongOnly(p, c, held);
    FavourableRest(p, c, held);
  }

  lemma IsAutomatic(p: Proposal, c: PolicyContext, held: real)
    requires Favourable(p, c, held)
    ensures DecisionOf(p, c).Auto?
  {
    hide LinearTest, WithinAuthority, EverySubsetSafe, Favourable, Passes;
    FavourablePasses(p, c, held, Check00);
    forall id ensures Passes(id, p, c) {
      FavourablePasses(p, c, held, id);
    }
    assert Evaluate(p, c, HARD_CHECKS) == {};
    FavourableConcentration(p, c, held);
    FavourableLimits(p, c, held);
    FewLegs(p, c, held);
    DecisionIsLinear(p, c);
  }

  lemma FewLegs(p: Proposal, c: PolicyContext, held: real)
    requires Favourable(p, c, held)
    ensures |p.legs| <= 1
  {
    hide LiquidityOf;
  }

  // ---- the first three transactions: observe, reserve, start ----

  function SnapshotOf(version: int, held: real): Snapshot
    requires held >= 0.0
  {
    RawSnapshot.Snapshot(version, true, 0, 1000.0, [Shares(held)], [], {FUND})
  }

  const SNAPSHOT: Snapshot := SnapshotOf(1, 10.0)

  const WATCHED := Tables([], [], [], [], [], [], Some(SNAPSHOT))

  function SellRowOf(quantity: real, active: bool): Reservation
    requires quantity >= 0.0
  {
    RawReservation.Reservation(0, "a", ReservationKind.SellQuantity, Some(FUND), Some(quantity), None, Some(Derived("a", 0)), active)
  }

  function IdentityRowOf(active: bool): Reservation {
    RawReservation.Reservation(1, "a", OrderIdentity, Some(FUND), None, None, Some(Derived("a", 0)), active)
  }

  /** The ledger that holds the proposal "a" and its reservations. */
  function Ledger(sell: Reservation, identity: Reservation, orders: seq<ExecutionOrder>, events: seq<SettlementEvent>): Tables {
    Tables([ProposalRow(SellAll("a"), Auto, None, 1)], [sell, identity], orders, [], events,
           [AutonomousExecution("a", 0, 10.0)], Some(SNAPSHOT))
  }

  const RESERVED := Ledger(SellRowOf(10.0, true), IdentityRowOf(true), [], [])

  const STARTED :=
    Ledger(SellRowOf(10.0, true), IdentityRowOf(true), [SellOrder(ExecutionState.Submitting, 0.0, None, None, 0.0)], [])

  function SellOrder(state: ExecutionState, filled: real, broker: Option<string>, price: Option<real>, settled: real)
    : ExecutionOrder
    requires 0.0 <= filled <= 10.0 && (price.Some? ==> price.value >= 0.0)
  {
    RawExecutionOrder.ExecutionOrder(Derived("a", 0), "a", 0, FUND, Sell, 10.0, filled, 10.0 - filled, state, broker, price, 1.0, 0.0,
                                     settled)
  }

  function SaleEvent(filled: real, amount: real): SettlementEvent
    requires amount >= 0.0
  {
    RawSettlementEvent.SettlementEvent(FillKey(Derived("a", 0), filled), FUND, 0, 1, amount)
  }

  lemma ViewIsConsistent()
    ensures !CashInconsistent(InputsOf(EmptyTables(), [], VIEW, 0))
  {
    hide SortedDays, Schedule, RelevantDates;
  }

  lemma ViewIsClean()
    ensures Clean(InputsOf(EmptyTables(), [], VIEW, 0)) && !Invalid(InputsOf(EmptyTables(), [], VIEW, 0))
  {
    hide CashInconsistent;
    ViewIsConsistent();
  }

  lemma Observes()
    ensures Judgement(EmptyTables(), [], VIEW, 0) == Judged(Agrees)
    ensures ReconcileTables(EmptyTables(), [], VIEW, 0) == WATCHED
  {
    hide Clean, VerdictOf, Invalid;
    ViewIsClean();
    AgreesIsClean(InputsOf(EmptyTables(), [], VIEW, 0));
    assert StampedOrders([]) == [];
  }

  lemma WatchedIsFavourable()
    ensures Favourable(SellAll("a"), ContextOf(WATCHED, CFG, CALL, None), 10.0)
  {
  }

  lemma RowsOfA()
    ensures NewRows(SellAll("a"), 0) == [SellRowOf(10.0, true), IdentityRowOf(true)]
    ensures AggregateNotional(SellAll("a")) == 10.0
  {
  }

  function RowAt(p: Proposal, version: int): ProposalRow {
    ProposalRow(p, Auto, None, version)
  }

  function RowFor(p: Proposal): ProposalRow {
    RowAt(p, 1)
  }

  /** In favourable circumstances a new proposal is reserved at once. */
  lemma ReservesNew(t: Tables, p: Proposal, version: int, held: real)
    requires held >= 0.0 && t.snapshot == Some(SnapshotOf(version, held))
    requires RowOf(t.proposals, p.proposalId).None? && IdentityFree(t, p)
    requires Favourable(p, ContextOf(t, CFG, CallAt(version), None), held)
    ensures EvaluateAndReserve(t, p, CFG, CallAt(version)) == (PersistDecision(t, RowAt(p, version), 0), Decided(Auto))
  {
    hide DecisionOf, ContextOf, PersistDecision, IdentityFree, Favourable;
    IsAutomatic(p, ContextOf(t, CFG, CallAt(version), None), held);
    assert SnapshotUsable(t, CFG, CallAt(version));
  }

  lemma FreeIdentity(t: Tables, pid: string, quantity: real)
    requires quantity > 0.0 && Derived(pid, 0) !in StoredLegIds(t.proposals)
    ensures IdentityFree(t, SellOut(pid, FUND, quantity))
  {
  }

  lemma Reserves()
    ensures EvaluateAndReserve(WATCHED, SellAll("a"), CFG, CALL) == (RESERVED, Decided(Auto))
  {
    hide EvaluateAndReserve, ContextOf, NewRows, AggregateNotional, IdentityFree, Favourable;
    WatchedIsFavourable();
    FreeIdentity(WATCHED, "a", 10.0);
    ReservesNew(WATCHED, SellAll("a"), 1, 10.0);
    RowsOfA();
    assert PersistDecision(WATCHED, RowFor(SellAll("a")), 0).reservations == [] + NewRows(SellAll("a"), 0);
    assert PersistDecision(WATCHED, RowFor(SellAll("a")), 0) == RESERVED;
  }

  lemma OwnRowsExcluded()
    ensures Favourable(SellAll("a"), ContextOf(RESERVED, CFG, CALL, Some("a")), 10.0)
  {
    hide LiquidityOf, RollingNotional, RollingCount, SumBy, UnresolvedIn;
    OwnHistoryExcluded();
    OwnUnresolvedExcluded();
    OwnCashExcluded();
  }

  lemma OwnHistoryExcluded()
    ensures HistoryRows(RESERVED.history, Some("a")) == []
    ensures RollingNotional([], 0) == 0.0 && RollingCount([], 0, MICROS_PER_DAY) == RollingCount([], 0, MICROS_PER_HOUR) == 0
  {
    assert RESERVED.history[1..] == [];
  }

  lemma OwnUnresolvedExcluded()
    ensures ActiveRows(RESERVED.reservations, Some("a")) == [] && UnresolvedIn(RESERVED, Some("a")) == []
  {
    hide LocalIds;
    assert RESERVED.reservations[1..][1..] == [];
  }

  lemma OwnCashExcluded()
    ensures LiquidityOf(ContextOf(RESERVED, CFG, CALL, Some("a"))).Ok?
    ensures LiquidityOf(ContextOf(RESERVED, CFG, CALL, Some("a"))).value.investableCash >= 0.0
  {
    hide SortedDays, Schedule, RelevantDates, UnresolvedIn, HistoryRows, ActiveRows;
    OwnUnresolvedExcluded();
  }

  lemma HasCapacityA()
    ensures HasCapacity(RESERVED, "a")
  {
    assert RESERVED.reservations[0] in RESERVED.reservations;
  }

  lemma MayStartA()
    ensures MayStart(RESERVED, SellAll("a"), CFG, CALL)
  {
    hide DecisionOf, ContextOf, HasCapacity, Favourable;
    OwnRowsExcluded();
    IsAutomatic(SellAll("a"), ContextOf(RESERVED, CFG, CALL, Some("a")), 10.0);
    HasCapacityA();
  }

  lemma Starts()
    ensures PersistIntents(RESERVED, SellAll("a"), CFG, CALL) == STARTED
  {
    hide DecisionOf, ContextOf, NewRows, MayStart;
    MayStartA();
    HasCapacityA();
    assert IntentRows(SellAll("a")) == [SellOrder(ExecutionState.Submitting, 0.0, None, None, 0.0)];
  }

  // ---- reports ----

  function FillReport(status: OrderState, filled: real, price: real): Report
    requires filled >= 0.0 && price >= 0.0
  {
    RawReport.Report(Mapped(status), Some(filled), Some("b"), Some(price))
  }

  function ReportStep(channel: Channel, report: Report): OrderStep {
    TakeReport(Derived("a", 0), channel, report, 0)
  }

  const FULL_FILL := ReportStep(Acknowledgement, FillReport(OrderState.Filled, 10.0, 1.0))

  const HALF_FILL := ReportStep(Acknowledgement, FillReport(OrderState.PartiallyFilled, 5.0, 1.0))

  const CORRECTION := ReportStep(Lookup, FillReport(OrderState.PartiallyFilled, 5.0, 2.0))

  const USED_UP := ReportStep(Acknowledgement, FillReport(OrderState.PartiallyFilled, 10.0, 1.0))

  const FALL_BACK := ReportStep(Lookup, FillReport(OrderState.PartiallyFilled, 4.0, 1.0))

  function Worked(state: ExecutionState, filled: real, price: real, settled: real): ExecutionOrder
    requires 0.0 <= filled <= 10.0 && price >= 0.0
  {
    SellOrder(state, filled, Some("b"), Some(price), settled)
  }

  lemma WorkedProceeds(state: ExecutionState, filled: real, price: real, settled: real)
    requires 0.0 <= filled <= 10.0 && price >= 0.0 && WholeCents(filled * price)
    ensures FilledProceeds(Worked(state, filled, price, settled)) == filled * price
  {
    hide WholeCents, RoundBudget;
    ProductNonNegative(filled, price);
    WholeBudget(filled * price);
    assert BudgetOf(filled, price) == filled * price;
    var o := Worked(state, filled, price, settled);
    assert o.filled == filled && FillPrice(o) == price;
    assert FilledProceeds(o) == BudgetOf(filled, price);
  }

  lemma WholeBudget(x: real)
    requires x >= 0.0 && WholeCents(x)
    ensures RoundBudget(x) == x
  {
    TruncateCentsExact(x);
  }

  lemma WorkedRemaining(o: ExecutionOrder, sell: Reservation, identity: Reservation, events: seq<SettlementEvent>)
    requires o.proposalId == "a" && o.side.Sell? && o.symbol == FUND && o.id == Derived("a", 0)
    ensures SellRemaining(Ledger(sell, identity, [o], events), "a", FUND) == Open(o)
    ensures Executed([o], "a", Derived("a", 0))
  {
    assert [o][0] in [o];
    SumOne<ExecutionOrder>(o, OpenSellOf("a", FUND));
    SumOne<Leg>(SellAll("a").legs[0], UnsentSellOf([o], "a", FUND));
  }

  /** The sync of a ledger whose order is not in doubt. */
  lemma Synced(o: ExecutionOrder, sell: Reservation, identity: Reservation, events: seq<SettlementEvent>)
    requires o.proposalId == "a" && o.side.Sell? && o.symbol == FUND && o.id == Derived("a", 0) && !o.state.IsUncertain()
    requires sell == SellRowOf(10.0, true) || sell == SellRowOf(5.0, true) || sell == SellRowOf(10.0, false)
    requires identity == IdentityRowOf(true)
    ensures SyncProposal(Ledger(sell, identity, [o], events), "a")
         == Ledger(if sell.active then ResizedSell(sell, Open(o)) else sell, IdentityRowOf(!o.state.IsTerminal()), [o], events)
  {
    hide SellRemaining;
    var t := Ledger(sell, identity, [o], events);
    assert [o][0] in [o];
    WorkedRemaining(o, sell, identity, events);
    assert AdjustedRows(t, "a") == [Adjusted(t, "a", sell), Adjusted(t, "a", identity)];
  }

  lemma FirstSale(state: ExecutionState, filled: real)
    requires filled == 5.0 || filled == 10.0
    ensures SettleSale(STARTED.(orders := [Worked(state, filled, 1.0, 0.0)]), 0, 0, SESSIONS)
         == Ok(STARTED.(orders := [Worked(state, filled, 1.0, filled)], events := [SaleEvent(filled, filled)]))
  {
    hide SettlementDate, FilledProceeds;
    var o := Worked(state, filled, 1.0, 0.0);
    WorkedProceeds(state, filled, 1.0, 0.0);
    NextSessionIsOne();
    assert FilledProceeds(o) == filled && DateOf(0) == 0;
    assert [o][0 := Worked(state, filled, 1.0, filled)] == [Worked(state, filled, 1.0, filled)];
    assert STARTED.events + [SaleEvent(filled, filled)] == [SaleEvent(filled, filled)];
    assert !HasEvent(STARTED.events, FillKey(o.id, filled));
  }

  /** The first report on the started order, with its settlement. */
  lemma FirstReport(status: OrderState, filled: real)
    requires (status.Filled? && filled == 10.0) || (status.PartiallyFilled? && (filled == 5.0 || filled == 10.0))
    ensures ApplyOrder(STARTED, SESSIONS, ReportStep(Acknowledgement, FillReport(status, filled, 1.0)))
         == Ledger(ResizedSell(SellRowOf(10.0, true), 10.0 - filled), IdentityRowOf(!status.Filled?),
                   [Worked(MapBrokerStatus(Mapped(status)), filled, 1.0, filled)], [SaleEvent(filled, filled)])
  {
    hide SyncProposal, SettleSale;
    var state := MapBrokerStatus(Mapped(status));
    var report := FillReport(status, filled, 1.0);
    FirstSale(state, filled);
    assert Reported(Acknowledgement, STARTED.orders[0], report) == Ok(Worked(state, filled, 1.0, 0.0));
    assert STARTED.orders[0 := Worked(state, filled, 1.0, 0.0)] == [Worked(state, filled, 1.0, 0.0)];
    Synced(Worked(state, filled, 1.0, filled), SellRowOf(10.0, true), IdentityRowOf(true), [SaleEvent(filled, filled)]);
  }

  // ---- runs ----

  const ALL := OVERSELL_PREMISES + {SteadyValues, CoveringValues}

  const OBSERVE := Step.Reconcile([], VIEW, 0)

  const OPENING := [OBSERVE, Step.Reserve(SellAll("a"), CALL), Step.Start(SellAll("a"), CALL)]

  lemma OneStep(premises: set<Premise>, steps: seq<Step>, step: Step, t: Tables, u: Tables)
    requires Along(premises, EmptyTables(), CFG, steps) && Run(EmptyTables(), CFG, steps) == t
    requires (forall p <- premises :: Meets(p, t, step)) && Apply(t, CFG, step) == u
    ensures Along(premises, EmptyTables(), CFG, steps + [step]) && Run(EmptyTables(), CFG, steps + [step]) == u
  {
    hide Meets, Apply;
    assert (steps + [step])[..|steps|] == steps;
  }

  lemma EmptyPicks()
    ensures SellsSafely(WATCHED, SellAll("a"), None)
  {
    forall s ensures NetSold(WATCHED, s) == 0.0 {
      assert Explained([], s) == 0.0;
    }
  }

  lemma OpensHalf()
    ensures Along(ALL, EmptyTables(), CFG, [OBSERVE, OPENING[1]])
    ensures Run(EmptyTables(), CFG, [OBSERVE, OPENING[1]]) == RESERVED
  {
    hide Judgement, ReconcileTables, EvaluateAndReserve, SellsStamped, PicksAreOpen;
    Observes();
    OneStep(ALL, [], OBSERVE, EmptyTables(), WATCHED);
    assert [] + [OBSERVE] == [OBSERVE];
    EmptyPicks();
    Reserves();
    OneStep(ALL, [OBSERVE], OPENING[1], WATCHED, RESERVED);
    assert [OBSERVE] + [OPENING[1]] == [OBSERVE, OPENING[1]];
  }

  /** The opening meets every premise. */
  lemma Opens()
    ensures Along(ALL, EmptyTables(), CFG, OPENING) && Run(EmptyTables(), CFG, OPENING) == STARTED
  {
    hide PersistIntents, Along, Run, HasCapacity;
    OpensHalf();
    Starts();
    HasCapacityA();
    OneStep(ALL, [OBSERVE, OPENING[1]], OPENING[2], RESERVED, STARTED);
    assert [OBSERVE, OPENING[1]] + [OPENING[2]] == OPENING;
  }

  lemma FirstReportIsFair(status: OrderState, filled: real)
    requires filled == 5.0 || filled == 10.0
    ensures var step := OnOrder(ReportStep(Acknowledgement, FillReport(status, filled, 1.0)));
            forall p <- ALL :: Meets(p, STARTED, step)
  {
    hide Reported;
    var o := STARTED.orders[0];
    BudgetOfNothing(FillPrice(o));
    assert FilledProceeds(o) == 0.0;
    assert KeepsValue(Acknowledgement, o, FillReport(status, filled, 1.0));
  }

  lemma OpensAndSteps(step: Step, u: Tables)
    requires (forall p <- ALL :: Meets(p, STARTED, step)) && Apply(STARTED, CFG, step) == u
    ensures Along(ALL, EmptyTables(), CFG, OPENING + [step]) && Run(EmptyTables(), CFG, OPENING + [step]) == u
  {
    hide Apply, Meets, Along, Run;
    Opens();
    OneStep(ALL, OPENING, step, STARTED, u);
  }

  /** The opening and one report meet every premise. */
  lemma OpensAndReports(status: OrderState, filled: real)
    requires (status.Filled? && filled == 10.0) || (status.PartiallyFilled? && (filled == 5.0 || filled == 10.0))
    ensures var steps := OPENING + [OnOrder(ReportStep(Acknowledgement, FillReport(status, filled, 1.0)))];
            && Along(ALL, EmptyTables(), CFG, steps)
            && Run(EmptyTables(), CFG, steps)
               == Ledger(ResizedSell(SellRowOf(10.0, true), 10.0 - filled), IdentityRowOf(!status.Filled?),
                         [Worked(MapBrokerStatus(Mapped(status)), filled, 1.0, filled)], [SaleEvent(filled, filled)])
  {
    hide ApplyOrder, Meets, Along, Run, Worked, SellRowOf, IdentityRowOf, MapBrokerStatus, ResizedSell, Ledger;
    var report := ReportStep(Acknowledgement, FillReport(status, filled, 1.0));
    FirstReport(status, filled);
    FirstReportIsFair(status, filled);
    OpensAndSteps(OnOrder(report), ApplyOrder(STARTED, SESSIONS, report));
  }

  // ---- a sale that no snapshot has stamped is sold twice ----

  const SOLD := Ledger(SellRowOf(10.0, false), IdentityRowOf(false),
                       [Worked(ExecutionState.Filled, 10.0, 1.0, 10.0)], [SaleEvent(10.0, 10.0)])

  const SALE := OPENING + [OnOrder(FULL_FILL)]

  const SELL_AGAIN := Step.Reserve(SellAll("b"), CALL)

  lemma OneExecution()
    ensures var h := RESERVED.history;
            RollingNotional(h, 0) == 10.0 && RollingCount(h, 0, MICROS_PER_DAY) == 1 && RollingCount(h, 0, MICROS_PER_HOUR) == 1
  {
    var e := AutonomousExecution("a", 0, 10.0);
    assert RESERVED.history == [e] && [e][1..] == [];
    SumOne<AutonomousExecution>(e, NotionalInWindow(0, MICROS_PER_DAY));
  }

  lemma {:induction false} NoCashReserved(rs: seq<Reservation>, day: int)
    requires forall r <- rs :: !r.kind.CashDeployment?
    ensures CashObligations(ActiveRows(rs, None), day) == []
  {
    NoCashDue(ActiveRows(rs, None), day);
  }

  lemma {:induction false} NoCashDue(active: seq<Reservation>, day: int)
    requires forall r <- active :: !r.kind.CashDeployment?
    ensures CashObligations(active, day) == []
  {
    if active != [] {
      NoCashDue(active[1..], day);
    }
  }

  /** Neither sell reservations nor a sale take cash away. */
  lemma CashIsThere(t: Tables, version: int, held: real)
    requires held >= 0.0 && t.snapshot == Some(SnapshotOf(version, held))
    requires t.events == [] || exists e :: t.events == [e] && e.amount <= 10.0
    requires forall r <- t.reservations :: !r.kind.CashDeployment?
    ensures LiquidityOf(ContextOf(t, CFG, CallAt(version), None)).Ok?
    ensures LiquidityOf(ContextOf(t, CFG, CallAt(version), None)).value.investableCash >= 0.0
  {
    hide SortedDays, Schedule, RelevantDates, UnresolvedIn, HistoryRows, ActiveRows, CashObligations;
    NoCashReserved(t.reservations, 0);
    if t.events != [] {
      SumOne<SettlementEvent>(t.events[0], EventAmount());
    }
    assert SumBy(Unsettled(t.events, 0), EventAmount()) <= 10.0;
  }

  lemma SoldIsFavourable()
    ensures Favourable(SellAll("b"), ContextOf(SOLD, CFG, CALL, None), 10.0)
  {
    assert ActiveRows(SOLD.reservations, None) == [];
    assert UnresolvedIn(SOLD, None) == [];
    OneExecution();
    CashIsThere(SOLD, 1, 10.0);
    hide LiquidityOf, UnresolvedIn, RollingNotional, RollingCount, SumBy;
  }

  /** A second proposal sells everything that is held. */
  function Again(held: real): Proposal
    requires held > 0.0
  {
    SellOut("b", FUND, held)
  }

  lemma SellsAgain(t: Tables, version: int, held: real)
    requires held > 0.0 && t.snapshot == Some(SnapshotOf(version, held))
    requires t.proposals == STARTED.proposals && Favourable(Again(held), ContextOf(t, CFG, CallAt(version), None), held)
    ensures var (u, outcome) := EvaluateAndReserve(t, Again(held), CFG, CallAt(version));
            && outcome == Decided(Auto)
            && u.reservations == t.reservations + NewRows(Again(held), |t.reservations|)
            && u.orders == t.orders && u.snapshot == t.snapshot && u.events == t.events
  {
    hide EvaluateAndReserve, ContextOf, NewRows, AggregateNotional, IdentityFree, Favourable;
    FreeIdentity(t, "b", held);
    ReservesNew(t, Again(held), version, held);
  }

  /** After that sale was reserved, everything that is held is spoken for once more. */
  lemma SpokenFor(t: Tables, u: Tables, held: real)
    requires held == 5.0 || held == 10.0
    requires u.orders == t.orders && u.reservations == t.reservations + NewRows(Again(held), |t.reservations|)
    requires forall o <- t.orders :: o.proposalId == "a"
    ensures Outstanding(u, FUND) == Outstanding(t, FUND) + held && NetSold(u, FUND) == NetSold(t, FUND)
    ensures Outstanding(t, FUND) >= SumBy(t.orders, OpenSellIn(FUND))
  {
    hide NewRows;
    Totals(Again(held), FUND, held);
    AppendedOutstanding(t, u, Again(held), FUND);
    SumNonNegative(t.reservations, WaitingSellOf(t, FUND));
  }

  lemma TwiceSold(u: Tables)
    requires u.orders == SOLD.orders && u.snapshot == SOLD.snapshot
    requires u.reservations == SOLD.reservations + NewRows(SellAll("b"), 2)
    ensures !NeverOversold(u)
  {
    hide NewRows;
    SpokenFor(SOLD, u, 10.0);
    SumNonNegative(SOLD.orders, OpenSellIn(FUND));
    SumOne<ExecutionOrder>(SOLD.orders[0], IncrementOf(FUND));
    assert NetSold(SOLD, FUND) == 10.0;
    assert SnapshotHeld(u, FUND) == 10.0;
  }

  lemma Sells()
    ensures Along(ALL, EmptyTables(), CFG, SALE) && Run(EmptyTables(), CFG, SALE) == SOLD
  {
    hide Along, Run;
    OpensAndReports(OrderState.Filled, 10.0);
  }

  /** A sale that falls between the snapshot and the reservation: every premise of
      RunsNeverOversell but StampedSells holds, the second sale is decided AUTO, and twenty
      shares are sold or spoken for of a position of ten. */
  lemma UnstampedSaleOversells()
    ensures Along(OVERSELL_PREMISES - {StampedSells}, EmptyTables(), CFG, SALE + [SELL_AGAIN])
    ensures EvaluateAndReserve(Run(EmptyTables(), CFG, SALE), SellAll("b"), CFG, CALL).1 == Decided(Auto)
    ensures !NeverOversold(Run(EmptyTables(), CFG, SALE + [SELL_AGAIN]))
  {
    hide EvaluateAndReserve, NeverOversold, Along, Run, NewRows, Favourable, ContextOf;
    Sells();
    var few := OVERSELL_PREMISES - {StampedSells};
    FewerPremises(few, ALL, EmptyTables(), CFG, SALE);
    SoldIsFavourable();
    SellsAgain(SOLD, 1, 10.0);
    var u := EvaluateAndReserve(SOLD, SellAll("b"), CFG, CALL).0;
    TwiceSold(u);
    OneStep(few, SALE, SELL_AGAIN, SOLD, u);
  }

  // ---- proposals without legs pass the count ----

  function EmptyRow(pid: string): AutonomousExecution {
    AutonomousExecution(pid, 0, 0.0)
  }

  /** The reserved ledger after further proposals without legs. */
  function Padded(pids: seq<string>): Tables {
    RESERVED.(proposals := RESERVED.proposals + seq(|pids|, i requires 0 <= i < |pids| => RowFor(Nothing(pids[i]))),
              history := RESERVED.history + seq(|pids|, i requires 0 <= i < |pids| => EmptyRow(pids[i])))
  }

  lemma PaddedExecutions(pids: seq<string>)
    requires |pids| <= 2
    ensures var h := Padded(pids).history;
            && RollingNotional(h, 0) == 10.0
            && RollingCount(h, 0, MICROS_PER_DAY) == RollingCount(h, 0, MICROS_PER_HOUR) == |pids| + 1
  {
    hide RollingNotional, RollingCount, SumBy;
    OneExecution();
    var h := Padded(pids).history;
    if pids == [] {
      assert h == RESERVED.history;
    } else {
      var n := |pids| - 1;
      PaddedExecutions(pids[..n]);
      var before := Padded(pids[..n]).history;
      assert h == before + [EmptyRow(pids[n])];
      CountSnoc(before, EmptyRow(pids[n]), 0, MICROS_PER_DAY);
      CountSnoc(before, EmptyRow(pids[n]), 0, MICROS_PER_HOUR);
      NothingMore(before, EmptyRow(pids[n]));
    }
  }

  lemma NothingMore(history: seq<AutonomousExecution>, e: AutonomousExecution)
    requires e.notional == 0.0
    ensures RollingNotional(history + [e], 0) == RollingNotional(history, 0)
  {
    SumSnoc(history, e, NotionalInWindow(0, MICROS_PER_DAY));
  }

  lemma PaddedIsFavourable(pids: seq<string>, pid: string)
    requires |pids| <= 1
    ensures Favourable(Nothing(pid), ContextOf(Padded(pids), CFG, CALL, None), 10.0)
  {
    hide LiquidityOf, UnresolvedIn, RollingNotional, RollingCount, SumBy, Merged;
    PaddedExecutions(pids);
    CashIsThere(Padded(pids), 1, 10.0);
  }

  lemma NoRows(pid: string, n: nat)
    ensures NewRows(Nothing(pid), n) == [] && AggregateNotional(Nothing(pid)) == 0.0
  {
  }

  lemma PaddedIsNew(pids: seq<string>, pid: string)
    requires pid != "a" && pid !in pids
    ensures RowOf(Padded(pids).proposals, pid).None? && IdentityFree(Padded(pids), Nothing(pid))
  {
    forall row <- Padded(pids).proposals ensures row.proposal.proposalId != pid {
      var i :| 0 <= i < |Padded(pids).proposals| && Padded(pids).proposals[i] == row;
      assert i > 0 ==> row == RowFor(Nothing(pids[i - 1]));
    }
  }

  lemma PadsOnce(pids: seq<string>, pid: string)
    requires |pids| <= 1 && pid != "a" && pid !in pids
    ensures EvaluateAndReserve(Padded(pids), Nothing(pid), CFG, CALL) == (Padded(pids + [pid]), Decided(Auto))
  {
    hide EvaluateAndReserve, ContextOf, Favourable, IdentityFree, NewRows, AggregateNotional;
    var t, p, u := Padded(pids), Nothing(pid), Padded(pids + [pid]);
    PaddedIsFavourable(pids, pid);
    PaddedIsNew(pids, pid);
    ReservesNew(t, p, 1, 10.0);
    NoRows(pid, 2);
    assert u.proposals == t.proposals + [RowFor(p)];
    assert u.history == t.history + [EmptyRow(pid)];
    assert PersistDecision(t, RowFor(p), 0).reservations == u.reservations;
    assert PersistDecision(t, RowFor(p), 0) == u;
  }

  const PADDING := [OBSERVE, OPENING[1], Step.Reserve(Nothing("e"), CALL), Step.Reserve(Nothing("f"), CALL)]

  /** One sell and two proposals without legs, all decided AUTO within the hour: three rows
      stand in both windows under a limit of two. */
  lemma EmptyProposalPassesTheCount()
    ensures Along({FillsNeverFall, Reconciling, SteadyValues}, EmptyTables(), CFG, PADDING)
    ensures var history := Run(EmptyTables(), CFG, PADDING).history;
            && RollingCount(history, 0, MICROS_PER_DAY) == LIMITS.rollingCountMax + 1
            && RollingCount(history, 0, MICROS_PER_HOUR) == LIMITS.runawayHourlyMax + 1
  {
    hide EvaluateAndReserve, Along, Run, RollingCount;
    var few := {FillsNeverFall, Reconciling, SteadyValues};
    OpensHalf();
    FewerPremises(few, ALL, EmptyTables(), CFG, [OBSERVE, OPENING[1]]);
    assert Padded([]) == RESERVED;
    PadsOnce([], "e");
    OneStep(few, [OBSERVE, OPENING[1]], PADDING[2], Padded([]), Padded(["e"]));
    assert [OBSERVE, OPENING[1]] + [PADDING[2]] == [OBSERVE, OPENING[1], PADDING[2]];
    PadsOnce(["e"], "f");
    assert [] + ["e"] == ["e"] && ["e"] + ["f"] == ["e", "f"];
    OneStep(few, [OBSERVE, OPENING[1], PADDING[2]], PADDING[3], Padded(["e"]), Padded(["e", "f"]));
    PaddedExecutions(["e", "f"]);
    assert [OBSERVE, OPENING[1], PADDING[2]] + [PADDING[3]] == PADDING;
  }

  // ---- a second report on the order that is still working ----

  function Working(filled: real, price: real, settled: real): ExecutionOrder
    requires 0.0 <= filled <= 10.0 && price >= 0.0
  {
    Worked(ExecutionState.PartiallyFilled, filled, price, settled)
  }

  lemma SecondReport(sell: Reservation, before: ExecutionOrder, filled: real, price: real, events: seq<SettlementEvent>)
    requires sell == SellRowOf(5.0, true) || sell == SellRowOf(10.0, false)
    requires 0.0 < filled <= before.filled <= 10.0 && price >= 0.0
    requires before == Working(before.filled, 1.0, before.settledProceeds)
    ensures var step := ReportStep(Lookup, FillReport(OrderState.PartiallyFilled, filled, price));
            var after := Working(filled, price, before.settledProceeds);
            ApplyOrder(Ledger(sell, IdentityRowOf(true), [before], events), SESSIONS, step)
            == Ledger(if sell.active then ResizedSell(sell, 10.0 - filled) else sell, IdentityRowOf(true), [after], events)
  {
    hide SyncProposal, SettleSale;
    var t, after := Ledger(sell, IdentityRowOf(true), [before], events), Working(filled, price, before.settledProceeds);
    assert Reported(Lookup, before, FillReport(OrderState.PartiallyFilled, filled, price)) == Ok(after);
    assert t.orders[0 := after] == [after];
    Synced(after, sell, IdentityRowOf(true), events);
  }

  // ---- a corrected price ----

  const HALF := Ledger(SellRowOf(5.0, true), IdentityRowOf(true), [Working(5.0, 1.0, 5.0)], [SaleEvent(5.0, 5.0)])

  const CORRECTED := Ledger(SellRowOf(5.0, true), IdentityRowOf(true), [Working(5.0, 2.0, 5.0)], [SaleEvent(5.0, 5.0)])

  const PRICED := OPENING + [OnOrder(HALF_FILL)]

  lemma HalfFills()
    ensures Along(ALL, EmptyTables(), CFG, PRICED) && Run(EmptyTables(), CFG, PRICED) == HALF
  {
    hide Along, Run;
    OpensAndReports(OrderState.PartiallyFilled, 5.0);
  }

  lemma CorrectedLift(cash: real)
    ensures NothingSettled(CORRECTED, Derived("a", 0), 0) && Lift(CORRECTED, CORRECTED.orders[0], cash, 0) == 5.0
  {
    hide Lift;
    LiftIsUnrecorded(CORRECTED, CORRECTED.orders[0], cash, 0);
    SumOne<SettlementEvent>(SaleEvent(5.0, 5.0), EventsOf(Derived("a", 0)));
  }

  /** A report of the same fill at another average price settles nothing more: only SteadyValues
      and CoveringValues fail, and a sale of ten dollars lifts settled cash by five at once. */
  lemma CorrectedPriceLifts(cash: real)
    ensures var steps := PRICED + [OnOrder(CORRECTION)];
            var t := Run(EmptyTables(), CFG, steps);
            && Along(ALL - {SteadyValues, CoveringValues}, EmptyTables(), CFG, steps)
            && t.orders == CORRECTED.orders && NothingSettled(t, t.orders[0].id, 0)
            && Lift(t, t.orders[0], cash, 0) == 5.0
  {
    hide Along, Run, ApplyOrder, Lift, NothingSettled;
    HalfFills();
    var few := ALL - {SteadyValues, CoveringValues};
    FewerPremises(few, ALL, EmptyTables(), CFG, PRICED);
    SecondReport(SellRowOf(5.0, true), HALF.orders[0], 5.0, 2.0, HALF.events);
    assert ApplyOrder(HALF, SESSIONS, CORRECTION) == CORRECTED;
    OneStep(few, PRICED, OnOrder(CORRECTION), HALF, CORRECTED);
    CorrectedLift(cash);
  }

  // ---- a fill that falls back ----

  const USED := Ledger(SellRowOf(10.0, false), IdentityRowOf(true), [Working(10.0, 1.0, 10.0)], [SaleEvent(10.0, 10.0)])

  const FALLEN := Ledger(SellRowOf(10.0, false), IdentityRowOf(true), [Working(4.0, 1.0, 10.0)], [SaleEvent(10.0, 10.0)])

  const CONSUMED := OPENING + [OnOrder(USED_UP)]

  lemma UsesUp()
    ensures Along(ALL, EmptyTables(), CFG, CONSUMED) && Run(EmptyTables(), CFG, CONSUMED) == USED
  {
    hide Along, Run;
    OpensAndReports(OrderState.PartiallyFilled, 10.0);
  }

  lemma FallenIsUncovered()
    ensures Started(FALLEN, "a") && ReservedSell(FALLEN, "a", FUND) == 0.0 && SellRemaining(FALLEN, "a", FUND) == 6.0
  {
    assert FALLEN.orders[0] in FALLEN.orders;
    WorkedRemaining(FALLEN.orders[0], SellRowOf(10.0, false), IdentityRowOf(true), FALLEN.events);
    SumZero(FALLEN.reservations, ActiveSellFor("a", FUND));
  }

  /** A fill that falls back: released rows are never created again, so every premise but
      FillsNeverFall leaves six open shares without capacity. */
  lemma FallingFillUncovers()
    ensures var steps := CONSUMED + [OnOrder(FALL_BACK)];
            var t := Run(EmptyTables(), CFG, steps);
            && Along(OVERSELL_PREMISES - {FillsNeverFall}, EmptyTables(), CFG, steps)
            && Started(t, "a") && ReservedSell(t, "a", FUND) == 0.0 && SellRemaining(t, "a", FUND) == 6.0
            && !CapacityInv(t)
  {
    hide Along, Run, ApplyOrder, SellRemaining, ReservedSell;
    UsesUp();
    var few := OVERSELL_PREMISES - {FillsNeverFall};
    FewerPremises(few, ALL, EmptyTables(), CFG, CONSUMED);
    SecondReport(SellRowOf(10.0, false), USED.orders[0], 4.0, 1.0, USED.events);
    assert ApplyOrder(USED, SESSIONS, FALL_BACK) == FALLEN;
    OneStep(few, CONSUMED, OnOrder(FALL_BACK), USED, FALLEN);
    FallenIsUncovered();
    assert CapacityInv(FALLEN) ==> Accounted(FALLEN, "a");
  }
}
