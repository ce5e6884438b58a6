/** Why each premise of the no-oversell theorem is there: four more runs from the empty
    ledger, each one breaking that one premise of it, after which more shares are sold or
    spoken for than are held. */
module OversellRuns {
  import opened Authority
  import opened Calendar
  import opened Capacity
  import opened CapacitySteps
  import opened Compare
  import opened Counterexamples
  import opened Decision
  import opened Domain
  import opened Execution
  import opened Guard
  import opened LedgerRuns
  import opened LedgerSteps
  import opened Liquidity
  import opened Money
  import opened Orchestration
  import opened Oversell
  import opened Reconcile
  import opened Records
  import opened Results
  import opened States
  import opened Sums
  import opened Sync
  import opened Tables
  import opened Unresolved

  /** No active SELL row, nothing unknown. */
  predicate AtRest(t: Tables) {
    && t.snapshot == Some(SNAPSHOT) && t.history == RESERVED.history && t.unknown == []
    && (t.events == [] || t.events == [SaleEvent(10.0, 10.0)])
    && (t.reservations == [SellRowOf(10.0, false), IdentityRowOf(false)]
        || t.reservations == [SellRowOf(10.0, false), IdentityRowOf(true)])
  }

  lemma NothingUnresolved(t: Tables)
    requires AtRest(t)
    ensures UnresolvedIn(t, None) == [] && PicksAreOpen(t, None)
  {
    hide LocalIds;
    NothingActive(t.reservations);
    assert ContextOrders(ActiveRows(t.reservations, None), [], [], {}) == [];
  }

  lemma IdleIsFavourable(t: Tables)
    requires AtRest(t)
    ensures Favourable(Again(10.0), ContextOf(t, CFG, CALL, None), 10.0)
  {
    hide LiquidityOf, UnresolvedIn, RollingNotional, RollingCount, SumBy, ActiveRows, CashObligations;
    NothingUnresolved(t);
    OneExecution();
    CashIsThere(t, 1, 10.0);
  }

  lemma NothingActive(rs: seq<Reservation>)
    requires rs == [SellRowOf(10.0, false), IdentityRowOf(false)] || rs == [SellRowOf(10.0, false), IdentityRowOf(true)]
    ensures FromReservations(ActiveRows(rs, None)) == []
  {
  }

  // ---- a sell that is over fills late ----

  /** FILLED, without saying how much. */
  const SILENT: OrderStep := TakeReport(Derived("a", 0), Acknowledgement, RawReport.Report(Mapped(OrderState.Filled), None, Some("b"), None), 0)

  const LATE: OrderStep := ReportStep(Lookup, FillReport(OrderState.Filled, 10.0, 1.0))

  const UNFILLED :=
    Ledger(SellRowOf(10.0, false), IdentityRowOf(false), [SellOrder(ExecutionState.Filled, 0.0, Some("b"), None, 0.0)], [])

  lemma SilentlyFilled(before: ExecutionOrder, report: Report)
    requires before.state.Submitting? && before.quantity >= 0.0
    requires report.status == Mapped(OrderState.Filled) && report.filled == None && report.brokerOrderId.Some?
    ensures Reported(Acknowledgement, before, report)
         == Ok(before.(state := ExecutionState.Filled, filled := 0.0, remaining := before.quantity,
                       brokerOrderId := report.brokerOrderId, filledAvgPrice := None))
  {
  }

  lemma FillsSilently()
    ensures ApplyOrder(STARTED, SESSIONS, SILENT) == UNFILLED
  {
    hide SyncProposal, SettleSale, Reported;
    var o := SellOrder(ExecutionState.Filled, 0.0, Some("b"), None, 0.0);
    SilentlyFilled(STARTED.orders[0], SILENT.report);
    assert STARTED.orders[0 := o] == [o];
    Synced(o, SellRowOf(10.0, true), IdentityRowOf(true), []);
  }

  lemma SilenceIsFair()
    ensures forall p <- ALL :: Meets(p, STARTED, OnOrder(SILENT))
  {
    hide Reported;
    var o := STARTED.orders[0];
    BudgetOfNothing(FillPrice(o));
    assert FilledProceeds(o) == 0.0 && ReportedValue(Acknowledgement, o, SILENT.report) == 0.0;
  }

  const QUIET_SALE := OPENING + [OnOrder(SILENT)]

  lemma SellsQuietly()
    ensures Along(ALL, EmptyTables(), CFG, QUIET_SALE) && Run(EmptyTables(), CFG, QUIET_SALE) == UNFILLED
  {
    hide ApplyOrder, Meets, Along, Run;
    Opens();
    FillsSilently();
    SilenceIsFair();
    OneStep(ALL, OPENING, OnOrder(SILENT), STARTED, UNFILLED);
  }

  lemma UnfilledIsStamped()
    ensures SellsStamped(UNFILLED, Again(10.0))
  {
    forall s ensures NetSold(UNFILLED, s) == 0.0 {
      SumOne<ExecutionOrder>(UNFILLED.orders[0], IncrementOf(s));
    }
  }

  /** The ledger after the second sale was reserved. */
  lemma QuietlySoldAgain(u: Tables)
    requires u == EvaluateAndReserve(UNFILLED, SellAll("b"), CFG, CALL).0
    ensures Along(ALL, EmptyTables(), CFG, QUIET_SALE + [SELL_AGAIN])
    ensures Run(EmptyTables(), CFG, QUIET_SALE + [SELL_AGAIN]) == u
    ensures EvaluateAndReserve(UNFILLED, SellAll("b"), CFG, CALL).1 == Decided(Auto)
    ensures u.orders == UNFILLED.orders && u.snapshot == Some(SNAPSHOT) && u.events == []
    ensures Outstanding(u, FUND) >= 10.0 && NetSold(u, FUND) == 0.0
  {
    hide EvaluateAndReserve, Along, Run, NewRows, Favourable, ContextOf, SellsStamped, PicksAreOpen;
    SellsQuietly();
    NothingUnresolved(UNFILLED);
    UnfilledIsStamped();
    IdleIsFavourable(UNFILLED);
    SellsAgain(UNFILLED, 1, 10.0);
    OneStep(ALL, QUIET_SALE, SELL_AGAIN, UNFILLED, u);
    UnfilledIsSpokenFor(u);
  }

  lemma UnfilledIsSpokenFor(u: Tables)
    requires u.orders == UNFILLED.orders && u.reservations == UNFILLED.reservations + NewRows(Again(10.0), 2)
    ensures Outstanding(u, FUND) >= 10.0 && NetSold(u, FUND) == 0.0
  {
    hide NewRows;
    SpokenFor(UNFILLED, u, 10.0);
    SumOne<ExecutionOrder>(UNFILLED.orders[0], OpenSellIn(FUND));
    SumOne<ExecutionOrder>(UNFILLED.orders[0], IncrementOf(FUND));
  }

  lemma LateRow(u: Tables)
    requires u.orders == UNFILLED.orders && u.events == []
    ensures IndexOf(u.orders, Derived("a", 0)) == Some(0) && RecordReport(u, 0, Lookup, LATE.report, 0, SESSIONS).Ok?
    ensures Reported(Lookup, u.orders[0], LATE.report) == Ok(Worked(ExecutionState.Filled, 10.0, 1.0, 0.0))
  {
    NextSessionIsOne();
  }

  lemma LateIsFair(u: Tables)
    requires u.orders == UNFILLED.orders && u.events == []
    ensures forall p <- ALL - {SalesAreFinal} :: Meets(p, u, OnOrder(LATE))
  {
    LateRow(u);
    BudgetOfNothing(FillPrice(u.orders[0]));
    assert FilledProceeds(u.orders[0]) == 0.0;
  }

  /** The first answer says FILLED without a quantity, so the order is over with nothing filled
      and its shares are free; the lookup then tells the fill. Only SalesAreFinal fails: no fill
      ever falls, the second sale sees no unstamped one, and it was decided AUTO. */
  lemma LateFillOversells()
    ensures var sold := QUIET_SALE + [SELL_AGAIN];
            && Along(ALL, EmptyTables(), CFG, sold) && NeverOversold(Run(EmptyTables(), CFG, sold))
            && EvaluateAndReserve(Run(EmptyTables(), CFG, QUIET_SALE), SellAll("b"), CFG, CALL).1 == Decided(Auto)
            && Along(ALL - {SalesAreFinal}, EmptyTables(), CFG, sold + [OnOrder(LATE)])
            && !NeverOversold(Run(EmptyTables(), CFG, sold + [OnOrder(LATE)]))
  {
    hide EvaluateAndReserve, NeverOversold, Along, Run, Meets, ApplyReport, Reported, RecordReport, Outstanding, NetSold, LedgerInv;
    var sold := QUIET_SALE + [SELL_AGAIN];
    var t := EvaluateAndReserve(UNFILLED, SellAll("b"), CFG, CALL).0;
    SellsQuietly();
    QuietlySoldAgain(t);
    SoundRun(sold);
    LateRow(t);
    ReportBoundedIff(t, Derived("a", 0), 0, Lookup, LATE.report, 0, SESSIONS);
    assert Room(t, FUND) <= 0.0;
    LateIsFair(t);
    FewerPremises(ALL - {SalesAreFinal}, ALL, EmptyTables(), CFG, sold);
    OneStep(ALL - {SalesAreFinal}, sold, OnOrder(LATE), t, ApplyOrder(t, SESSIONS, LATE));
  }

  lemma SoundRun(steps: seq<Step>)
    requires Along(ALL, EmptyTables(), CFG, steps)
    ensures NeverOversold(Run(EmptyTables(), CFG, steps))
  {
    hide NeverOversold, Along, Run;
    EmptyIsSound();
    FewerPremises(OVERSELL_PREMISES, ALL, EmptyTables(), CFG, steps);
    RunKeeps(EmptyTables(), CFG, steps);
  }

  // ---- a fill falls back to nothing ----

  const EMPTIED :=
    Ledger(SellRowOf(10.0, false), IdentityRowOf(true),
           [SellOrder(ExecutionState.PartiallyFilled, 0.0, Some("b"), None, 10.0)], [SaleEvent(10.0, 10.0)])

  const TAKEN_BACK: OrderStep := ReportStep(Lookup, FillReport(OrderState.PartiallyFilled, 0.0, 1.0))

  /** A report that nothing has filled after all. */
  lemma NothingFilled(before: ExecutionOrder, report: Report)
    requires before.state.PartiallyFilled? && before.quantity >= 0.0 && before.brokerOrderId == report.brokerOrderId
    requires report.status == Mapped(OrderState.PartiallyFilled) && report.filled == Some(0.0)
    ensures Reported(Lookup, before, report)
         == Ok(before.(filled := 0.0, remaining := before.quantity, filledAvgPrice := None))
  {
    hide LegalTargets;
  }

  lemma TakesBack()
    ensures ApplyOrder(USED, SESSIONS, TAKEN_BACK) == EMPTIED
    ensures forall p <- ALL - {FillsNeverFall, SteadyValues} :: Meets(p, USED, OnOrder(TAKEN_BACK))
  {
    hide SyncProposal, SettleSale, Reported;
    NothingFilled(USED.orders[0], TAKEN_BACK.report);
    assert USED.orders[0 := EMPTIED.orders[0]] == EMPTIED.orders;
    Synced(EMPTIED.orders[0], SellRowOf(10.0, false), IdentityRowOf(true), [SaleEvent(10.0, 10.0)]);
    BudgetOfNothing(1.0);
  }

  lemma EmptiedIsStamped()
    ensures SellsStamped(EMPTIED, Again(10.0))
  {
    forall s ensures NetSold(EMPTIED, s) == 0.0 {
      SumOne<ExecutionOrder>(EMPTIED.orders[0], IncrementOf(s));
    }
  }

  lemma EmptiedIsOpen(u: Tables)
    requires u.orders == EMPTIED.orders && u.snapshot == EMPTIED.snapshot
    requires u.reservations == EMPTIED.reservations + NewRows(Again(10.0), 2)
    ensures !NeverOversold(u)
  {
    hide NewRows;
    SpokenFor(EMPTIED, u, 10.0);
    SumOne<ExecutionOrder>(EMPTIED.orders[0], OpenSellIn(FUND));
    SumOne<ExecutionOrder>(EMPTIED.orders[0], IncrementOf(FUND));
    assert SnapshotHeld(u, FUND) == 10.0;
  }

  const FALLEN_BACK := CONSUMED + [OnOrder(TAKEN_BACK)]

  lemma FallsBack()
    ensures Along(ALL - {FillsNeverFall, SteadyValues}, EmptyTables(), CFG, FALLEN_BACK)
    ensures Run(EmptyTables(), CFG, FALLEN_BACK) == EMPTIED
  {
    hide Along, Run, ApplyOrder, Meets;
    UsesUp();
    FewerPremises(ALL - {FillsNeverFall, SteadyValues}, ALL, EmptyTables(), CFG, CONSUMED);
    TakesBack();
    OneStep(ALL - {FillsNeverFall, SteadyValues}, CONSUMED, OnOrder(TAKEN_BACK), USED, EMPTIED);
  }

  lemma EmptiedSells(u: Tables)
    requires u == EvaluateAndReserve(EMPTIED, SellAll("b"), CFG, CALL).0
    ensures EvaluateAndReserve(EMPTIED, SellAll("b"), CFG, CALL).1 == Decided(Auto) && !NeverOversold(u)
    ensures Apply(EMPTIED, CFG, SELL_AGAIN) == u && forall p <- ALL :: Meets(p, EMPTIED, SELL_AGAIN)
  {
    hide EvaluateAndReserve, NeverOversold, NewRows, Favourable, ContextOf, SellsStamped, PicksAreOpen;
    NothingUnresolved(EMPTIED);
    EmptiedIsStamped();
    IdleIsFavourable(EMPTIED);
    SellsAgain(EMPTIED, 1, 10.0);
    EmptiedIsOpen(u);
  }

  /** All ten shares are reported as filled and their capacity is released; the next report
      takes the fill back. The open order has no capacity, and its shares are sold again. */
  lemma FallingFillOversells()
    ensures Along(ALL - {FillsNeverFall, SteadyValues}, EmptyTables(), CFG, FALLEN_BACK + [SELL_AGAIN])
    ensures EvaluateAndReserve(Run(EmptyTables(), CFG, FALLEN_BACK), SellAll("b"), CFG, CALL).1 == Decided(Auto)
    ensures !NeverOversold(Run(EmptyTables(), CFG, FALLEN_BACK + [SELL_AGAIN]))
  {
    hide EvaluateAndReserve, NeverOversold, Along, Run, Meets, Apply;
    FallsBack();
    var u := EvaluateAndReserve(EMPTIED, SellAll("b"), CFG, CALL).0;
    EmptiedSells(u);
    OneStep(ALL - {FillsNeverFall, SteadyValues}, FALLEN_BACK, SELL_AGAIN, EMPTIED, u);
  }

  // ---- the position vanishes ----

  const NOTHING_HELD: View := RawView.View(1000.0, [], [], {FUND}, map[])

  const VANISH := Step.Reconcile([], NOTHING_HELD, 0)

  lemma VanishedIsDrift()
    ensures Judgement(RESERVED, [], NOTHING_HELD, 0).Judged? && !Judgement(RESERVED, [], NOTHING_HELD, 0).verdict.Agrees?
  {
    hide CashInconsistent, VerdictOf;
    var x := InputsOf(RESERVED, [], NOTHING_HELD, 0);
    AgreesIsClean(x);
    assert Held([TEN], FUND) == 10.0 && Held([], FUND) == 0.0;
    assert Moved(x, FUND);
  }

  lemma VanishedTables(u: Tables)
    requires u == ReconcileTables(RESERVED, [], NOTHING_HELD, 0)
    ensures !NeverOversold(u)
  {
    hide VerdictOf, Outstanding;
    VanishedIsDrift();
    WaitingA(u);
    SumZero(u.orders, IncrementOf(FUND));
    assert SnapshotHeld(u, FUND) == 0.0;
  }

  lemma WaitingA(u: Tables)
    requires u.orders == [] && u.reservations == RESERVED.reservations
    ensures Outstanding(u, FUND) == 10.0
  {
    var rs := u.reservations;
    assert rs == [rs[0]] + [rs[1]];
    SumAppend<Reservation>([rs[0]], [rs[1]], WaitingSellOf(u, FUND));
    SumOne<Reservation>(rs[0], WaitingSellOf(u, FUND));
    SumOne<Reservation>(rs[1], WaitingSellOf(u, FUND));
  }

  const DRIFTING := [OBSERVE, OPENING[1], VANISH]

  /** A verdict of drift takes over whatever the broker reports. */
  lemma DriftOversells()
    ensures Along(ALL - {Reconciling}, EmptyTables(), CFG, DRIFTING)
    ensures !NeverOversold(Run(EmptyTables(), CFG, DRIFTING))
  {
    hide NeverOversold, Along, Run, ReconcileTables;
    var few := ALL - {Reconciling};
    OpensHalf();
    FewerPremises(few, ALL, EmptyTables(), CFG, [OBSERVE, OPENING[1]]);
    var u := ReconcileTables(RESERVED, [], NOTHING_HELD, 0);
    VanishedTables(u);
    OneStep(few, [OBSERVE, OPENING[1]], VANISH, RESERVED, u);
    assert [OBSERVE, OPENING[1]] + [VANISH] == DRIFTING;
  }

  // ---- a resolved row hides a reservation ----

  function UnknownRowOfA(state: OrderState, filled: Option<real>): UnknownOrder
    requires filled == None || filled == Some(5.0)
  {
    RawUnknownOrder.UnknownOrder(Derived("a", 0), "a", FUND, Sell, state, Some(10.0), filled)
  }

  const LOST_ORDER := SellOrder(ExecutionState.Unknown, 5.0, Some("b"), Some(1.0), 5.0)

  const LOST := HALF.(orders := [LOST_ORDER], unknown := [UnknownRowOfA(OrderState.Unknown, Some(5.0))])

  const LOSE := OnOrder(LoseOrder(Derived("a", 0)))

  lemma Loses()
    ensures ApplyOrder(HALF, SESSIONS, LoseOrder(Derived("a", 0))) == LOST
  {
    assert HALF.orders[0 := LOST_ORDER] == [LOST_ORDER];
  }

  /** The lookup finds the order cancelled, without a filled quantity. */
  const CANCELLED: BrokerRow :=
    RawBrokerOrder.BrokerOrder(Derived("a", 0), FUND, Sell, OrderState.Canceled, Some(10.0), None)

  const ANSWERED: View := RawView.View(1000.0, [Shares(5.0)], [], {FUND}, map[Derived("a", 0) := Found(CANCELLED)])

  const RESOLVE := Step.Reconcile(LOST.unknown, ANSWERED, 0)

  const STALE_ORDER: ExecutionOrder := LOST_ORDER.(reconciledFilled := 5.0)

  const STALE := LOST.(orders := [STALE_ORDER], unknown := [UnknownRowOfA(OrderState.Canceled, None)],
                       snapshot := Some(SnapshotOf(2, 5.0)))

  lemma ResolvedLost()
    ensures ResolvedRows(LOST.unknown, ANSWERED) == [UnknownRowOfA(OrderState.Canceled, None)]
  {
    assert Resolved(LOST.unknown[0], ANSWERED) == UnknownRowOfA(OrderState.Canceled, None);
  }

  lemma AnsweredIsConsistent()
    ensures !CashInconsistent(InputsOf(LOST, LOST.unknown, ANSWERED, 0))
  {
    hide SortedDays, Schedule, RelevantDates, ResolvedRows, ActiveRows;
    SumOne<SettlementEvent>(SaleEvent(5.0, 5.0), EventAmount());
  }

  lemma AnsweredMoves(s: Symbol)
    ensures !Moved(InputsOf(LOST, LOST.unknown, ANSWERED, 0), s)
  {
    hide ResolvedRows, ActiveRows;
    HeldShares(5.0, s);
    HeldShares(10.0, s);
    SumOne<ExecutionOrder>(LOST_ORDER, IncrementOf(s));
  }

  lemma AnsweredIsClean()
    ensures Clean(InputsOf(LOST, LOST.unknown, ANSWERED, 0)) && !Invalid(InputsOf(LOST, LOST.unknown, ANSWERED, 0))
  {
    hide CashInconsistent, Moved, ResolvedRows;
    AnsweredIsConsistent();
    ResolvedLost();
    forall s ensures !Moved(InputsOf(LOST, LOST.unknown, ANSWERED, 0), s) {
      AnsweredMoves(s);
    }
  }

  lemma Resolves()
    ensures Judgement(LOST, LOST.unknown, ANSWERED, 0) == Judged(Agrees)
    ensures ReconcileTables(LOST, LOST.unknown, ANSWERED, 0) == STALE
  {
    hide Clean, VerdictOf, Invalid, ResolvedRows, InputsOf;
    AnsweredIsClean();
    AgreesIsClean(InputsOf(LOST, LOST.unknown, ANSWERED, 0));
    ResolvedLost();
    assert StampedOrders([LOST_ORDER]) == [STALE_ORDER];
    UpsertsLost();
  }

  lemma UpsertsLost()
    ensures UpsertAll(LOST.unknown, [UnknownRowOfA(OrderState.Canceled, None)]) == STALE.unknown
  {
    var row := UnknownRowOfA(OrderState.Canceled, None);
    assert [row][..0] == [];
    assert UpsertUnknown(LOST.unknown, row) == [row];
  }

  lemma StalePick()
    ensures forall o <- UnresolvedIn(STALE, None) :: !o.state.IsUnresolved()
  {
    var a: UnresolvedOrder := AsUnresolved(SellRowOf(5.0, true));
    var b: UnresolvedOrder := RawUnresolvedOrder.UnresolvedOrder(FUND, Sell, Some(Derived("a", 0)), OrderState.Canceled, Some(10.0), None);
    var active := ActiveRows(STALE.reservations, None);
    assert active == [SellRowOf(5.0, true), IdentityRowOf(true)];
    assert FromReservations(active) == [a];
    assert FromUnknown(STALE.unknown) == [b];
    assert UnknownRows(STALE.unknown, None) == STALE.unknown;
    assert ContextOrders(active, STALE.unknown, [], LocalIds(STALE, active, STALE.unknown, None)) == [a, b];
    MergedPair(a, b, Derived("a", 0));
  }

  lemma StaleIsFavourable()
    ensures Favourable(Again(5.0), ContextOf(STALE, CFG, CallAt(2), None), 5.0)
  {
    hide LiquidityOf, UnresolvedIn, RollingNotional, RollingCount, SumBy, ActiveRows, CashObligations;
    StalePick();
    OneExecution();
    CashIsThere(STALE, 2, 5.0);
  }

  lemma StaleIsStamped()
    ensures SellsStamped(STALE, Again(5.0))
  {
    forall s ensures NetSold(STALE, s) == 0.0 {
      SumOne<ExecutionOrder>(STALE_ORDER, IncrementOf(s));
    }
  }

  lemma HiddenSells(u: Tables)
    requires u.orders == STALE.orders && u.snapshot == STALE.snapshot
    requires u.reservations == STALE.reservations + NewRows(Again(5.0), 2)
    ensures !NeverOversold(u)
  {
    hide NewRows;
    SpokenFor(STALE, u, 5.0);
    SumOne<ExecutionOrder>(STALE_ORDER, OpenSellIn(FUND));
    SumOne<ExecutionOrder>(STALE_ORDER, IncrementOf(FUND));
    HeldShares(5.0, FUND);
  }

  const HIDDEN := PRICED + [LOSE] + [RESOLVE]

  const SELL_REST := Step.Reserve(Again(5.0), CallAt(2))

  lemma Hides()
    ensures Along(ALL, EmptyTables(), CFG, HIDDEN) && Run(EmptyTables(), CFG, HIDDEN) == STALE
  {
    hide Along, Run, ApplyOrder, ReconcileTables, Judgement;
    HalfFills();
    Loses();
    OneStep(ALL, PRICED, LOSE, HALF, LOST);
    Resolves();
    OneStep(ALL, PRICED + [LOSE], RESOLVE, LOST, STALE);
  }

  lemma SellsRest(u: Tables)
    requires u == EvaluateAndReserve(STALE, Again(5.0), CFG, CallAt(2)).0
    ensures EvaluateAndReserve(STALE, Again(5.0), CFG, CallAt(2)).1 == Decided(Auto) && !NeverOversold(u)
    ensures Apply(STALE, CFG, SELL_REST) == u && forall p <- ALL - {OpenPicks} :: Meets(p, STALE, SELL_REST)
  {
    hide EvaluateAndReserve, NeverOversold, NewRows, Favourable, ContextOf, SellsStamped, PicksAreOpen;
    StaleIsFavourable();
    StaleIsStamped();
    SellsAgain(STALE, 2, 5.0);
    HiddenSells(u);
  }

  /** A lost order is found cancelled, without a filled quantity. The reconciliation agrees, the
      ledger's order is still UNKNOWN, and the resolved row with its larger remainder hides the
      reservation: the five shares that are left are sold again. */
  lemma ResolvedPickOversells()
    ensures Along(ALL, EmptyTables(), CFG, HIDDEN)
    ensures Along(ALL - {OpenPicks}, EmptyTables(), CFG, HIDDEN + [SELL_REST])
    ensures EvaluateAndReserve(Run(EmptyTables(), CFG, HIDDEN), Again(5.0), CFG, CallAt(2)).1 == Decided(Auto)
    ensures !NeverOversold(Run(EmptyTables(), CFG, HIDDEN + [SELL_REST]))
  {
    hide EvaluateAndReserve, NeverOversold, Along, Run, Meets, Apply;
    Hides();
    var u := EvaluateAndReserve(STALE, Again(5.0), CFG, CallAt(2)).0;
    SellsRest(u);
    FewerPremises(ALL - {OpenPicks}, ALL, EmptyTables(), CFG, HIDDEN);
    OneStep(ALL - {OpenPicks}, HIDDEN, SELL_REST, STALE, u);
  }
}
