/** Every check by itself, every fill and the settlement schedule of a proposal, over the
    inputs alone. */
module Checks {
  import opened Authority
  import opened Calendar
  import opened Domain
  import opened FillSafety
  import opened Guard
  import opened Liquidity
  import opened Money
  import opened PartialFill
  import opened Requirements
  import opened Results
  import opened Subsets
  import opened Sums
  import opened Tables
  import opened Unresolved

  // ---- the schedule of one proposal ----

  function SellCostOf(): Leg -> real {
    (l: Leg) => if l.side == Sell then BudgetOf(l.quantity, l.referencePrice) else 0.0
  }

  function OwedBy(day: Day): Obligation -> real {
    (o: Obligation) => if o.dueDate <= day then o.amount else 0.0
  }

  function Today(c: PolicyContext): Day {
    c.now / 86_400_000_000
  }

  /** The day on which sells of today settle. */
  function SettlesOn(c: PolicyContext): Result<Day> {
    SettlementOn(c.calendar, c.now / 86_400_000_000, 1)
  }

  /** Cash on a day after the trade: what has settled by then, with the sells, less the buys and
      what was due. */
  function CashOn(p: Proposal, c: PolicyContext, day: Day): real {
    var settled := if day < Today(c) then Today(c) else day;
    c.cash - SumBy(c.settlementEvents, SettlesAfter(settled)) - SumBy(p.legs, BuyCostOf())
    + (if SettlesOn(c).Ok? && SettlesOn(c).value <= day then SumBy(p.legs, SellCostOf()) else 0.0)
    - SumBy(c.obligations, OwedBy(day))
  }

  lemma {:induction false} SettledByNow(events: seq<SettlementEvent>, today: Day, day: Day)
    ensures SumBy(Unsettled(events, today), SettlesBy(day))
         == SumBy(events, SettlesAfter(today)) - SumBy(events, SettlesAfter(if day < today then today else day))
  {
    if events != [] {
      SettledByNow(events[1..], today, day);
      var rest := Unsettled(events[1..], today);
      if events[0].settlementDate > today {
        var one: seq<SettlementEvent> := [events[0]];
        assert Unsettled(events, today) == one + rest && one[1..] == [];
        SumAppend<SettlementEvent>(one, rest, SettlesBy(day));
      } else {
        assert Unsettled(events, today) == rest;
      }
    }
  }

  /** One event a sell, in order, at its cent-floored value on the settlement date. */
  lemma {:induction false} SellEventsAre(legs: seq<Leg>, today: Day, settlement: Day)
    requires today <= settlement
    ensures var events := SellEventsAt(legs, today, settlement);
            && |events| <= |legs|
            && (forall e <- events ::
                  && e.tradeDate == today && e.settlementDate == settlement
                  && exists l <- legs :: l.side == Sell && e.symbol == l.symbol && e.eventId == LegKey(l.proposalId, l.legIndex)
                                         && e.amount == BudgetOf(l.quantity, l.referencePrice))
            && forall day :: SumBy(events, SettlesBy(day)) == if settlement <= day then SumBy(legs, SellCostOf()) else 0.0
  {
    if legs != [] {
      var before, last := legs[..|legs| - 1], legs[|legs| - 1];
      assert legs == before + [last];
      SellEventsAre(before, today, settlement);
      var events := SellEventsAt(before, today, settlement);
      forall day
        ensures SumBy(SellEventsAt(legs, today, settlement), SettlesBy(day))
             == if settlement <= day then SumBy(legs, SellCostOf()) else 0.0
      {
        SumSnoc<Leg>(before, last, SellCostOf());
        if last.side.Sell? {
          SumSnoc<SettlementEvent>(events, SellEvent(last, today, settlement), SettlesBy(day));
          assert SellEventsAt(legs, today, settlement) == events + [SellEvent(last, today, settlement)];
        } else {
          assert SellEventsAt(legs, today, settlement) == events;
        }
        assert SumBy(events, SettlesBy(day)) == if settlement <= day then SumBy(before, SellCostOf()) else 0.0;
      }
    }
  }

  /** Without sells there are no events and no calendar is asked; with sells the events are those
      of SellEventsAre on the settlement date, if there is one. */
  lemma SettlementScheduleIs(legs: seq<Leg>, today: Day, cal: TradingCalendar)
    ensures var events, day := SellSettlementEvents(legs, today, cal), SettlementOn(cal, today, 1);
            if forall l <- legs :: l.side != Sell then events == Ok([])
            else
              && (events.Ok? <==> day.Ok?)
              && (events.Ok? ==> today < day.value && events.value == SellEventsAt(legs, today, day.value))
  {
    hide AddSessions, SellEventsAt;
    if SettlementDate(cal, today).Ok? {
      SettlementAfterTrade(cal, today);
    }
  }

  lemma SellEventsSum(p: Proposal, c: PolicyContext, day: Day)
    requires SellEvents(p, c).Ok?
    ensures SumBy(SellEvents(p, c).value, SettlesBy(day))
         == if SettlesOn(c).Ok? && SettlesOn(c).value <= day then SumBy(p.legs, SellCostOf()) else 0.0
  {
    hide SellSettlementEvents, SettlementOn, SellEventsAt;
    SettlementScheduleIs(p.legs, Today(c), c.calendar);
    if forall l <- p.legs :: l.side != Sell {
      SumZero<Leg>(p.legs, SellCostOf());
    } else {
      SellEventsAre(p.legs, Today(c), SettlesOn(c).value);
    }
  }

  lemma AvailableIs(p: Proposal, c: PolicyContext, day: Day)
    requires LiquidityOf(c).Ok? && SellEvents(p, c).Ok?
    ensures PostTradeAvailable(LiquidityOf(c).value, SellEvents(p, c).value, p.TotalBuyNotional(), day) == CashOn(p, c, day)
  {
    hide SortedDays, Schedule, RelevantDates, Unsettled, SellEvents, SettlesOn;
    SettledByNow(c.settlementEvents, Today(c), day);
    UnsettledIsAfter(c.settlementEvents, Today(c));
    SellEventsSum(p, c, day);
    BuysAre(p.legs);
    SumEq<Obligation>(c.obligations, DueBy(day), OwedBy(day));
  }

  // ---- each check ----

  lemma ReserveIff(p: Proposal, c: PolicyContext)
    ensures ReserveHoldsOnLedgerDates(p, c)
       <==> SettledCash(c) >= 0.0 && Settleable(p, c) && forall day :: CashOn(p, c, day) >= RoundMoney(c.operatingReserve)
  {
    hide LiquidityOf, SellEvents, CashOn, PostTradeAvailable, SettledCash, LedgerDates;
    ReserveIsAlways(c);
    SettleableIff(p, c);
    if LiquidityOf(c).Ok? && SellEvents(p, c).Ok? {
      ReserveIs(c);
      ReserveHoldsEveryDay(p, c);
      forall day
        ensures PostTradeAvailable(LiquidityOf(c).value, SellEvents(p, c).value, p.TotalBuyNotional(), day) == CashOn(p, c, day)
      {
        AvailableIs(p, c, day);
      }
    }
  }

  lemma ReserveIs(c: PolicyContext)
    requires LiquidityOf(c).Ok?
    ensures var l := LiquidityOf(c).value;
            && l.operatingReserve == RoundMoney(c.operatingReserve) && l.obligations == c.obligations
            && l.settledCash == SettledCash(c) && l.investableCash == FreeCash(c)
            && l.fundingCeiling == if FreeCash(c) > 0.0 then FreeCash(c) else 0.0
  {
    hide SortedDays, Schedule, RelevantDates, Unsettled;
    UnsettledIsAfter(c.settlementEvents, DateOf(c.now));
  }

  lemma ReserveIsAlways(c: PolicyContext)
    ensures LiquidityOf(c).Ok? <==> SettledCash(c) >= 0.0
  {
    hide LiquidityOf, SettledCash, FreeCash;
    LiquidityIs(c);
  }

  lemma CeilingIff(p: Proposal, c: PolicyContext)
    ensures WithinFundingCeiling(p, c)
       <==> SettledCash(c) >= 0.0 && SumBy(p.legs, BuyCostOf()) <= if FreeCash(c) > 0.0 then FreeCash(c) else 0.0
  {
    hide LiquidityOf, SettledCash, FreeCash;
    ReserveIsAlways(c);
    BuysAre(p.legs);
    if LiquidityOf(c).Ok? {
      ReserveIs(c);
    }
  }

  lemma LeverageIff(p: Proposal, c: PolicyContext)
    ensures NoLeverage(p, c) <==> SettledCash(c) >= 0.0 && Priced(p, c) && SumBy(p.legs, BuyCostOf()) <= SettledCash(c)
  {
    hide LiquidityOf, SettledCash, FreeCash, PricesKnown, Priced;
    ReserveIsAlways(c);
    PricedIff(p, c);
    BuysAre(p.legs);
    if LiquidityOf(c).Ok? {
      ReserveIs(c);
    }
  }

  predicate AnySell(p: Proposal) {
    exists l <- p.legs :: l.side == Sell
  }

  lemma ObligationsIff(p: Proposal, c: PolicyContext)
    ensures ObligationsFunded(p, c)
       <==> (AnySell(p) ==> SettledCash(c) >= 0.0 && Settleable(p, c) && forall o <- c.obligations :: CashOn(p, c, o.dueDate) >= 0.0)
  {
    hide LiquidityOf, SellEvents, CashOn, PostTradeAvailable, SettledCash;
    ReserveIsAlways(c);
    SettleableIff(p, c);
    SellsIff(p);
    if LiquidityOf(c).Ok? && SellEvents(p, c).Ok? {
      ReserveIs(c);
      forall day
        ensures PostTradeAvailable(LiquidityOf(c).value, SellEvents(p, c).value, p.TotalBuyNotional(), day) == CashOn(p, c, day)
      {
        AvailableIs(p, c, day);
      }
    }
  }

  lemma SellsIff(p: Proposal)
    ensures p.HasSells() <==> AnySell(p)
  {
  }

  /** Nothing becomes short, and what is sold is free to be sold. */
  predicate StaysLong(p: Proposal, c: PolicyContext) {
    && (forall h <- c.positions :: Held(c.positions, h.symbol) + SumBy(p.legs, NetShares(h.symbol)) >= 0.0)
    && (forall l <- p.legs :: Held(c.positions, l.symbol) + SumBy(p.legs, NetShares(l.symbol)) >= 0.0)
    && SellsWhatIsFree(p, c)
  }

  lemma StaysLongIff(p: Proposal, c: PolicyContext)
    ensures LongOnly(p, c) <==> StaysLong(p, c)
  {
    hide SellAllowed, SellFits, Held;
    forall l <- p.legs | l.side == Sell ensures SellAllowed(p, c, l.symbol) <==> SellFits(p, c, l.symbol) {
      SellFitsIff(p, c, l);
    }
    forall s: Symbol
      ensures ProjectedQuantity(c.positions, p.legs, s) == Held(c.positions, s) + SumBy(p.legs, NetShares(s))
    {
      SoldIs(p.legs, s);
    }
    assert forall h <- c.positions :: h.symbol in SymbolsOf(c.positions, p.legs);
    assert forall l <- p.legs :: l.symbol in SymbolsOf(c.positions, p.legs);
  }

  /** The concentration rule with the knowledge that it needs. */
  ghost predicate ConcentrationKept(p: Proposal, c: PolicyContext) {
    SettledCash(c) >= 0.0 && Priced(p, c) && Diversified(p, c)
  }

  lemma ConcentrationIff(p: Proposal, c: PolicyContext)
    ensures ConcentrationAllowed(p, c) <==> ConcentrationKept(p, c)
  {
    hide LiquidityOf, SettledCash, Priced, Diversified, PricesKnown, Concentrations, PreTrade, Pool;
    ReserveIsAlways(c);
    PricedIff(p, c);
    if LiquidityOf(c).Ok? && PricesKnown(p, c) {
      hide ConcentrationAllowed;
      DiversifiedIff(p, c);
    }
  }

  /** Every check over the inputs. */
  lemma EachCheckIff(id: CheckId, p: Proposal, c: PolicyContext)
    ensures Passes(id, p, c) <==>
              match id
              case Check00 => !c.killSwitch
              case Check01 => PaysForBuys(p, c)
              case Check02 => SettledCash(c) >= 0.0 && Settleable(p, c) && forall day :: CashOn(p, c, day) >= RoundMoney(c.operatingReserve)
              case Check03 => forall l <- p.legs :: l.symbol in c.permitted
              case Check04 => ConcentrationKept(p, c)
              case Check05 => forall l <- p.legs :: l.symbol in c.tradable
              case Check06 => SettledCash(c) >= 0.0 && SumBy(p.legs, BuyCostOf()) <= if FreeCash(c) > 0.0 then FreeCash(c) else 0.0
              case Check08 => c.paperVerified
              case Check09 =>
                && (forall i, j | 0 <= i < j < |p.legs| :: p.legs[i].legIndex != p.legs[j].legIndex)
                && (forall l <- p.legs :: l.clientOrderId == Derived(p.proposalId, l.legIndex))
              case Check10 => OneSidedTrading(p, c)
              case Check11 => SettledCash(c) >= 0.0 && Priced(p, c) && SumBy(p.legs, BuyCostOf()) <= SettledCash(c)
              case Check12 => AnySell(p) ==> SettledCash(c) >= 0.0 && Settleable(p, c) && forall o <- c.obligations :: CashOn(p, c, o.dueDate) >= 0.0
              case Check13 => HourlyCountFits(p, c)
              case Check14 => forall l <- p.legs :: c.minTradeNotional <= BudgetOf(l.quantity, l.referencePrice)
              case Check15 => c.sessionOpen
              case Check16 => StaysLong(p, c)
  {
    hide CashFundsBuys, PaysForBuys, ReserveHoldsOnLedgerDates, SettledCash, Settleable, CashOn, ConcentrationKept, ConcentrationAllowed,
         WithinFundingCeiling, FreeCash, OneSidedTrading, NoOpposingSides, NoLeverage, Priced, ObligationsFunded, AnySell,
         WithinRunawayLimit, HourlyCountFits, LongOnly, StaysLong, SumBy, BudgetOf, RoundMoney;
    match id
    case Check01 => PaysIff(p, c);
    case Check02 => ReserveIff(p, c);
    case Check04 => ConcentrationIff(p, c);
    case Check06 => CeilingIff(p, c);
    case Check10 => OneSidedIff(p, c);
    case Check11 => LeverageIff(p, c);
    case Check12 => ObligationsIff(p, c);
    case Check13 => HourlyIff(p, c);
    case Check14 => NotionalIs(p);
    case Check16 => StaysLongIff(p, c);
    case _ =>
  }

  lemma NotionalIs(p: Proposal)
    ensures forall l <- p.legs :: Notional(l) == BudgetOf(l.quantity, l.referencePrice)
  {
  }

  // ---- each fill ----

  predicate SellsAt(l: Leg, index: int) {
    l.side == Sell && l.legIndex == index
  }

  /** The dictionary of sell events keeps the last sell leg of an index. */
  lemma {:induction false} EventAmountIs(legs: seq<Leg>, index: int, k: nat)
    requires k < |legs| && SellsAt(legs[k], index) && forall j | k < j < |legs| :: !SellsAt(legs[j], index)
    ensures EventAmountAt(legs, index) == BudgetOf(legs[k].quantity, legs[k].referencePrice)
  {
    hide BudgetOf;
    if k < |legs| - 1 {
      var before := legs[..|legs| - 1];
      assert !SellsAt(legs[|legs| - 1], index);
      assert forall j | k < j < |before| :: before[j] == legs[j];
      EventAmountIs(before, index, k);
    } else {
      SellNotional(legs[k]);
    }
  }

  lemma SellNotional(l: Leg)
    ensures Notional(l) == BudgetOf(l.quantity, l.referencePrice)
  {
  }

  /** It has nothing for an index that no leg sells. */
  lemma {:induction false} NoEventAmount(legs: seq<Leg>, index: int)
    requires forall l <- legs :: !SellsAt(l, index)
    ensures EventAmountAt(legs, index) == 0.0
  {
    if legs != [] {
      assert legs[|legs| - 1] in legs;
      NoEventAmount(legs[..|legs| - 1], index);
    }
  }

  function FilledProceedsOf(p: Proposal): Leg -> real {
    (l: Leg) => EventAmountAt(p.legs, l.legIndex)
  }

  /** Cash on a day when all buys but only some sells fill. */
  function CashWithFills(p: Proposal, c: PolicyContext, fills: seq<Leg>, day: Day): real {
    var settled := if day < Today(c) then Today(c) else day;
    c.cash - SumBy(c.settlementEvents, SettlesAfter(settled)) - SumBy(p.legs, BuyCostOf())
    + (if SettlesOn(c).Ok? && SettlesOn(c).value <= day then SumBy(fills, FilledProceedsOf(p)) else 0.0)
    - SumBy(c.obligations, OwedBy(day))
  }

  lemma WithFillsIs(p: Proposal, c: PolicyContext, fills: seq<Leg>, day: Day)
    requires CoverageDerivable(p, c)
    ensures AvailableWithFills(p, c, fills, day) == CashWithFills(p, c, fills, day)
  {
    hide SortedDays, Schedule, RelevantDates, Unsettled, AddSessions, EventAmountAt;
    SettledByNow(c.settlementEvents, Today(c), day);
    UnsettledIsAfter(c.settlementEvents, Today(c));
    BuysAre(p.legs);
    SumEq<Obligation>(c.obligations, DueBy(day), OwedBy(day));
    var settlement := SettlesOn(c).value;
    if settlement <= day {
      SumEq<Leg>(fills, ProceedsBy(p, settlement, day), FilledProceedsOf(p));
    } else {
      SumZero<Leg>(fills, ProceedsBy(p, settlement, day));
    }
  }

  /** Every obligation is met on its due date. */
  predicate MeetsObligations(p: Proposal, c: PolicyContext, fills: seq<Leg>) {
    forall o <- c.obligations :: CashWithFills(p, c, fills, o.dueDate) >= 0.0
  }

  lemma MeetsIff(p: Proposal, c: PolicyContext, fills: seq<Leg>)
    requires CoverageDerivable(p, c)
    ensures Covers(p, c, fills) <==> MeetsObligations(p, c, fills)
  {
    hide AvailableWithFills, CashWithFills, LiquidityOf, SettlementDate;
    ReserveIs(c);
    forall o <- c.obligations ensures AvailableWithFills(p, c, fills, o.dueDate) == CashWithFills(p, c, fills, o.dueDate) {
      WithFillsIs(p, c, fills, o.dueDate);
    }
  }

  lemma {:induction false} SellLegsAre(legs: seq<Leg>)
    ensures forall l :: l in SellLegs(legs) <==> l in legs && l.side == Sell
    ensures forall f: Leg -> real | (forall l: Leg :: l.side != Sell ==> f(l) == 0.0) :: SumBy(SellLegs(legs), f) == SumBy(legs, f)
  {
    if legs != [] {
      SellLegsAre(legs[1..]);
      var rest := SellLegs(legs[1..]);
      assert legs[0].side.Sell? ==> SellLegs(legs) == [legs[0]] + rest && ([legs[0]] + rest)[1..] == rest;
      assert !legs[0].side.Sell? ==> SellLegs(legs) == rest;
    }
  }

  /** A fill, as if it were the whole proposal. */
  ghost predicate FillAcceptable(f: Proposal, c: PolicyContext) {
    !c.killSwitch && PaysForBuys(f, c) && Settleable(f, c) && ConcentrationKept(f, c) && StaysLong(f, c)
  }

  /** The two questions that are put to a fill. */
  lemma FillSafeIff(p: Proposal, c: PolicyContext, subset: seq<Leg>)
    requires p.HasSells() ==> CoverageDerivable(p, c)
    ensures SubsetSafe(p, c, subset)
       <==> FillAcceptable(Proposal(p.proposalId, subset), c) && (AnySell(p) ==> MeetsObligations(p, c, SellLegs(subset)))
  {
    hide Passes, CoverageDerivable, Covers, MeetsObligations, FillAcceptable, SellLegs;
    SellsIff(p);
    if p.HasSells() {
      MeetsIff(p, c, SellLegs(subset));
    }
    FillChecksIff(FillOf(p, subset), c);
    assert FillOf(p, subset) == Proposal(p.proposalId, subset);
  }

  /** Safe means: every fill of some legs is acceptable and covered, and so are no fills at all. */
  lemma AssessmentIff(p: Proposal, c: PolicyContext)
    requires p.HasSells() ==> CoverageDerivable(p, c)
    ensures EverySubsetSafe(p, c)
       <==> && (forall s: seq<Leg> | s != [] && IsSubsequence(s, p.legs) ::
                  FillAcceptable(Proposal(p.proposalId, s), c) && (AnySell(p) ==> MeetsObligations(p, c, SellLegs(s))))
            && (AnySell(p) ==> MeetsObligations(p, c, []))
  {
    hide CoverageDerivable, Covers, MeetsObligations, FillAcceptable, SellLegs, IsSubsequence, SubsetSafe, AnySell;
    SellsIff(p);
    if p.HasSells() {
      MeetsIff(p, c, []);
    }
    forall s: seq<Leg>
      ensures SubsetSafe(p, c, s)
         <==> FillAcceptable(Proposal(p.proposalId, s), c) && (AnySell(p) ==> MeetsObligations(p, c, SellLegs(s)))
    {
      FillSafeIff(p, c, s);
    }
  }

  lemma FillChecksIff(f: Proposal, c: PolicyContext)
    ensures Evaluate(f, c, PARTIAL_FILL_CHECKS) == {} <==> FillAcceptable(f, c)
  {
    hide PaysForBuys, SettledCash, Settleable, CashOn, Diversified, FreeCash, StaysLong, SumBy, RoundMoney, Priced, Passes;
    if !c.killSwitch {
      EvaluateMeans(f, c, PARTIAL_FILL_CHECKS);
      EachCheckIff(Check01, f, c);
      EachCheckIff(Check02, f, c);
      EachCheckIff(Check04, f, c);
      EachCheckIff(Check06, f, c);
      EachCheckIff(Check11, f, c);
      EachCheckIff(Check16, f, c);
      if FillAcceptable(f, c) {
        FillDominates(f, c);
      }
    }
  }

  /** CHECK-01 decides the other cash checks of a fill. */
  lemma FillDominates(f: Proposal, c: PolicyContext)
    requires PaysForBuys(f, c) && Settleable(f, c) && Priced(f, c)
    ensures Passes(Check02, f, c) && Passes(Check06, f, c) && Passes(Check11, f, c)
  {
    hide PaysForBuys, Settleable, Priced, CashFundsBuys, SellEvents, ReserveHoldsOnLedgerDates, WithinFundingCeiling, NoLeverage,
         PricesKnown, ObligationsFunded;
    PaysIff(f, c);
    SettleableIff(f, c);
    PricedIff(f, c);
    CashCheckDominates(f, c);
  }

  // ---- the pool ----

  /** The pool needs a price for every permitted holding, and then totals them beside free cash. */
  lemma PoolIff(c: PolicyContext)
    ensures Pool(c).Ok? <==> SettledCash(c) >= 0.0 && forall h <- c.positions | h.symbol in c.permitted :: h.symbol in c.prices
    ensures Pool(c).Ok? ==> Pool(c).value == PoolOf(c)
  {
    hide LiquidityOf, FreeCash, SettledCash, Rounded, GrossValue;
    ReserveIsAlways(c);
    if LiquidityOf(c).Ok? {
      ReserveIs(c);
      forall h <- c.positions ensures HoldingValueOf(c.prices, c.permitted)(h) == PermittedWorth(c)(h) {
        HoldingIs(c, h);
      }
      SumEq<Position>(c.positions, HoldingValueOf(c.prices, c.permitted), PermittedWorth(c));
    }
  }

  // ---- the projections ----

  function OwedOf(): Obligation -> real {
    (o: Obligation) => o.amount
  }

  lemma {:induction false} UnsettledAre(events: seq<SettlementEvent>, asOf: Day, e: SettlementEvent)
    ensures e in Unsettled(events, asOf) <==> e in events && asOf < e.settlementDate
  {
    if events != [] {
      UnsettledAre(events[1..], asOf, e);
      assert e in events <==> e == events[0] || e in events[1..];
    }
  }

  /** Cash must cover the proceeds still to settle; what is left pays for reserve and obligations. */
  lemma ComputedLiquidityIs(cash: real, obligations: seq<Obligation>, events: seq<SettlementEvent>, reserve: real, asOf: Day)
    ensures var r := ComputeLiquidity(cash, obligations, events, reserve, asOf);
            var settled := cash - SumBy(events, SettlesAfter(asOf));
            var free := settled - RoundMoney(reserve) - SumBy(obligations, OwedOf());
            && (r.Ok? <==> settled >= 0.0)
            && (r.Ok? ==>
                  && r.value.asOf == asOf && r.value.settledCash == settled && r.value.operatingReserve == RoundMoney(reserve)
                  && r.value.obligations == obligations && r.value.obligationsTotal == SumBy(obligations, OwedOf())
                  && r.value.investableCash == free && r.value.fundingCeiling == if free > 0.0 then free else 0.0)
  {
    hide SortedDays, Schedule, RelevantDates, Unsettled, RoundMoney;
    UnsettledIsAfter(events, asOf);
    SumEq<Obligation>(obligations, ObligationAmount(), OwedOf());
  }

  /** The schedule has a row for today, each due date and each settlement still to come. */
  lemma ScheduledDatesAre(cash: real, obligations: seq<Obligation>, events: seq<SettlementEvent>, reserve: real, asOf: Day, day: Day)
    requires ComputeLiquidity(cash, obligations, events, reserve, asOf).Ok?
    ensures var rows := ComputeLiquidity(cash, obligations, events, reserve, asOf).value.schedule;
            (exists row <- rows :: row.onDate == day)
            <==> || day == asOf || (exists o <- obligations :: o.dueDate == day)
                 || (asOf < day && exists e <- events :: e.settlementDate == day)
  {
    hide SortedDays, Schedule, RelevantDates, Unsettled, RoundMoney;
    ScheduleDates(cash, obligations, events, reserve, asOf);
    RelevantIff(asOf, obligations, events, day);
    assert ComputeLiquidity(cash, obligations, events, reserve, asOf).value.unsettled == Unsettled(events, asOf);
  }

  lemma RelevantIff(asOf: Day, obligations: seq<Obligation>, events: seq<SettlementEvent>, day: Day)
    ensures day in RelevantDates(asOf, obligations, Unsettled(events, asOf))
       <==> || day == asOf || (exists o <- obligations :: o.dueDate == day)
            || (asOf < day && exists e <- events :: e.settlementDate == day)
  {
    hide Unsettled;
    forall e: SettlementEvent { UnsettledAre(events, asOf, e); }
  }

  /** Each row of it: cash settled by then less what is due by then, and that beside the reserve. */
  lemma ScheduledRowsAre(cash: real, obligations: seq<Obligation>, events: seq<SettlementEvent>, reserve: real, asOf: Day)
    requires ComputeLiquidity(cash, obligations, events, reserve, asOf).Ok?
    ensures forall row <- ComputeLiquidity(cash, obligations, events, reserve, asOf).value.schedule ::
              && row.obligationsDue == SumBy(obligations, OwedBy(row.onDate))
              && row.available == cash - SumBy(events, SettlesAfter(if row.onDate < asOf then asOf else row.onDate)) - row.obligationsDue
              && row.headroom == row.available - RoundMoney(reserve)
              && row.available == cash - SumBy(events, SettlesAfter(asOf)) + row.proceedsSettled - row.obligationsDue
  {
    hide RoundMoney, SortedDays, RelevantDates, Unsettled;
    var l := ComputeLiquidity(cash, obligations, events, reserve, asOf).value;
    UnsettledIsAfter(events, asOf);
    forall row <- l.schedule
      ensures row == ScheduleRow(l.settledCash, RoundMoney(reserve), obligations, l.unsettled, row.onDate)
      ensures row.obligationsDue == SumBy(obligations, OwedBy(row.onDate))
      ensures l.settledCash + row.proceedsSettled == cash - SumBy(events, SettlesAfter(if row.onDate < asOf then asOf else row.onDate))
    {
      SettledByNow(events, asOf, row.onDate);
      SumEq<Obligation>(obligations, DueBy(row.onDate), OwedBy(row.onDate));
    }
  }

  /** A fraction is reported for each permitted symbol that is worth something, of a pool that is. */
  lemma FractionsAre(positions: seq<Position>, legs: seq<Leg>, prices: Prices, pool: real, permitted: set<Symbol>, s: Symbol)
    requires SymbolsOf(positions, legs) <= prices.Keys
    ensures var fractions := Concentrations(positions, legs, prices, pool, permitted);
            var shares := Held(positions, s) + SumBy(legs, NetShares(s));
            && (s in fractions <==> && ((exists h <- positions :: h.symbol == s) || (exists l <- legs :: l.symbol == s))
                                    && s in permitted && pool > 0.0 && shares > 0.0 && Rounded(shares, prices[s]) > 0.0)
            && (s in fractions ==> fractions[s] == Rounded(shares, prices[s]) / pool)
  {
    hide Rounded, MarketValue, SumBy;
    SoldIs(legs, s);
    if s in prices {
      MarketIs(ProjectedQuantity(positions, legs, s), prices[s]);
    }
  }

  /** The total is over what is worth something, permitted or not. */
  lemma ProjectedIs(positions: seq<Position>, legs: seq<Leg>, prices: Prices, s: Symbol)
    ensures ProjectedValueOf(positions, legs, prices)(s)
         == (var shares := Held(positions, s) + SumBy(legs, NetShares(s));
             if s in prices && shares > 0.0 then Rounded(shares, prices[s]) else 0.0)
  {
    hide Rounded, MarketValue, SumBy;
    SoldIs(legs, s);
    if s in prices {
      MarketIs(ProjectedQuantity(positions, legs, s), prices[s]);
    }
  }
}
