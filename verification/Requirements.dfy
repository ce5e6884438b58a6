/** What TreasuryGuard, fill safety and delegated authority ask of a proposal, written over
    the inputs alone: cash and share ledgers, policy limits, history rows. The sixteen checks,
    the subset loop and the authority dimensions together ask for exactly this. */
module Requirements {
  import opened Authority
  import opened Calendar
  import opened Compare
  import opened Decision
  import opened Domain
  import opened FillSafety
  import opened Guard
  import opened Liquidity
  import opened Money
  import opened PartialFill
  import opened Results
  import opened Sums
  import opened Tables
  import opened Unresolved

  // ---- sums over the inputs ----

  function CostOf(): Leg -> real {
    (l: Leg) => BudgetOf(l.quantity, l.referencePrice)
  }

  function BuyCostOf(): Leg -> real {
    (l: Leg) => if l.side == Buy then BudgetOf(l.quantity, l.referencePrice) else 0.0
  }

  /** Shares that the legs bring into a symbol, and shares that they sell of it. */
  function NetShares(s: Symbol): Leg -> real {
    (l: Leg) => if l.symbol != s then 0.0 else if l.side == Buy then l.quantity else 0.0 - l.quantity
  }

  function SoldShares(s: Symbol): Leg -> real {
    (l: Leg) => if l.symbol == s && l.side == Sell then l.quantity else 0.0
  }

  function SettlesAfter(day: Day): SettlementEvent -> real {
    (e: SettlementEvent) => if day < e.settlementDate then e.amount else 0.0
  }

  function RowAfter(instant: Instant): AutonomousExecution -> real {
    (e: AutonomousExecution) => if instant < e.timestamp then 1.0 else 0.0
  }

  function NotionalAfter(instant: Instant): AutonomousExecution -> real {
    (e: AutonomousExecution) => if instant < e.timestamp then e.notional else 0.0
  }

  const CLOSED := {OrderState.Filled, OrderState.Rejected, OrderState.Expired, OrderState.Canceled,
                   OrderState.CanceledRemainder, OrderState.Reconciled, OrderState.Failed}

  predicate OpenSell(o: UnresolvedOrder, s: Symbol) {
    o.symbol == s && o.side == Sell && o.state !in CLOSED
  }

  /** Shares of a symbol that unresolved sells of known size still claim. */
  function ClaimedShares(s: Symbol): UnresolvedOrder -> real {
    (o: UnresolvedOrder) =>
      if OpenSell(o, s) && o.quantity.Some? then o.quantity.value - (if o.filled.Some? then o.filled.value else 0.0) else 0.0
  }

  // ---- cash ----

  function SettledCash(c: PolicyContext): real {
    c.cash - SumBy(c.settlementEvents, SettlesAfter(c.now / 86_400_000_000))
  }

  function FreeCash(c: PolicyContext): real {
    SettledCash(c) - RoundMoney(c.operatingReserve) - SumBy(c.obligations, ObligationAmount())
  }

  /** Settled cash pays for the buys beside the reserve and every obligation. */
  predicate PaysForBuys(p: Proposal, c: PolicyContext) {
    SettledCash(c) >= 0.0 && SumBy(p.legs, BuyCostOf()) <= FreeCash(c)
  }

  lemma {:induction false} UnsettledIsAfter(events: seq<SettlementEvent>, day: Day)
    ensures SumBy(Unsettled(events, day), EventAmount()) == SumBy(events, SettlesAfter(day))
  {
    UnsettledSum(events, day);
    SumEq<SettlementEvent>(events, LaterAmount(day), SettlesAfter(day));
  }

  lemma BuysAre(legs: seq<Leg>)
    ensures SumBy(legs, BuyNotionalOf()) == SumBy(legs, BuyCostOf())
  {
    SumEq<Leg>(legs, BuyNotionalOf(), BuyCostOf());
  }

  lemma LiquidityIs(c: PolicyContext)
    ensures LiquidityOf(c).Ok? <==> SettledCash(c) >= 0.0
    ensures LiquidityOf(c).Ok? ==> LiquidityOf(c).value.investableCash == FreeCash(c)
  {
    hide SortedDays, Schedule, RelevantDates, Unsettled;
    UnsettledIsAfter(c.settlementEvents, DateOf(c.now));
  }

  lemma PaysIff(p: Proposal, c: PolicyContext)
    ensures CashFundsBuys(p, c) <==> PaysForBuys(p, c)
  {
    hide LiquidityOf, FreeCash, SettledCash;
    LiquidityIs(c);
    BuysAre(p.legs);
  }

  // ---- prices and settlement ----

  predicate Priced(p: Proposal, c: PolicyContext) {
    (forall q <- c.positions :: q.symbol in c.prices) && (forall l <- p.legs :: l.symbol in c.prices)
  }

  lemma PricedIff(p: Proposal, c: PolicyContext)
    ensures PricesKnown(p, c) <==> Priced(p, c)
  {
    assert forall q <- c.positions :: q.symbol in SymbolsOf(c.positions, p.legs);
    assert forall l <- p.legs :: l.symbol in SymbolsOf(c.positions, p.legs);
  }

  predicate Settleable(p: Proposal, c: PolicyContext) {
    (exists l <- p.legs :: l.side == Sell) ==> SettlementOn(c.calendar, c.now / 86_400_000_000, 1).Ok?
  }

  lemma SettleableIff(p: Proposal, c: PolicyContext)
    ensures SellEvents(p, c).Ok? <==> Settleable(p, c)
  {
    hide AddSessions;
    if forall l <- p.legs :: !l.side.Sell? {
      assert forall l <- p.legs :: l.side != Sell;
    } else {
      assert exists l <- p.legs :: l.side == Sell;
    }
  }

  // ---- shares ----

  /** A symbol is held, its open sells are all sized, and what is sold of it fits both what is
      available and what is left beside them. */
  predicate SellFits(p: Proposal, c: PolicyContext, s: Symbol) {
    && (forall o <- c.unresolved | OpenSell(o, s) :: o.quantity.Some?)
    && exists h <- c.positions ::
         && h.symbol == s && SumBy(p.legs, SoldShares(s)) <= h.available
         && SumBy(p.legs, SoldShares(s)) + SumBy(c.unresolved, ClaimedShares(s)) <= h.quantity
  }

  predicate SellsWhatIsFree(p: Proposal, c: PolicyContext) {
    forall l <- p.legs | l.side == Sell :: SellFits(p, c, l.symbol)
  }

  lemma ClosedStates(s: OrderState)
    ensures s.IsUnresolved() <==> s !in CLOSED
  {
  }

  lemma ClaimsAre(orders: seq<UnresolvedOrder>, s: Symbol)
    ensures Reserved(orders, s) == SumBy(orders, ClaimedShares(s))
    ensures Undeterminable(orders, s) <==> exists o <- orders :: OpenSell(o, s) && o.quantity.None?
  {
    forall o <- orders
      ensures ReservedOf(s)(o) == ClaimedShares(s)(o)
      ensures BlocksSells(o, s) <==> OpenSell(o, s) && o.quantity.None?
    {
      ClosedStates(o.state);
    }
    SumEq<UnresolvedOrder>(orders, ReservedOf(s), ClaimedShares(s));
  }

  lemma SoldIs(legs: seq<Leg>, s: Symbol)
    ensures SumBy(legs, SellQuantityOf(s)) == SumBy(legs, SoldShares(s))
    ensures SumBy(legs, SignedQuantityOf(s)) == SumBy(legs, NetShares(s))
  {
    SumEq<Leg>(legs, SellQuantityOf(s), SoldShares(s));
    SumEq<Leg>(legs, SignedQuantityOf(s), NetShares(s));
  }

  lemma PositionIsOne(positions: seq<Position>, h: Position)
    requires DistinctSymbols(positions) && h in positions
    ensures PositionOf(positions, h.symbol) == Some(h)
  {
    var q := PositionOf(positions, h.symbol);
    if q.Some? {
      var i :| 0 <= i < |positions| && positions[i] == h;
      var j :| 0 <= j < |positions| && positions[j] == q.value;
    }
  }

  lemma SoldPositive(p: Proposal, l: Leg)
    requires l in p.legs && l.side == Sell
    ensures SumBy(p.legs, SoldShares(l.symbol)) >= l.quantity > 0.0
  {
    var i :| 0 <= i < |p.legs| && p.legs[i] == l;
    TermLeSum(p.legs, i, SoldShares(l.symbol));
  }

  lemma SellFitsIff(p: Proposal, c: PolicyContext, l: Leg)
    requires l in p.legs && l.side == Sell
    ensures SellAllowed(p, c, l.symbol) <==> SellFits(p, c, l.symbol)
  {
    hide Reserved, Undeterminable, OpenSell;
    ClaimsAre(c.unresolved, l.symbol);
    SoldIs(p.legs, l.symbol);
    SoldPositive(p, l);
    var h := PositionOf(c.positions, l.symbol);
    forall q <- c.positions | q.symbol == l.symbol ensures h == Some(q) {
      PositionIsOne(c.positions, q);
    }
  }

  /** No projected short is left to test once the sells fit and the sides do not oppose. */
  lemma FittingSellsStayLong(p: Proposal, c: PolicyContext, s: Symbol)
    requires NoOpposingSides(p, c) && forall l <- p.legs | l.side == Sell :: SellAllowed(p, c, l.symbol)
    ensures ProjectedQuantity(c.positions, p.legs, s) >= 0.0
  {
    hide Undeterminable;
    OneSided(p, c, s);
    SignedIsBoughtMinusSold(p.legs, s);
    SumNonNegative(p.legs, BuyQuantityOf(s));
    if l :| l in p.legs && l.side == Sell && l.symbol == s {
      assert SellAllowed(p, c, s);
    } else {
      SumZero(p.legs, SellQuantityOf(s));
    }
  }

  lemma SellsFreeIff(p: Proposal, c: PolicyContext)
    requires NoOpposingSides(p, c)
    ensures LongOnly(p, c) <==> SellsWhatIsFree(p, c)
  {
    hide NoOpposingSides, SellAllowed, ProjectedQuantity, OpenSell;
    forall l <- p.legs | l.side == Sell ensures SellAllowed(p, c, l.symbol) <==> SellFits(p, c, l.symbol) {
      SellFitsIff(p, c, l);
    }
    if forall l <- p.legs | l.side == Sell :: SellAllowed(p, c, l.symbol) {
      forall s ensures ProjectedQuantity(c.positions, p.legs, s) >= 0.0 {
        FittingSellsStayLong(p, c, s);
      }
    }
  }

  // ---- identity, sides, sizes ----

  predicate WellFormed(p: Proposal, c: PolicyContext) {
    && (forall l <- p.legs ::
          && l.symbol in c.permitted && l.symbol in c.tradable && c.minTradeNotional <= BudgetOf(l.quantity, l.referencePrice)
          && l.clientOrderId == Derived(p.proposalId, l.legIndex))
    && (forall i, j | 0 <= i < j < |p.legs| :: p.legs[i].legIndex != p.legs[j].legIndex)
  }

  predicate OneSidedTrading(p: Proposal, c: PolicyContext) {
    && (forall l <- p.legs, m <- p.legs | l.symbol == m.symbol :: l.side == m.side)
    && (forall l <- p.legs, o <- c.unresolved | o.symbol == l.symbol && o.side != l.side :: o.state in CLOSED)
  }

  lemma WellFormedIff(p: Proposal, c: PolicyContext)
    ensures Whitelisted(p, c) && AssetsTradable(p, c) && DeterministicIdentity(p) && NoDust(p, c) <==> WellFormed(p, c)
  {
  }

  lemma OneSidedIff(p: Proposal, c: PolicyContext)
    ensures NoOpposingSides(p, c) <==> OneSidedTrading(p, c)
  {
    forall o <- c.unresolved ensures o.state.IsUnresolved() <==> o.state !in CLOSED {
      ClosedStates(o.state);
    }
  }

  // ---- windows ----

  lemma {:induction false} CountIsRows(history: seq<AutonomousExecution>, now: Instant, window: int)
    ensures RollingCount(history, now, window) as real == SumBy(history, RowAfter(now - window))
  {
    if history != [] {
      CountIsRows(history[1..], now, window);
    }
  }

  lemma WindowNotionalIs(history: seq<AutonomousExecution>, now: Instant)
    ensures RollingNotional(history, now) == SumBy(history, NotionalAfter(now - 86_400_000_000))
  {
    SumEq<AutonomousExecution>(history, NotionalInWindow(now, MICROS_PER_DAY), NotionalAfter(now - 86_400_000_000));
  }

  predicate HourlyCountFits(p: Proposal, c: PolicyContext) {
    SumBy(c.history, RowAfter(c.now - 3_600_000_000)) + |p.legs| as real <= c.authority.runawayHourlyMax as real
  }

  lemma HourlyIff(p: Proposal, c: PolicyContext)
    ensures WithinRunawayLimit(p, c.authority, c.history, c.now) <==> HourlyCountFits(p, c)
  {
    CountIsRows(c.history, c.now, MICROS_PER_HOUR);
  }

  /** Everything that makes a passing proposal automatic. */
  predicate Delegated(p: Proposal, c: PolicyContext) {
    var total := SumBy(p.legs, CostOf());
    && (forall l <- p.legs :: BudgetOf(l.quantity, l.referencePrice) <= c.authority.perOrderMax)
    && total <= c.authority.perProposalMax
    && SumBy(c.history, NotionalAfter(c.now - 86_400_000_000)) + total <= c.authority.rollingNotionalMax
    && SumBy(c.history, RowAfter(c.now - 86_400_000_000)) + |p.legs| as real <= c.authority.rollingCountMax as real
  }

  lemma AggregateIs(p: Proposal)
    ensures AggregateNotional(p) == SumBy(p.legs, CostOf())
  {
    SumPlus<Leg>(p.legs, BuyNotionalOf(), SellNotionalOf(), CostOf());
  }

  lemma DelegatedIff(p: Proposal, c: PolicyContext)
    ensures WithinAuthority(p, c.authority, c.history, c.now) <==> Delegated(p, c)
  {
    hide RollingNotional, RollingCount, AggregateNotional;
    AggregateIs(p);
    WindowNotionalIs(c.history, c.now);
    CountIsRows(c.history, c.now, MICROS_PER_DAY);
  }

  // ---- concentration ----

  function Rounded(quantity: real, price: real): real {
    RoundMoney(quantity * price)
  }

  function WorthOf(c: PolicyContext, s: Symbol, quantity: real): real {
    if s in c.prices && quantity > 0.0 then Rounded(quantity, c.prices[s]) else 0.0
  }

  function WorthBefore(c: PolicyContext, s: Symbol): real {
    WorthOf(c, s, Held(c.positions, s))
  }

  function WorthAfter(c: PolicyContext, legs: seq<Leg>, s: Symbol): real {
    WorthOf(c, s, Held(c.positions, s) + SumBy(legs, NetShares(s)))
  }

  function PermittedWorth(c: PolicyContext): Position -> real {
    (h: Position) => if h.symbol in c.permitted && h.symbol in c.prices then Rounded(h.quantity, c.prices[h.symbol]) else 0.0
  }

  /** Permitted holdings at market value plus what cash may still buy. */
  function PoolOf(c: PolicyContext): real {
    SumBy(c.positions, PermittedWorth(c)) + if FreeCash(c) > 0.0 then FreeCash(c) else 0.0
  }

  predicate TooMuchBefore(c: PolicyContext, s: Symbol) {
    s in c.permitted && WorthBefore(c, s) > c.concentrationMax * PoolOf(c)
  }

  predicate TooMuchAfter(c: PolicyContext, legs: seq<Leg>, s: Symbol) {
    s in c.permitted && WorthAfter(c, legs, s) > c.concentrationMax * PoolOf(c)
  }

  /** Nothing is too concentrated afterwards; or something was, all of it shrinks, and nothing
      else becomes so. Without a pool nothing may be held. */
  ghost predicate Diversified(p: Proposal, c: PolicyContext) {
    if PoolOf(c) <= 0.0 then forall s :: WorthAfter(c, p.legs, s) <= 0.0
    else
      || (forall s :: !TooMuchAfter(c, p.legs, s))
      || (&& (exists s :: TooMuchBefore(c, s))
          && (forall s | TooMuchBefore(c, s) :: WorthAfter(c, p.legs, s) < WorthBefore(c, s))
          && (forall s | TooMuchAfter(c, p.legs, s) :: TooMuchBefore(c, s)))
  }

  /** At most one holding is too concentrated, and then every leg alone sells it down. */
  ghost predicate AnyFillIsSafe(p: Proposal, c: PolicyContext) {
    || PoolOf(c) <= 0.0 || (forall s :: !TooMuchBefore(c, s))
    || exists s ::
         && TooMuchBefore(c, s) && (forall other | TooMuchBefore(c, other) :: other == s)
         && forall l <- p.legs :: l.side == Sell && l.symbol == s && WorthOf(c, s, Held(c.positions, s) - l.quantity) < WorthBefore(c, s)
  }

  lemma WorthIs(c: PolicyContext, legs: seq<Leg>, s: Symbol)
    ensures ValueAfter(c, legs, s) == WorthAfter(c, legs, s) && ValueAfter(c, [], s) == WorthBefore(c, s)
  {
    hide Rounded, MarketValue, SumBy;
    SoldIs(legs, s);
    ValueBefore(c, s);
    if s in c.prices {
      MarketIs(Held(c.positions, s), c.prices[s]);
      MarketIs(ProjectedQuantity(c.positions, legs, s), c.prices[s]);
    }
  }

  lemma MarketIs(quantity: real, price: real)
    ensures GrossValue(quantity, price) == Rounded(quantity, price)
    ensures MarketValue(quantity, price) == if quantity > 0.0 then Rounded(quantity, price) else 0.0
  {
  }

  lemma HoldingIs(c: PolicyContext, h: Position)
    ensures HoldingValueOf(c.prices, c.permitted)(h) == PermittedWorth(c)(h)
  {
    hide GrossValue, Rounded;
    if h.symbol in c.prices {
      MarketIs(h.quantity, c.prices[h.symbol]);
    }
  }

  lemma PoolIs(c: PolicyContext)
    requires LiquidityOf(c).Ok? && forall h <- c.positions :: h.symbol in c.prices
    ensures Pool(c) == Ok(PoolOf(c))
  {
    hide LiquidityOf, FreeCash, RoundMoney;
    LiquidityIs(c);
    forall h <- c.positions ensures HoldingValueOf(c.prices, c.permitted)(h) == PermittedWorth(c)(h) {
      HoldingIs(c, h);
    }
    SumEq<Position>(c.positions, HoldingValueOf(c.prices, c.permitted), PermittedWorth(c));
  }

  lemma UntouchedIsWorthless(c: PolicyContext, legs: seq<Leg>, s: Symbol)
    requires s !in SymbolsOf(c.positions, legs)
    ensures WorthAfter(c, legs, s) == 0.0
  {
    UnheldIsWorthless(c, legs, s);
    WorthIs(c, legs, s);
  }

  lemma DiversifiedIff(p: Proposal, c: PolicyContext)
    requires LiquidityOf(c).Ok? && PricesKnown(p, c)
    ensures ConcentrationAllowed(p, c) <==> Diversified(p, c)
  {
    hide LiquidityOf, Pool, PoolOf, ValueAfter, WorthAfter, WorthBefore, ConcentrationAllowed, SymbolsOf;
    PricedIff(p, c);
    PoolIs(c);
    forall s ensures ValueAfter(c, p.legs, s) == WorthAfter(c, p.legs, s) && ValueAfter(c, [], s) == WorthBefore(c, s) {
      WorthIs(c, p.legs, s);
    }
    if PoolOf(c) > 0.0 {
      ConcentrationByValues(p, c);
      assert forall s :: OverAfter(c, PoolOf(c), p.legs, s) <==> TooMuchAfter(c, p.legs, s);
      assert forall s :: OverBefore(c, PoolOf(c), s) <==> TooMuchBefore(c, s);
    } else {
      EmptyPoolIff(p, c);
    }
  }

  lemma EmptyPoolIff(p: Proposal, c: PolicyContext)
    requires LiquidityOf(c).Ok? && PricesKnown(p, c) && Pool(c) == Ok(PoolOf(c)) && PoolOf(c) <= 0.0
    ensures ConcentrationAllowed(p, c) <==> forall s :: WorthAfter(c, p.legs, s) <= 0.0
  {
    hide LiquidityOf, Pool, PoolOf, ValueAfter, WorthAfter, SymbolsOf;
    forall s
      ensures ValueAfter(c, p.legs, s) == WorthAfter(c, p.legs, s)
      ensures s !in SymbolsOf(c.positions, p.legs) ==> WorthAfter(c, p.legs, s) == 0.0
    {
      WorthIs(c, p.legs, s);
      if s !in SymbolsOf(c.positions, p.legs) {
        UntouchedIsWorthless(c, p.legs, s);
      }
    }
  }

  lemma LoweringIs(c: PolicyContext, l: Leg, s: Symbol)
    ensures Lowers(c, l, s)
       <==> l.side == Sell && l.symbol == s && WorthOf(c, s, Held(c.positions, s) - l.quantity) < WorthBefore(c, s)
  {
    var one: seq<Leg> := [l];
    WorthIs(c, one, s);
    SumOne<Leg>(l, NetShares(s));
  }

  lemma AnyFillIff(p: Proposal, c: PolicyContext)
    requires Pool(c) == Ok(PoolOf(c))
    ensures LinearTest(p, c) <==> AnyFillIsSafe(p, c)
  {
    hide PoolOf, Pool, WorthBefore, WorthOf, Lowers, Over, PreTrade;
    if PoolOf(c) > 0.0 {
      OverIsOverBefore(c, PoolOf(c));
      var over := Over(PreTrade(c, PoolOf(c)), c.concentrationMax);
      forall s ensures s in over <==> TooMuchBefore(c, s) {
        TooMuchIs(c, s);
      }
      forall l <- p.legs, s
        ensures Lowers(c, l, s)
           <==> l.side == Sell && l.symbol == s && WorthOf(c, s, Held(c.positions, s) - l.quantity) < WorthBefore(c, s)
      {
        LoweringIs(c, l, s);
      }
    }
  }

  lemma TooMuchIs(c: PolicyContext, s: Symbol)
    requires PoolOf(c) > 0.0
    ensures OverBefore(c, PoolOf(c), s) <==> TooMuchBefore(c, s)
  {
    hide PoolOf, ValueAfter, WorthBefore, WorthAfter;
    WorthIs(c, [], s);
  }

  // ---- the three answers ----

  /** What the sixteen checks ask for, together. CHECK-02, 06, 11 and 12 add nothing to CHECK-01
      but that prices and settlement dates are known. */
  ghost predicate Acceptable(p: Proposal, c: PolicyContext) {
    && !c.killSwitch && c.paperVerified && c.sessionOpen
    && PaysForBuys(p, c) && Priced(p, c) && Settleable(p, c)
    && WellFormed(p, c) && OneSidedTrading(p, c) && HourlyCountFits(p, c)
    && SellsWhatIsFree(p, c) && Diversified(p, c)
  }

  lemma PassingIsAcceptable(p: Proposal, c: PolicyContext)
    requires BasePasses(p, c)
    ensures Acceptable(p, c)
  {
    hide BasePasses, LiquidityOf, Pool, Diversified, SellsWhatIsFree, OneSidedTrading, WellFormed, Settleable, Priced, PaysForBuys;
    PassesAll(p, c);
    PaysIff(p, c);
    PricedIff(p, c);
    SettleableIff(p, c);
    WellFormedIff(p, c);
    OneSidedIff(p, c);
    HourlyIff(p, c);
    SellsFreeIff(p, c);
    DiversifiedIff(p, c);
  }

  lemma PassesAll(p: Proposal, c: PolicyContext)
    requires BasePasses(p, c)
    ensures !c.killSwitch && c.paperVerified && c.sessionOpen && CashFundsBuys(p, c) && LiquidityOf(c).Ok? && SellEvents(p, c).Ok?
    ensures Whitelisted(p, c) && AssetsTradable(p, c) && DeterministicIdentity(p) && NoDust(p, c)
    ensures NoOpposingSides(p, c) && LongOnly(p, c) && ConcentrationAllowed(p, c) && PricesKnown(p, c)
    ensures WithinRunawayLimit(p, c.authority, c.history, c.now)
  {
    hide BasePasses, LiquidityOf, SellEvents, Pool, LongOnly, NoOpposingSides, DeterministicIdentity, NoDust, WithinRunawayLimit,
         CashFundsBuys, Whitelisted, AssetsTradable, ConcentrationAllowed, PricesKnown, WithinFundingCeiling, NoLeverage,
         ReserveHoldsOnLedgerDates, ObligationsFunded, CoverageDerivable;
    BaseDerivable(p, c);
    BaseMeans(p, c, Check00);
    BaseMeans(p, c, Check01);
    BaseMeans(p, c, Check03);
    BaseMeans(p, c, Check04);
    BaseMeans(p, c, Check05);
    BaseMeans(p, c, Check08);
    BaseMeans(p, c, Check09);
    BaseMeans(p, c, Check10);
    BaseMeans(p, c, Check13);
    BaseMeans(p, c, Check14);
    BaseMeans(p, c, Check15);
    BaseMeans(p, c, Check16);
  }

  lemma AcceptablePasses(p: Proposal, c: PolicyContext)
    requires Acceptable(p, c)
    ensures BasePasses(p, c)
  {
    hide Passes, LiquidityOf, Diversified, SellsWhatIsFree, OneSidedTrading, WellFormed, Settleable, Priced, PaysForBuys;
    forall id ensures Passes(id, p, c) {
      AcceptablePassesOne(p, c, id);
    }
    assert Evaluate(p, c, HARD_CHECKS) == {};
  }

  lemma AcceptablePassesOne(p: Proposal, c: PolicyContext, id: CheckId)
    requires Acceptable(p, c)
    ensures Passes(id, p, c)
  {
    hide Diversified, SellsWhatIsFree, OneSidedTrading, WellFormed, Settleable, Priced, PaysForBuys, LiquidityOf, SellEvents,
         NoOpposingSides, DeterministicIdentity, NoDust, WithinRunawayLimit, LongOnly, ConcentrationAllowed, WithinFundingCeiling,
         NoLeverage, ReserveHoldsOnLedgerDates, ObligationsFunded, PricesKnown, Whitelisted, AssetsTradable;
    PaysIff(p, c);
    PricedIff(p, c);
    SettleableIff(p, c);
    WellFormedIff(p, c);
    OneSidedIff(p, c);
    HourlyIff(p, c);
    SellsFreeIff(p, c);
    DiversifiedIff(p, c);
    CashCheckDominates(p, c);
  }

  /** The guard passes exactly the acceptable proposals. */
  lemma PassesIff(p: Proposal, c: PolicyContext)
    ensures BasePasses(p, c) <==> Acceptable(p, c)
  {
    hide BasePasses, Acceptable;
    if BasePasses(p, c) {
      PassingIsAcceptable(p, c);
    }
    if Acceptable(p, c) {
      AcceptablePasses(p, c);
    }
  }

  /** All three answers, over the inputs: rejected unless acceptable, of at most twelve legs and
      safe under any partial fill; automatic exactly if, besides, every leg, the proposal, the
      24-hour notional and the 24-hour count stay within their own limit. */
  lemma DecisionIff(p: Proposal, c: PolicyContext)
    ensures DecisionOf(p, c).Reject? <==> !(Acceptable(p, c) && |p.legs| <= 12 && AnyFillIsSafe(p, c))
    ensures DecisionOf(p, c).Auto? <==> Acceptable(p, c) && |p.legs| <= 12 && AnyFillIsSafe(p, c) && Delegated(p, c)
    ensures DecisionOf(p, c).NeedsApproval? <==> Acceptable(p, c) && |p.legs| <= 12 && AnyFillIsSafe(p, c) && !Delegated(p, c)
  {
    hide BasePasses, Acceptable, AnyFillIsSafe, Delegated, LinearTest, WithinAuthority, DecisionOf, Pool, PoolOf, LiquidityOf;
    PassesIff(p, c);
    DelegatedIff(p, c);
    DecisionIsLinear(p, c);
    if BasePasses(p, c) {
      PassesAll(p, c);
      PricedIff(p, c);
      PoolIs(c);
      AnyFillIff(p, c);
    }
    TwoAnswers(p, c);
  }

  /** A decision that does not reject is one of the other two. */
  lemma TwoAnswers(p: Proposal, c: PolicyContext)
    ensures !DecisionOf(p, c).Reject? <==> DecisionOf(p, c).Auto? || DecisionOf(p, c).NeedsApproval?
  {
  }
}
