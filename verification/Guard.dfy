/** TreasuryGuard (backend/opaca/policy/engine.py): the hard checks of one evaluation.
    Gates that are a single comparison with the outside world (paper environment, market
    session) arrive as booleans. */
module Guard {
  import opened Authority
  import opened Calendar
  import opened Domain
  import opened Liquidity
  import opened Money
  import opened Results
  import opened Sums
  import opened Unresolved

  datatype RawContext = PolicyContext(
    cash: real, positions: seq<Position>, obligations: seq<Obligation>,
    settlementEvents: seq<SettlementEvent>, tradable: set<Symbol>, prices: Prices,
    operatingReserve: real, permitted: set<Symbol>, concentrationMax: real, minTradeNotional: real,
    authority: AuthorityPolicy, killSwitch: bool, paperVerified: bool, sessionOpen: bool,
    now: Instant, unresolved: seq<UnresolvedOrder>, history: seq<AutonomousExecution>,
    calendar: TradingCalendar)

  type PolicyContext = c: RawContext |
    && c.cash >= 0.0 && c.operatingReserve >= 0.0 && c.minTradeNotional > 0.0
    && 0.0 <= c.concentrationMax <= 1.0 && DistinctSymbols(c.positions)
    witness RawContext.PolicyContext(0.0, [], [], [], {}, map[], 0.0, {}, 0.0, 1.0,
                                     AuthorityPolicy.AuthorityPolicy(1.0, 1.0, 1.0, 1, 1), false, false, false, 0, [], [], Static({}))

  datatype CheckId =
    | Check00 | Check01 | Check02 | Check03 | Check04 | Check05 | Check06 | Check08 | Check09
    | Check10 | Check11 | Check12 | Check13 | Check14 | Check15 | Check16

  /** Every check but CHECK-07, which is an authority input. */
  const HARD_CHECKS := {Check00, Check01, Check02, Check03, Check04, Check05, Check06, Check08,
                        Check09, Check10, Check11, Check12, Check13, Check14, Check15, Check16}

  // ---- the frame ----

  function LiquidityOf(c: PolicyContext): Result<LiquidityProjection> {
    ComputeLiquidity(c.cash, c.obligations, c.settlementEvents, c.operatingReserve, DateOf(c.now))
  }

  function SellEvents(p: Proposal, c: PolicyContext): Result<seq<SettlementEvent>> {
    SellSettlementEvents(p.legs, DateOf(c.now), c.calendar)
  }

  predicate PricesKnown(p: Proposal, c: PolicyContext) {
    SymbolsOf(c.positions, p.legs) <= c.prices.Keys
  }

  /** INVESTMENT POOL BASE, fixed at evaluation time. */
  function Pool(c: PolicyContext): Result<real> {
    var l :- LiquidityOf(c);
    PoolBase(c.positions, c.prices, l.investableCash, c.permitted)
  }

  function PostTradeAvailable(l: LiquidityProjection, events: seq<SettlementEvent>, buys: real, day: Day): real {
    l.settledCash - buys + l.ProceedsSettlingBy(day) + SumBy(events, SettlesBy(day)) - l.ObligationsDueBy(day)
  }

  // ---- cash checks ----

  predicate CashFundsBuys(p: Proposal, c: PolicyContext) {
    LiquidityOf(c).Ok? && p.TotalBuyNotional() <= LiquidityOf(c).value.investableCash
  }

  function LedgerDates(l: LiquidityProjection, events: seq<SettlementEvent>): set<Day> {
    {l.asOf} + (set row <- l.schedule :: row.onDate) + (set e <- events :: e.settlementDate)
  }

  /** CHECK-02: the minimum over the collected dates stays at or above the reserve. */
  predicate ReserveHoldsOnLedgerDates(p: Proposal, c: PolicyContext) {
    && LiquidityOf(c).Ok? && SellEvents(p, c).Ok?
    && var l, events := LiquidityOf(c).value, SellEvents(p, c).value;
       forall day <- LedgerDates(l, events) ::
         PostTradeAvailable(l, events, p.TotalBuyNotional(), day) >= l.operatingReserve
  }

  predicate WithinFundingCeiling(p: Proposal, c: PolicyContext) {
    LiquidityOf(c).Ok? && p.TotalBuyNotional() <= LiquidityOf(c).value.fundingCeiling
  }

  predicate NoLeverage(p: Proposal, c: PolicyContext) {
    && LiquidityOf(c).Ok? && PricesKnown(p, c)
    && p.TotalBuyNotional() <= LiquidityOf(c).value.settledCash
  }

  predicate ObligationsFunded(p: Proposal, c: PolicyContext) {
    p.HasSells() ==>
      && LiquidityOf(c).Ok? && SellEvents(p, c).Ok?
      && var l, events := LiquidityOf(c).value, SellEvents(p, c).value;
         forall o <- l.obligations :: PostTradeAvailable(l, events, p.TotalBuyNotional(), o.dueDate) >= 0.0
  }

  // ---- concentration ----

  function ValueAfter(c: PolicyContext, legs: seq<Leg>, s: Symbol): (v: real)
    ensures v >= 0.0
  {
    if s !in c.prices then 0.0
    else
      var q := ProjectedQuantity(c.positions, legs, s);
      if q > 0.0 then ProductNonNegative(q, c.prices[s]); MarketValue(q, c.prices[s]) else 0.0
  }

  /** Fractions of the pool before the trade, for permitted holdings. */
  function PreTrade(c: PolicyContext, pool: real): map<Symbol, real>
    requires pool > 0.0
  {
    map s | s in (set p <- c.positions :: p.symbol) && s in c.permitted && s in c.prices && Held(c.positions, s) > 0.0
      :: MarketValue(Held(c.positions, s), c.prices[s]) / pool
  }

  function Over(fractions: map<Symbol, real>, limit: real): set<Symbol> {
    set s | s in fractions && fractions[s] > limit
  }

  function FractionOf(fractions: map<Symbol, real>, s: Symbol): real {
    if s in fractions then fractions[s] else 0.0
  }

  /** CHECK-04 with monotonic de-risking. */
  predicate ConcentrationAllowed(p: Proposal, c: PolicyContext) {
    && LiquidityOf(c).Ok? && PricesKnown(p, c) && Pool(c).Ok?
    && var pool := Pool(c).value;
       if pool <= 0.0 then forall s <- SymbolsOf(c.positions, p.legs) :: ValueAfter(c, p.legs, s) <= 0.0
       else
         var projected := Concentrations(c.positions, p.legs, c.prices, pool, c.permitted);
         var preTrade := PreTrade(c, pool);
         var preOffenders, offenders := Over(preTrade, c.concentrationMax), Over(projected, c.concentrationMax);
         || offenders == {}
         || (&& preOffenders != {}
             && (forall s <- preOffenders :: FractionOf(projected, s) < preTrade[s])
             && offenders <= preOffenders)
  }

  /** The pool <= 0 branch tests the total invested value; its terms are non-negative. */
  lemma NothingInvested(p: Proposal, c: PolicyContext, list: seq<Symbol>)
    requires PricesKnown(p, c) && Enumerates(list, SymbolsOf(c.positions, p.legs))
    ensures SumBy(list, ProjectedValueOf(c.positions, p.legs, c.prices)) <= 0.0
       <==> forall s <- SymbolsOf(c.positions, p.legs) :: ValueAfter(c, p.legs, s) <= 0.0
  {
    var term := ProjectedValueOf(c.positions, p.legs, c.prices);
    forall s <- list ensures term(s) == ValueAfter(c, p.legs, s) {}
    if SumBy(list, term) <= 0.0 {
      forall s <- SymbolsOf(c.positions, p.legs) ensures ValueAfter(c, p.legs, s) <= 0.0 {
        assert s in list;
        var i :| 0 <= i < |list| && list[i] == s;
        TermLeSum(list, i, term);
      }
    } else if forall s <- SymbolsOf(c.positions, p.legs) :: ValueAfter(c, p.legs, s) <= 0.0 {
      SumZero(list, term);
    }
  }

  // ---- identity, sides, sizes ----

  predicate Whitelisted(p: Proposal, c: PolicyContext) {
    forall l <- p.legs :: l.symbol in c.permitted
  }

  predicate AssetsTradable(p: Proposal, c: PolicyContext) {
    forall l <- p.legs :: l.symbol in c.tradable
  }

  predicate DeterministicIdentity(p: Proposal) {
    && (forall i, j | 0 <= i < j < |p.legs| :: p.legs[i].legIndex != p.legs[j].legIndex)
    && (forall l <- p.legs :: l.clientOrderId == Derived(p.proposalId, l.legIndex))
  }

  predicate NoOpposingSides(p: Proposal, c: PolicyContext) {
    && (forall l <- p.legs, m <- p.legs | l.symbol == m.symbol :: l.side == m.side)
    && (forall o <- c.unresolved, l <- p.legs | o.state.IsUnresolved() && o.symbol == l.symbol :: o.side == l.side)
  }

  predicate NoDust(p: Proposal, c: PolicyContext) {
    forall l <- p.legs :: Notional(l) >= c.minTradeNotional
  }

  // ---- long-only ----

  /** `effective_available_quantity` with a determinable reservation. */
  function EffectiveAvailable(position: Option<Position>, reserved: real): real {
    if position.None? then 0.0
    else if position.value.available <= position.value.quantity - reserved then position.value.available
    else position.value.quantity - reserved
  }

  predicate SellAllowed(p: Proposal, c: PolicyContext, s: Symbol) {
    && !Undeterminable(c.unresolved, s)
    && p.SellQuantity(s) <= EffectiveAvailable(PositionOf(c.positions, s), Reserved(c.unresolved, s))
  }

  /** CHECK-16 */
  predicate LongOnly(p: Proposal, c: PolicyContext) {
    && (forall s <- SymbolsOf(c.positions, p.legs) :: ProjectedQuantity(c.positions, p.legs, s) >= 0.0)
    && (forall l <- p.legs | l.side.Sell? :: SellAllowed(p, c, l.symbol))
  }

  predicate Passes(id: CheckId, p: Proposal, c: PolicyContext) {
    match id
    case Check00 => !c.killSwitch
    case Check01 => CashFundsBuys(p, c)
    case Check02 => ReserveHoldsOnLedgerDates(p, c)
    case Check03 => Whitelisted(p, c)
    case Check04 => ConcentrationAllowed(p, c)
    case Check05 => AssetsTradable(p, c)
    case Check06 => WithinFundingCeiling(p, c)
    case Check08 => c.paperVerified
    case Check09 => DeterministicIdentity(p)
    case Check10 => NoOpposingSides(p, c)
    case Check11 => NoLeverage(p, c)
    case Check12 => ObligationsFunded(p, c)
    case Check13 => WithinRunawayLimit(p, c.authority, c.history, c.now)
    case Check14 => NoDust(p, c)
    case Check15 => c.sessionOpen
    case Check16 => LongOnly(p, c)
  }

  /** `evaluate`: the violated checks. The kill switch short-circuits. */
  function Evaluate(p: Proposal, c: PolicyContext, only: set<CheckId>): set<CheckId> {
    if c.killSwitch then {Check00} else set id | id in only && !Passes(id, p, c)
  }

  predicate BasePasses(p: Proposal, c: PolicyContext) {
    Evaluate(p, c, HARD_CHECKS) == {}
  }

  lemma BaseMeans(p: Proposal, c: PolicyContext, id: CheckId)
    requires BasePasses(p, c)
    ensures Passes(id, p, c)
  {
    assert id in HARD_CHECKS && id !in Evaluate(p, c, HARD_CHECKS);
  }

  // ---- CHECK-02 decides every calendar day ----

  lemma AvailableIsStep(l: LiquidityProjection, events: seq<SettlementEvent>, buys: real, from: Day, to: Day)
    requires from <= to
    requires forall e <- l.unsettled :: !(from < e.settlementDate <= to)
    requires forall e <- events :: !(from < e.settlementDate <= to)
    requires forall o <- l.obligations :: !(from < o.dueDate <= to)
    ensures PostTradeAvailable(l, events, buys, from) == PostTradeAvailable(l, events, buys, to)
  {
    SumEq(l.unsettled, SettlesBy(from), SettlesBy(to));
    SumEq(events, SettlesBy(from), SettlesBy(to));
    SumEq(l.obligations, DueBy(from), DueBy(to));
  }

  /** The latest ledger date not after a day, if there is one. */
  lemma LastStep(dates: set<Day>, day: Day, some: Day) returns (last: Day)
    requires some in dates && some <= day
    ensures last in dates && last <= day && forall d <- dates :: !(last < d <= day)
  {
    var earlier := set d | d in dates && d <= day;
    assert some in earlier;
    last := Latest(earlier);
    assert forall d <- dates :: d <= day ==> d in earlier;
  }

  lemma EventsSettleLater(legs: seq<Leg>, tradeDate: Day, cal: TradingCalendar)
    requires SellSettlementEvents(legs, tradeDate, cal).Ok?
    ensures forall e <- SellSettlementEvents(legs, tradeDate, cal).value :: e.settlementDate > tradeDate
  {
    if exists l <- legs :: l.side.Sell? {
      SettlementAfterTrade(cal, tradeDate);
      SellEventsSettleAt(legs, tradeDate, SettlementDate(cal, tradeDate).value);
    }
  }

  /** CHECK-02 tests finitely many dates, and decides every calendar day: availability
      after the trade is a step function of the collected dates. */
  lemma ReserveHoldsEveryDay(p: Proposal, c: PolicyContext)
    requires LiquidityOf(c).Ok? && SellEvents(p, c).Ok?
    ensures var l, events := LiquidityOf(c).value, SellEvents(p, c).value;
            ReserveHoldsOnLedgerDates(p, c) <==>
            forall day :: PostTradeAvailable(l, events, p.TotalBuyNotional(), day) >= l.operatingReserve
  {
    var l, events, buys := LiquidityOf(c).value, SellEvents(p, c).value, p.TotalBuyNotional();
    if ReserveHoldsOnLedgerDates(p, c) {
      forall day ensures PostTradeAvailable(l, events, buys, day) >= l.operatingReserve {
        ReserveHoldsOn(p, c, day);
      }
    }
  }

  lemma LedgerDatesCover(p: Proposal, c: PolicyContext)
    requires LiquidityOf(c).Ok? && SellEvents(p, c).Ok?
    ensures var l, events := LiquidityOf(c).value, SellEvents(p, c).value;
            var dates := LedgerDates(l, events);
            && (forall e <- l.unsettled :: e.settlementDate in dates)
            && (forall e <- events :: e.settlementDate in dates)
            && (forall o <- l.obligations :: o.dueDate in dates)
  {
    ScheduleDates(c.cash, c.obligations, c.settlementEvents, c.operatingReserve, DateOf(c.now));
    var l := LiquidityOf(c).value;
    var relevant := RelevantDates(l.asOf, l.obligations, l.unsettled);
    forall d <- relevant ensures d in LedgerDates(l, SellEvents(p, c).value) {
      var row :| row in l.schedule && row.onDate == d;
    }
    forall e <- l.unsettled ensures e.settlementDate in relevant {}
    forall o <- l.obligations ensures o.dueDate in relevant {}
  }

  lemma ReserveHoldsOn(p: Proposal, c: PolicyContext, day: Day)
    requires ReserveHoldsOnLedgerDates(p, c)
    ensures var l, events := LiquidityOf(c).value, SellEvents(p, c).value;
            PostTradeAvailable(l, events, p.TotalBuyNotional(), day) >= l.operatingReserve
  {
    var l, events, buys := LiquidityOf(c).value, SellEvents(p, c).value, p.TotalBuyNotional();
    LedgerDatesCover(p, c);
    if l.asOf <= day {
      var last := LastStep(LedgerDates(l, events), day, l.asOf);
      AvailableIsStep(l, events, buys, last, day);
    } else if exists d <- LedgerDates(l, events) :: d <= day {
      var some :| some in LedgerDates(l, events) && some <= day;
      var last := LastStep(LedgerDates(l, events), day, some);
      AvailableIsStep(l, events, buys, last, day);
    } else {
      EventsSettleLater(p.legs, l.asOf, c.calendar);
      assert l.asOf in LedgerDates(l, events);
      BeforeAllDates(l, events, buys, day);
    }
  }

  lemma BeforeAllDates(l: LiquidityProjection, events: seq<SettlementEvent>, buys: real, day: Day)
    requires day <= l.asOf
    requires forall e <- l.unsettled :: e.settlementDate > l.asOf
    requires forall e <- events :: e.settlementDate > l.asOf
    requires forall o <- l.obligations :: o.dueDate > day
    ensures PostTradeAvailable(l, events, buys, day) >= PostTradeAvailable(l, events, buys, l.asOf)
  {
    SumZero(l.obligations, DueBy(day));
    PartialSumBounds(l, l.asOf);
    SumEq(l.unsettled, SettlesBy(day), SettlesBy(l.asOf));
    SumEq(events, SettlesBy(day), SettlesBy(l.asOf));
  }

  // ---- CHECK-01 dominates the other cash checks ----

  lemma BuysAreNonNegative(p: Proposal)
    ensures p.TotalBuyNotional() >= 0.0
  {
    SumNonNegative(p.legs, BuyNotionalOf());
  }

  lemma LiquidityShape(c: PolicyContext)
    requires LiquidityOf(c).Ok?
    ensures var l := LiquidityOf(c).value;
            && l.operatingReserve >= 0.0 && l.settledCash >= 0.0
            && l.investableCash == l.settledCash - l.operatingReserve - SumBy(l.obligations, ObligationAmount())
  {
  }

  /** CHECK-01 is CHECK-06 plus a non-negative investable cash. */
  lemma CashCheckIsCeilingCheck(p: Proposal, c: PolicyContext)
    requires LiquidityOf(c).Ok?
    ensures CashFundsBuys(p, c) <==> WithinFundingCeiling(p, c) && LiquidityOf(c).value.investableCash >= 0.0
  {
    BuysAreNonNegative(p);
  }

  /** What CHECK-01 implies on any schedule of sale proceeds whatever. */
  lemma CashCheckCoversDay(p: Proposal, c: PolicyContext, events: seq<SettlementEvent>, day: Day)
    requires CashFundsBuys(p, c)
    ensures var l := LiquidityOf(c).value;
            PostTradeAvailable(l, events, p.TotalBuyNotional(), day) >= l.operatingReserve >= 0.0
  {
    var l := LiquidityOf(c).value;
    LiquidityShape(c);
    PartialSumBounds(l, day);
    SumNonNegative(events, SettlesBy(day));
  }

  /** CHECK-01 implies CHECK-06, CHECK-11 when every price is known, and CHECK-02 and
      CHECK-12 when the settlement dates can be derived. */
  lemma CashCheckDominates(p: Proposal, c: PolicyContext)
    requires CashFundsBuys(p, c)
    ensures WithinFundingCeiling(p, c)
    ensures PricesKnown(p, c) ==> NoLeverage(p, c)
    ensures SellEvents(p, c).Ok? ==> ReserveHoldsOnLedgerDates(p, c) && ObligationsFunded(p, c)
  {
    var l := LiquidityOf(c).value;
    CashCheckIsCeilingCheck(p, c);
    LiquidityShape(c);
    SumNonNegative(l.obligations, ObligationAmount());
    if SellEvents(p, c).Ok? {
      forall day: Day
        ensures PostTradeAvailable(l, SellEvents(p, c).value, p.TotalBuyNotional(), day) >= l.operatingReserve >= 0.0
      {
        CashCheckCoversDay(p, c, SellEvents(p, c).value, day);
      }
    }
  }
}
