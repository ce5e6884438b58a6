/** Settlement-aware liquidity and the projected portfolio
    (backend/opaca/treasury/liquidity.py). */
module Liquidity {
  import opened Calendar
  import opened Domain
  import opened Money
  import opened Results
  import opened Sums

  function EventAmount(): SettlementEvent -> real {
    (e: SettlementEvent) => e.amount
  }

  function SettlesBy(day: Day): SettlementEvent -> real {
    (e: SettlementEvent) => if e.settlementDate <= day then e.amount else 0.0
  }

  function ObligationAmount(): Obligation -> real {
    (o: Obligation) => o.amount
  }

  function DueBy(day: Day): Obligation -> real {
    (o: Obligation) => if o.dueDate <= day then o.amount else 0.0
  }

  datatype DateLiquidity = DateLiquidity(
    onDate: Day, proceedsSettled: real, obligationsDue: real, available: real, headroom: real)

  datatype LiquidityProjection = LiquidityProjection(
    asOf: Day, unsettled: seq<SettlementEvent>, settledCash: real, operatingReserve: real,
    obligations: seq<Obligation>, obligationsTotal: real, investableCash: real,
    fundingCeiling: real, schedule: seq<DateLiquidity>)
  {
    function ProceedsSettlingBy(day: Day): real {
      SumBy(unsettled, SettlesBy(day))
    }

    function ObligationsDueBy(day: Day): real {
      SumBy(obligations, DueBy(day))
    }

    function AvailableOn(day: Day): real {
      settledCash + ProceedsSettlingBy(day) - ObligationsDueBy(day)
    }

    function HeadroomOn(day: Day): real {
      AvailableOn(day) - operatingReserve
    }
  }

  function Unsettled(events: seq<SettlementEvent>, asOf: Day): (r: seq<SettlementEvent>)
    ensures forall e <- r :: e.settlementDate > asOf
  {
    if events == [] then []
    else (if events[0].settlementDate > asOf then [events[0]] else []) + Unsettled(events[1..], asOf)
  }

  /** Ascending enumeration of a set of dates. */
  function SortedDays(days: set<Day>): (r: seq<Day>)
    ensures forall d :: d in r <==> d in days
    ensures forall i, j | 0 <= i < j < |r| :: r[i] < r[j]
    decreases |days|
  {
    if days == {} then []
    else
      var last := Latest(days);
      var before := SortedDays(days - {last});
      assert forall i | 0 <= i < |before| :: before[i] in before;
      before + [last]
  }

  function RelevantDates(asOf: Day, obligations: seq<Obligation>, unsettled: seq<SettlementEvent>): set<Day> {
    {asOf} + (set o <- obligations :: o.dueDate) + (set e <- unsettled :: e.settlementDate)
  }

  function ScheduleRow(settled: real, reserve: real, obligations: seq<Obligation>, unsettled: seq<SettlementEvent>,
                       day: Day): DateLiquidity {
    var proceeds := SumBy(unsettled, SettlesBy(day));
    var due := SumBy(obligations, DueBy(day));
    DateLiquidity(day, proceeds, due, settled + proceeds - due, settled + proceeds - due - reserve)
  }

  function Schedule(settled: real, reserve: real, obligations: seq<Obligation>, unsettled: seq<SettlementEvent>,
                    days: seq<Day>): (rows: seq<DateLiquidity>)
    ensures |rows| == |days|
    ensures forall i | 0 <= i < |days| :: rows[i] == ScheduleRow(settled, reserve, obligations, unsettled, days[i])
  {
    seq(|days|, i requires 0 <= i < |days| => ScheduleRow(settled, reserve, obligations, unsettled, days[i]))
  }

  /** `compute_liquidity`: fails when broker cash does not cover unsettled proceeds. */
  function ComputeLiquidity(cash: real, obligations: seq<Obligation>, events: seq<SettlementEvent>,
                            operatingReserve: real, asOf: Day): Result<LiquidityProjection> {
    var reserve := RoundMoney(operatingReserve);
    var unsettled := Unsettled(events, asOf);
    var settled := cash - SumBy(unsettled, EventAmount());
    if settled < 0.0 then Err
    else
      var total := SumBy(obligations, ObligationAmount());
      var investable := settled - (reserve + total);
      var days := SortedDays(RelevantDates(asOf, obligations, unsettled));
      Ok(LiquidityProjection(
        asOf, unsettled, settled, reserve, obligations, total, investable,
        if investable > 0.0 then investable else 0.0,
        Schedule(settled, reserve, obligations, unsettled, days)))
  }

  /** Each row is what `available_on` and `headroom_on` say at its date. */
  lemma ScheduleIsExact(cash: real, obligations: seq<Obligation>, events: seq<SettlementEvent>, reserve: real, asOf: Day)
    requires ComputeLiquidity(cash, obligations, events, reserve, asOf).Ok?
    ensures var l := ComputeLiquidity(cash, obligations, events, reserve, asOf).value;
            forall row <- l.schedule ::
              row.available == l.AvailableOn(row.onDate) && row.headroom == l.HeadroomOn(row.onDate)
  {
    var l := ComputeLiquidity(cash, obligations, events, reserve, asOf).value;
    var days := SortedDays(RelevantDates(asOf, obligations, l.unsettled));
    forall row <- l.schedule
      ensures row.available == l.AvailableOn(row.onDate) && row.headroom == l.HeadroomOn(row.onDate)
    {
      var i :| 0 <= i < |l.schedule| && l.schedule[i] == row;
      assert row == ScheduleRow(l.settledCash, l.operatingReserve, obligations, l.unsettled, days[i]);
    }
  }

  /** The schedule lists exactly the relevant dates, in order. */
  lemma ScheduleDates(cash: real, obligations: seq<Obligation>, events: seq<SettlementEvent>, reserve: real, asOf: Day)
    requires ComputeLiquidity(cash, obligations, events, reserve, asOf).Ok?
    ensures var l := ComputeLiquidity(cash, obligations, events, reserve, asOf).value;
            && (forall d <- RelevantDates(asOf, obligations, l.unsettled) :: exists row <- l.schedule :: row.onDate == d)
            && (forall row <- l.schedule :: row.onDate in RelevantDates(asOf, obligations, l.unsettled))
            && (forall i, j | 0 <= i < j < |l.schedule| :: l.schedule[i].onDate < l.schedule[j].onDate)
  {
    var l := ComputeLiquidity(cash, obligations, events, reserve, asOf).value;
    var dates := RelevantDates(asOf, obligations, l.unsettled);
    var days := SortedDays(dates);
    assert forall i | 0 <= i < |days| :: l.schedule[i].onDate == days[i];
    forall d <- dates ensures exists row <- l.schedule :: row.onDate == d {
      assert d in days;
      var i :| 0 <= i < |days| && days[i] == d;
      assert l.schedule[i] in l.schedule;
    }
  }

  lemma PartialSumBounds(l: LiquidityProjection, day: Day)
    ensures 0.0 <= l.ProceedsSettlingBy(day)
    ensures 0.0 <= l.ObligationsDueBy(day) <= SumBy(l.obligations, ObligationAmount())
  {
    SumNonNegative(l.unsettled, SettlesBy(day));
    SumNonNegative(l.obligations, DueBy(day));
    SumLe(l.obligations, DueBy(day), ObligationAmount());
  }

  // ---- projected portfolio ----

  function SignedQuantityOf(s: Symbol): Leg -> real {
    (l: Leg) => if l.symbol == s then (if l.side.Buy? then l.quantity else -l.quantity) else 0.0
  }

  function ProjectedQuantity(positions: seq<Position>, legs: seq<Leg>, s: Symbol): real {
    Held(positions, s) + SumBy(legs, SignedQuantityOf(s))
  }

  function GrossValue(quantity: real, price: real): real {
    RoundMoney(quantity * price)
  }

  function MarketValue(quantity: real, price: real): real {
    if quantity > 0.0 then GrossValue(quantity, price) else 0.0
  }

  function HoldingValue(p: Position, prices: Prices, permitted: set<Symbol>): (v: real)
    ensures v >= 0.0
  {
    if p.symbol in permitted && p.symbol in prices then
      ProductNonNegative(p.quantity, prices[p.symbol]);
      GrossValue(p.quantity, prices[p.symbol])
    else 0.0
  }

  function HoldingValueOf(prices: Prices, permitted: set<Symbol>): Position -> real {
    (p: Position) => HoldingValue(p, prices, permitted)
  }

  /** Loop of `investment_pool_base`: eligible holdings at market value plus deployable
      investment cash; a missing price fails closed. */
  function PoolBase(positions: seq<Position>, prices: Prices, investableCash: real, permitted: set<Symbol>): Result<real> {
    if exists p <- positions :: p.symbol in permitted && p.symbol !in prices then Err
    else Ok(SumBy(positions, HoldingValueOf(prices, permitted)) + (if investableCash > 0.0 then investableCash else 0.0))
  }

  method InvestmentPoolBase(positions: seq<Position>, prices: Prices, investableCash: real, permitted: set<Symbol>)
    returns (r: Result<real>)
    ensures r == PoolBase(positions, prices, investableCash, permitted)
  {
    var holdings := 0.0;
    for i := 0 to |positions|
      invariant holdings == SumBy(positions[..i], HoldingValueOf(prices, permitted))
      invariant forall p <- positions[..i] :: p.symbol in permitted ==> p.symbol in prices
    {
      var p := positions[i];
      SumSnoc<Position>(positions[..i], p, HoldingValueOf(prices, permitted));
      assert positions[..i + 1] == positions[..i] + [p];
      if p.symbol in permitted {
        if p.symbol !in prices {
          return Err;
        }
        holdings := holdings + GrossValue(p.quantity, prices[p.symbol]);
      }
    }
    assert positions[..|positions|] == positions;
    return Ok(holdings + if investableCash > 0.0 then investableCash else 0.0);
  }

  datatype PortfolioProjection = PortfolioProjection(
    symbols: set<Symbol>, totalInvested: real, concentration: map<Symbol, real>, pool: real)

  function SymbolsOf(positions: seq<Position>, legs: seq<Leg>): set<Symbol> {
    (set p <- positions :: p.symbol) + (set l <- legs :: l.symbol)
  }

  function ProjectedValue(positions: seq<Position>, legs: seq<Leg>, prices: Prices, s: Symbol): real
    requires s in prices
  {
    MarketValue(ProjectedQuantity(positions, legs, s), prices[s])
  }

  function ProjectedValueOf(positions: seq<Position>, legs: seq<Leg>, prices: Prices): Symbol -> real {
    (s: Symbol) => if s in prices then ProjectedValue(positions, legs, prices, s) else 0.0
  }

  /** Every fraction that `project_portfolio` reports, against the given pool. */
  function Concentrations(positions: seq<Position>, legs: seq<Leg>, prices: Prices, pool: real, permitted: set<Symbol>)
    : map<Symbol, real>
    requires SymbolsOf(positions, legs) <= prices.Keys
  {
    map s | s in SymbolsOf(positions, legs) && s in permitted
            && ProjectedValue(positions, legs, prices, s) > 0.0 && pool > 0.0
          :: ProjectedValue(positions, legs, prices, s) / pool
  }

  ghost predicate Enumerates(list: seq<Symbol>, symbols: set<Symbol>) {
    Distinct(list) && forall s :: s in list <==> s in symbols
  }

  method SymbolList(symbols: set<Symbol>) returns (list: seq<Symbol>)
    ensures Enumerates(list, symbols)
  {
    list := [];
    var rest := symbols;
    while rest != {}
      invariant rest <= symbols
      invariant Distinct(list) && forall s :: s in list <==> s in symbols - rest
      decreases rest
    {
      var s :| s in rest;
      assert forall i | 0 <= i < |list| :: list[i] in list;
      list := list + [s];
      rest := rest - {s};
    }
  }

  /** The dictionary of signed deltas in `project_portfolio`. */
  method DeltaBySymbol(legs: seq<Leg>) returns (delta: map<Symbol, real>)
    ensures forall s :: (if s in delta then delta[s] else 0.0) == SumBy(legs, SignedQuantityOf(s))
  {
    delta := map[];
    for i := 0 to |legs|
      invariant forall s :: (if s in delta then delta[s] else 0.0) == SumBy(legs[..i], SignedQuantityOf(s))
    {
      var l := legs[i];
      var signed := if l.side.Buy? then l.quantity else -l.quantity;
      ghost var before := delta;
      delta := delta[l.symbol := (if l.symbol in delta then delta[l.symbol] else 0.0) + signed];
      assert legs[..i + 1] == legs[..i] + [l];
      forall s ensures (if s in delta then delta[s] else 0.0) == SumBy(legs[..i + 1], SignedQuantityOf(s)) {
        SumSnoc<Leg>(legs[..i], l, SignedQuantityOf(s));
        assert (if s in before then before[s] else 0.0) == SumBy(legs[..i], SignedQuantityOf(s));
      }
    }
    assert legs[..|legs|] == legs;
  }

  /** First loop of `project_portfolio`: one projected value a symbol, and their total. */
  method ProjectSymbols(positions: seq<Position>, legs: seq<Leg>, prices: Prices, list: seq<Symbol>)
    returns (r: Result<(seq<real>, real)>)
    ensures r.Ok? <==> forall s <- list :: s in prices
    ensures r.Ok? ==> |r.value.0| == |list|
    ensures r.Ok? ==> forall i | 0 <= i < |list| :: r.value.0[i] == ProjectedValue(positions, legs, prices, list[i])
    ensures r.Ok? ==> r.value.1 == SumBy(list, ProjectedValueOf(positions, legs, prices))
  {
    var delta := DeltaBySymbol(legs);
    var values: seq<real> := [];
    var total := 0.0;
    for i := 0 to |list|
      invariant |values| == i
      invariant forall k | 0 <= k < i :: list[k] in prices && values[k] == ProjectedValue(positions, legs, prices, list[k])
      invariant total == SumBy(list[..i], ProjectedValueOf(positions, legs, prices))
    {
      var s := list[i];
      assert list[..i + 1] == list[..i] + [s];
      if s !in prices {
        return Err;
      }
      var quantity := Held(positions, s) + if s in delta then delta[s] else 0.0;
      var value := MarketValue(quantity, prices[s]);
      SumSnoc(list[..i], s, ProjectedValueOf(positions, legs, prices));
      total := total + value;
      values := values + [value];
    }
    assert list[..|list|] == list;
    return Ok((values, total));
  }

  /** `project_portfolio`: totals, and the fractions of the pool for permitted symbols. */
  method ProjectPortfolio(positions: seq<Position>, legs: seq<Leg>, prices: Prices, pool: real, permitted: set<Symbol>)
    returns (r: Result<PortfolioProjection>)
    ensures r.Ok? <==> SymbolsOf(positions, legs) <= prices.Keys
    ensures r.Ok? ==>
              && r.value.symbols == SymbolsOf(positions, legs) && r.value.pool == pool
              && r.value.concentration == Concentrations(positions, legs, prices, pool, permitted)
              && exists list | Enumerates(list, r.value.symbols) ::
                   r.value.totalInvested == SumBy(list, ProjectedValueOf(positions, legs, prices))
  {
    hide ProjectedValue, SymbolsOf;
    var symbols := SymbolsOf(positions, legs);
    var list := SymbolList(symbols);
    var projected := ProjectSymbols(positions, legs, prices, list);
    if projected.Err? {
      return Err;
    }
    var values := projected.value.0;
    var concentration: map<Symbol, real> := map[];
    for i := 0 to |list|
      invariant forall s :: s in concentration <==>
                            s in list[..i] && s in permitted && pool > 0.0
                            && ProjectedValue(positions, legs, prices, s) > 0.0
      invariant forall s <- concentration :: concentration[s] == ProjectedValue(positions, legs, prices, s) / pool
    {
      assert list[..i + 1] == list[..i] + [list[i]];
      if list[i] in permitted && values[i] > 0.0 && pool > 0.0 {
        concentration := concentration[list[i] := values[i] / pool];
      }
    }
    assert list[..|list|] == list;
    return Ok(PortfolioProjection(symbols, projected.value.1, concentration, pool));
  }

  // ---- derived settlement of proposed sells ----

  function SellEvent(l: Leg, tradeDate: Day, settlement: Day): SettlementEvent
    requires tradeDate <= settlement
  {
    SettlementEvent(LegKey(l.proposalId, l.legIndex), l.symbol, tradeDate, settlement, Notional(l))
  }

  function SellEventsAt(legs: seq<Leg>, tradeDate: Day, settlement: Day): seq<SettlementEvent>
    requires tradeDate <= settlement
  {
    if legs == [] then []
    else
      SellEventsAt(legs[..|legs| - 1], tradeDate, settlement)
      + if legs[|legs| - 1].side.Sell? then [SellEvent(legs[|legs| - 1], tradeDate, settlement)] else []
  }

  /** `sell_settlement_events`: without sells the calendar is not consulted. */
  function SellSettlementEvents(legs: seq<Leg>, tradeDate: Day, cal: TradingCalendar): Result<seq<SettlementEvent>> {
    if forall l <- legs :: !l.side.Sell? then Ok([])
    else
      var settlement :- SettlementDate(cal, tradeDate);
      SettlementAfterTrade(cal, tradeDate);
      Ok(SellEventsAt(legs, tradeDate, settlement))
  }

  method DeriveSellEvents(legs: seq<Leg>, tradeDate: Day, cal: TradingCalendar)
    returns (r: Result<seq<SettlementEvent>>)
    ensures r == SellSettlementEvents(legs, tradeDate, cal)
  {
    if forall l <- legs :: !l.side.Sell? {
      return Ok([]);
    }
    var settlement := AddTradingDays(cal, tradeDate, 1);
    if settlement.Err? {
      return Err;
    }
    SettlementAfterTrade(cal, tradeDate);
    var events: seq<SettlementEvent> := [];
    for i := 0 to |legs|
      invariant events == SellEventsAt(legs[..i], tradeDate, settlement.value)
    {
      assert legs[..i + 1][..i] == legs[..i];
      if legs[i].side.Sell? {
        events := events + [SellEvent(legs[i], tradeDate, settlement.value)];
      }
    }
    assert legs[..|legs|] == legs;
    return Ok(events);
  }

  lemma {:induction false} SellEventsSettleAt(legs: seq<Leg>, tradeDate: Day, settlement: Day)
    requires tradeDate <= settlement
    ensures forall e <- SellEventsAt(legs, tradeDate, settlement) :: e.settlementDate == settlement
  {
    if legs != [] {
      SellEventsSettleAt(legs[..|legs| - 1], tradeDate, settlement);
    }
  }
}
