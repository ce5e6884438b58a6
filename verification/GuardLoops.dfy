/** The loops of TreasuryGuard (backend/opaca/policy/engine.py): the frame's dictionaries and
    the checks that fill problem lists, proved against the predicates of Guard. */
module GuardLoops {
  import opened Authority
  import opened Calendar
  import opened Domain
  import opened Guard
  import opened Liquidity
  import opened Money
  import opened Results
  import opened Sums
  import opened Unresolved

  // ---- _build_frame ----

  /** Held quantities by symbol. */
  method ExistingQuantities(positions: seq<Position>) returns (existing: map<Symbol, real>)
    requires DistinctSymbols(positions)
    ensures existing.Keys == set p <- positions :: p.symbol
    ensures forall s :: Get(existing, s) == Held(positions, s)
  {
    existing := map[];
    for i := 0 to |positions|
      invariant existing.Keys == set p <- positions[..i] :: p.symbol
      invariant forall p <- positions[..i] :: p.symbol in existing && existing[p.symbol] == p.quantity
    {
      assert positions[..i + 1] == positions[..i] + [positions[i]];
      forall p <- positions[..i] ensures p.symbol != positions[i].symbol {
        var k :| 0 <= k < i && positions[k] == p;
      }
      existing := existing[positions[i].symbol := positions[i].quantity];
    }
    assert positions[..|positions|] == positions;
    forall s ensures Get(existing, s) == Held(positions, s) {
      var p := PositionOf(positions, s);
      if p.Some? {
        assert p.value in positions;
      }
    }
  }

  function SellSymbols(legs: seq<Leg>): set<Symbol> {
    set l <- legs | l.side.Sell? :: l.symbol
  }

  ghost predicate ProjectedBy(projected: map<Symbol, real>, positions: seq<Position>, legs: seq<Leg>) {
    && projected.Keys == SymbolsOf(positions, legs)
    && forall s :: Get(projected, s) == ProjectedQuantity(positions, legs, s)
  }

  ghost predicate SoldBy(sells: map<Symbol, real>, legs: seq<Leg>) {
    && sells.Keys == SellSymbols(legs)
    && forall s :: Get(sells, s) == SumBy(legs, SellQuantityOf(s))
  }

  function Signed(l: Leg): real {
    if l.side.Buy? then l.quantity else -l.quantity
  }

  lemma ProjectedStep(projected: map<Symbol, real>, positions: seq<Position>, legs: seq<Leg>, l: Leg)
    requires ProjectedBy(projected, positions, legs)
    ensures ProjectedBy(projected[l.symbol := Get(projected, l.symbol) + Signed(l)], positions, legs + [l])
  {
    hide SumBy, Held;
    var next := projected[l.symbol := Get(projected, l.symbol) + Signed(l)];
    forall s ensures Get(next, s) == ProjectedQuantity(positions, legs + [l], s) {
      SumSnoc<Leg>(legs, l, SignedQuantityOf(s));
      assert Get(projected, s) == ProjectedQuantity(positions, legs, s);
    }
  }

  lemma SoldStep(sells: map<Symbol, real>, legs: seq<Leg>, l: Leg)
    requires SoldBy(sells, legs)
    ensures SoldBy(if l.side.Sell? then sells[l.symbol := Get(sells, l.symbol) + l.quantity] else sells, legs + [l])
  {
    hide SumBy;
    var next := if l.side.Sell? then sells[l.symbol := Get(sells, l.symbol) + l.quantity] else sells;
    forall s ensures Get(next, s) == SumBy(legs + [l], SellQuantityOf(s)) {
      SumSnoc<Leg>(legs, l, SellQuantityOf(s));
      assert Get(sells, s) == SumBy(legs, SellQuantityOf(s));
    }
  }

  lemma NoLegsYet(positions: seq<Position>)
    ensures forall s :: ProjectedQuantity(positions, [], s) == Held(positions, s)
    ensures forall s :: SumBy<Leg>([], SellQuantityOf(s)) == 0.0
  {
  }

  /** The loop that moves every leg's quantity into `projected_qty` and `sell_qty`. */
  method FrameQuantities(positions: seq<Position>, legs: seq<Leg>)
    returns (projected: map<Symbol, real>, sells: map<Symbol, real>)
    requires DistinctSymbols(positions)
    ensures projected.Keys == SymbolsOf(positions, legs)
    ensures forall s :: Get(projected, s) == ProjectedQuantity(positions, legs, s)
    ensures sells.Keys == SellSymbols(legs)
    ensures forall s :: Get(sells, s) == SumBy(legs, SellQuantityOf(s))
  {
    hide SumBy, Held;
    projected := ExistingQuantities(positions);
    sells := map[];
    NoLegsYet(positions);
    assert ProjectedBy(projected, positions, legs[..0]);
    assert SoldBy(sells, legs[..0]);
    for i := 0 to |legs|
      invariant ProjectedBy(projected, positions, legs[..i]) && SoldBy(sells, legs[..i])
    {
      hide ProjectedBy, SoldBy;
      var l := legs[i];
      ProjectedStep(projected, positions, legs[..i], l);
      SoldStep(sells, legs[..i], l);
      assert legs[..i + 1] == legs[..i] + [l];
      if l.side.Buy? {
        projected := projected[l.symbol := Get(projected, l.symbol) + l.quantity];
      } else {
        projected := projected[l.symbol := Get(projected, l.symbol) - l.quantity];
        sells := sells[l.symbol := Get(sells, l.symbol) + l.quantity];
      }
    }
    assert legs[..|legs|] == legs;
  }

  // ---- CHECK-02 ----

  predicate IsWorst(l: LiquidityProjection, events: seq<SettlementEvent>, buys: real, dates: set<Day>, worst: real) {
    && (exists d <- dates :: worst == PostTradeAvailable(l, events, buys, d))
    && (forall d <- dates :: worst <= PostTradeAvailable(l, events, buys, d))
  }

  /** The least availability among some dates. */
  method WorstAvailable(l: LiquidityProjection, events: seq<SettlementEvent>, buys: real, dates: set<Day>) returns (worst: real)
    requires dates != {}
    ensures IsWorst(l, events, buys, dates, worst)
  {
    hide PostTradeAvailable;
    var first := AnyDay(dates);
    var rest := dates - {first};
    worst := PostTradeAvailable(l, events, buys, first);
    while rest != {}
      invariant rest <= dates && first in dates - rest
      invariant IsWorst(l, events, buys, dates - rest, worst)
      decreases |rest|
    {
      var day := AnyDay(rest);
      var available := PostTradeAvailable(l, events, buys, day);
      assert dates - (rest - {day}) == (dates - rest) + {day};
      if available < worst {
        worst := available;
      }
      rest := rest - {day};
    }
    assert dates - rest == dates;
  }

  /** The worst collected date decides. */
  method CheckReserve(p: Proposal, c: PolicyContext) returns (passed: bool)
    ensures passed == ReserveHoldsOnLedgerDates(p, c)
  {
    hide PostTradeAvailable, LiquidityOf, SellEvents;
    var liquidity, events := LiquidityOf(c), SellEvents(p, c);
    if liquidity.Err? || events.Err? {
      return false;
    }
    var l := liquidity.value;
    assert l.asOf in LedgerDates(l, events.value);
    hide LedgerDates;
    var worst := WorstAvailable(l, events.value, p.TotalBuyNotional(), LedgerDates(l, events.value));
    passed := worst >= l.operatingReserve;
  }

  /** Some element of a non-empty set of days: the latest. */
  method AnyDay(days: set<Day>) returns (day: Day)
    requires days != {}
    ensures day in days
  {
    day := Latest(days);
  }

  // ---- CHECK-04 ----

  /** Fractions of the pool before the trade. */
  method PreTradeFractions(c: PolicyContext, pool: real) returns (fractions: map<Symbol, real>)
    requires pool > 0.0 && forall p <- c.positions :: p.symbol in c.prices
    ensures fractions == PreTrade(c, pool)
  {
    hide MarketValue, PreTrade, Held;
    fractions := map[];
    for i := 0 to |c.positions|
      invariant fractions.Keys == set p <- c.positions[..i] | p.symbol in c.permitted && p.quantity > 0.0 :: p.symbol
      invariant forall s <- fractions :: fractions[s] == MarketValue(Held(c.positions, s), c.prices[s]) / pool
    {
      var p := c.positions[i];
      assert c.positions[..i + 1] == c.positions[..i] + [p];
      HeldOfMember(c.positions, p);
      if p.symbol in c.permitted && p.quantity > 0.0 {
        fractions := fractions[p.symbol := MarketValue(p.quantity, c.prices[p.symbol]) / pool];
      }
    }
    assert c.positions[..|c.positions|] == c.positions;
    forall s ensures s in fractions <==> s in PreTrade(c, pool) {
      PreTradeKey(c, pool, s);
    }
    forall s <- fractions ensures fractions[s] == PreTrade(c, pool)[s] {
      PreTradeValue(c, pool, s);
    }
  }

  lemma PreTradeValue(c: PolicyContext, pool: real, s: Symbol)
    requires pool > 0.0 && s in PreTrade(c, pool)
    ensures s in c.prices && PreTrade(c, pool)[s] == MarketValue(Held(c.positions, s), c.prices[s]) / pool
  {
  }

  lemma PreTradeKey(c: PolicyContext, pool: real, s: Symbol)
    requires pool > 0.0 && forall p <- c.positions :: p.symbol in c.prices
    ensures s in PreTrade(c, pool)
       <==> s in set p <- c.positions | p.symbol in c.permitted && p.quantity > 0.0 :: p.symbol
  {
    if s in PreTrade(c, pool) {
      var p := PositionOf(c.positions, s).value;
      HeldOfMember(c.positions, p);
    }
    if p :| p in c.positions && p.symbol in c.permitted && p.quantity > 0.0 && p.symbol == s {
      HeldOfMember(c.positions, p);
    }
  }

  /** The problem loops of `_check_04`, on a positive pool. */
  method DeRiskingProblems(preTrade: map<Symbol, real>, projected: map<Symbol, real>, limit: real) returns (ok: bool)
    ensures ok <==>
              || Over(projected, limit) == {}
              || (&& Over(preTrade, limit) != {}
                  && (forall s <- Over(preTrade, limit) :: FractionOf(projected, s) < preTrade[s])
                  && Over(projected, limit) <= Over(preTrade, limit))
  {
    var preOffenders, offenders := Over(preTrade, limit), Over(projected, limit);
    if offenders == {} {
      return true;
    }
    if preOffenders == {} {
      return false;
    }
    ok := true;
    var rest := preOffenders;
    while rest != {}
      invariant rest <= preOffenders
      invariant ok <==> forall s <- preOffenders - rest :: FractionOf(projected, s) < preTrade[s]
      decreases rest
    {
      var s :| s in rest;
      if !(FractionOf(projected, s) < preTrade[s]) {
        assert s in preOffenders - (rest - {s});
        ok := false;
      }
      rest := rest - {s};
    }
    assert preOffenders - rest == preOffenders;
    if offenders - preOffenders != {} {
      ok := false;
    }
  }

  /** `_check_04` */
  method CheckConcentration(p: Proposal, c: PolicyContext) returns (passed: bool)
    ensures passed == ConcentrationAllowed(p, c)
  {
    hide ValueAfter, PreTrade, Concentrations;
    var liquidity := LiquidityOf(c);
    if liquidity.Err? {
      return false;
    }
    var pool := InvestmentPoolBase(c.positions, c.prices, liquidity.value.investableCash, c.permitted);
    if pool.Err? {
      return false;
    }
    var portfolio := ProjectPortfolio(c.positions, p.legs, c.prices, pool.value, c.permitted);
    if portfolio.Err? {
      return false;
    }
    if pool.value <= 0.0 {
      ghost var list :| Enumerates(list, portfolio.value.symbols)
                        && portfolio.value.totalInvested == SumBy(list, ProjectedValueOf(c.positions, p.legs, c.prices));
      NothingInvested(p, c, list);
      return portfolio.value.totalInvested <= 0.0;
    }
    KnownPrices(p, c);
    var preTrade := PreTradeFractions(c, pool.value);
    passed := DeRiskingProblems(preTrade, portfolio.value.concentration, c.concentrationMax);
  }

  lemma KnownPrices(p: Proposal, c: PolicyContext)
    requires PricesKnown(p, c)
    ensures forall q <- c.positions :: q.symbol in c.prices
  {
    assert forall q <- c.positions :: q.symbol in SymbolsOf(c.positions, p.legs);
  }

  // ---- CHECK-16 ----

  /** `_check_16` */
  method CheckLongOnly(p: Proposal, c: PolicyContext) returns (passed: bool)
    ensures passed == LongOnly(p, c)
  {
    var projected, sells := FrameQuantities(c.positions, p.legs);
    var reserved, undeterminable := SellReservations(c.unresolved);
    var short := exists s <- projected :: projected[s] < 0.0;
    var oversold := false;
    var rest := sells.Keys;
    while rest != {}
      invariant rest <= sells.Keys
      invariant oversold <==> exists s <- sells.Keys - rest :: !SellAllowed(p, c, s)
      decreases rest
    {
      var s :| s in rest;
      var available := EffectiveAvailable(PositionOf(c.positions, s), Get(reserved, s));
      if s in undeterminable || sells[s] > available {
        assert !SellAllowed(p, c, s) && s in sells.Keys - (rest - {s});
        oversold := true;
      }
      rest := rest - {s};
    }
    assert sells.Keys - rest == SellSymbols(p.legs);
    passed := !short && !oversold;
    LongOnlyBySymbol(p, c);
    assert short <==> exists s <- SymbolsOf(c.positions, p.legs) :: ProjectedQuantity(c.positions, p.legs, s) < 0.0 by {
      assert forall s <- projected :: projected[s] == ProjectedQuantity(c.positions, p.legs, s);
    }
  }

  lemma LongOnlyBySymbol(p: Proposal, c: PolicyContext)
    ensures LongOnly(p, c) <==>
              && (forall s <- SymbolsOf(c.positions, p.legs) :: ProjectedQuantity(c.positions, p.legs, s) >= 0.0)
              && (forall s <- SellSymbols(p.legs) :: SellAllowed(p, c, s))
  {
    hide SellAllowed, ProjectedQuantity;
    forall l <- p.legs | l.side.Sell? ensures l.symbol in SellSymbols(p.legs) {}
  }

  // ---- identity, sides, sizes ----

  function SymbolsIn(legs: seq<Leg>, side: Side): set<Symbol> {
    set l <- legs | l.side == side :: l.symbol
  }

  /** `_check_05`: the symbols of the proposal, one by one. */
  method CheckTradable(p: Proposal, c: PolicyContext) returns (passed: bool)
    ensures passed == AssetsTradable(p, c)
  {
    var symbols := set l <- p.legs :: l.symbol;
    var rest := symbols;
    passed := true;
    while rest != {}
      invariant rest <= symbols
      invariant passed <==> symbols - rest <= c.tradable
      decreases rest
    {
      var s :| s in rest;
      if s !in c.tradable {
        assert s in symbols - (rest - {s});
        passed := false;
      }
      rest := rest - {s};
    }
    assert symbols - rest == symbols;
    assert forall l <- p.legs :: l.symbol in symbols;
  }

  lemma IdentitySnoc(p: Proposal, i: nat, seen: set<int>)
    requires i < |p.legs| && seen == set l <- p.legs[..i] :: l.legIndex
    ensures DeterministicIdentity(Proposal(p.proposalId, p.legs[..i + 1]))
       <==> && DeterministicIdentity(Proposal(p.proposalId, p.legs[..i]))
            && p.legs[i].legIndex !in seen && p.legs[i].clientOrderId == Derived(p.proposalId, p.legs[i].legIndex)
  {
    var before, upTo := p.legs[..i], p.legs[..i + 1];
    assert upTo == before + [p.legs[i]];
    assert forall k | 0 <= k < i :: upTo[k] == before[k] && before[k] in before;
    assert upTo[i] in upTo && forall l <- before :: l in upTo;
    if p.legs[i].legIndex in seen {
      var k :| 0 <= k < i && before[k].legIndex == p.legs[i].legIndex;
      assert upTo[k].legIndex == upTo[i].legIndex;
    }
  }

  /** `_check_09`: leg indices seen so far, and the expected id of every leg. */
  method CheckIdentity(p: Proposal) returns (passed: bool)
    ensures passed == DeterministicIdentity(p)
  {
    hide DeterministicIdentity;
    var seen: set<int> := {};
    passed := true;
    NoLegsIdentified(p);
    for i := 0 to |p.legs|
      invariant seen == set l <- p.legs[..i] :: l.legIndex
      invariant passed <==> DeterministicIdentity(Proposal(p.proposalId, p.legs[..i]))
    {
      var l := p.legs[i];
      IdentitySnoc(p, i, seen);
      if l.legIndex in seen {
        passed := false;
      }
      assert p.legs[..i + 1] == p.legs[..i] + [l];
      seen := seen + {l.legIndex};
      if l.clientOrderId != Derived(p.proposalId, l.legIndex) {
        passed := false;
      }
    }
    assert Proposal(p.proposalId, p.legs[..|p.legs|]) == p;
  }

  lemma NoLegsIdentified(p: Proposal)
    ensures DeterministicIdentity(Proposal(p.proposalId, p.legs[..0]))
  {
  }

  function Opposite(side: Side): Side {
    if side.Buy? then Sell else Buy
  }

  /** An unresolved order on the other side of some leg. */
  predicate Opposes(o: UnresolvedOrder, legs: seq<Leg>) {
    o.state.IsUnresolved() && exists l <- legs :: l.symbol == o.symbol && l.side == Opposite(o.side)
  }

  lemma OpposingSides(p: Proposal, c: PolicyContext)
    ensures NoOpposingSides(p, c) <==>
              && SymbolsIn(p.legs, Buy) * SymbolsIn(p.legs, Sell) == {}
              && forall o <- c.unresolved :: !Opposes(o, p.legs)
  {
    var both := SymbolsIn(p.legs, Buy) * SymbolsIn(p.legs, Sell);
    if both == {} {
      forall l <- p.legs, m <- p.legs | l.symbol == m.symbol ensures l.side == m.side {
        assert l.symbol in SymbolsIn(p.legs, l.side) && m.symbol in SymbolsIn(p.legs, m.side);
        assert l.symbol !in both;
      }
    } else {
      var s :| s in both;
      var l :| l in p.legs && l.side.Buy? && l.symbol == s;
      var m :| m in p.legs && m.side.Sell? && m.symbol == s;
      assert l.side != m.side;
    }
  }

  /** `_check_10`: both sides inside the proposal, then every unresolved order against the
      sides that the proposal takes on its symbol. */
  method CheckOpposing(p: Proposal, c: PolicyContext) returns (passed: bool)
    ensures passed == NoOpposingSides(p, c)
  {
    hide NoOpposingSides;
    var buys, sells := SymbolsIn(p.legs, Buy), SymbolsIn(p.legs, Sell);
    passed := buys * sells == {};
    ghost var internal := passed;
    for i := 0 to |c.unresolved|
      invariant passed <==> internal && forall o <- c.unresolved[..i] :: !Opposes(o, p.legs)
    {
      var o := c.unresolved[i];
      assert c.unresolved[..i + 1] == c.unresolved[..i] + [o];
      if o.state.IsUnresolved() && o.symbol in (set l <- p.legs :: l.symbol) {
        var sides := set l <- p.legs | l.symbol == o.symbol :: l.side;
        if Opposite(o.side) in sides {
          assert Opposes(o, p.legs);
          passed := false;
        }
      }
    }
    assert c.unresolved[..|c.unresolved|] == c.unresolved;
    OpposingSides(p, c);
  }

  /** `_check_12`: every obligation on its due date. */
  method CheckObligations(p: Proposal, c: PolicyContext) returns (passed: bool)
    ensures passed == ObligationsFunded(p, c)
  {
    hide PostTradeAvailable, LiquidityOf, SellEvents;
    if !p.HasSells() {
      return true;
    }
    var liquidity, events := LiquidityOf(c), SellEvents(p, c);
    if liquidity.Err? || events.Err? {
      return false;
    }
    var l := liquidity.value;
    passed := true;
    for i := 0 to |l.obligations|
      invariant passed <==>
                  forall o <- l.obligations[..i] :: PostTradeAvailable(l, events.value, p.TotalBuyNotional(), o.dueDate) >= 0.0
    {
      var o := l.obligations[i];
      assert l.obligations[..i + 1] == l.obligations[..i] + [o];
      if PostTradeAvailable(l, events.value, p.TotalBuyNotional(), o.dueDate) < 0.0 {
        passed := false;
      }
    }
    assert l.obligations[..|l.obligations|] == l.obligations;
  }

  /** `_check_14` */
  method CheckDust(p: Proposal, c: PolicyContext) returns (passed: bool)
    ensures passed == NoDust(p, c)
  {
    passed := true;
    for i := 0 to |p.legs|
      invariant passed <==> forall l <- p.legs[..i] :: Notional(l) >= c.minTradeNotional
    {
      assert p.legs[..i + 1] == p.legs[..i] + [p.legs[i]];
      if Notional(p.legs[i]) < c.minTradeNotional {
        passed := false;
      }
    }
    assert p.legs[..|p.legs|] == p.legs;
  }

  // ---- evaluate ----

  const CHECK_ORDER: seq<CheckId> :=
    [Check00, Check01, Check02, Check03, Check04, Check05, Check06, Check08, Check09, Check10, Check11, Check12,
     Check13, Check14, Check15, Check16]

  /** The handler of a check; those without a loop are one comparison. */
  method RunCheck(id: CheckId, p: Proposal, c: PolicyContext) returns (passed: bool)
    ensures passed == Passes(id, p, c)
  {
    hide ReserveHoldsOnLedgerDates, ConcentrationAllowed, LongOnly, AssetsTradable, DeterministicIdentity, NoOpposingSides,
         ObligationsFunded, NoDust;
    match id
    case Check02 => passed := CheckReserve(p, c);
    case Check04 => passed := CheckConcentration(p, c);
    case Check05 => passed := CheckTradable(p, c);
    case Check09 => passed := CheckIdentity(p);
    case Check10 => passed := CheckOpposing(p, c);
    case Check12 => passed := CheckObligations(p, c);
    case Check13 =>
      var _, count := InWindowTotals(c.history, c.now, MICROS_PER_HOUR);
      passed := count + |p.legs| <= c.authority.runawayHourlyMax;
    case Check14 => passed := CheckDust(p, c);
    case Check16 => passed := CheckLongOnly(p, c);
    case _ => passed := Passes(id, p, c);
  }

  /** `evaluate`: the checks in order; the kill switch short-circuits. */
  method EvaluateProposal(p: Proposal, c: PolicyContext, only: set<CheckId>) returns (violated: set<CheckId>)
    ensures violated == Evaluate(p, c, only)
  {
    hide Passes;
    if c.killSwitch {
      return {Check00};
    }
    violated := {};
    for i := 0 to |CHECK_ORDER|
      invariant forall id :: id in violated <==> id in CHECK_ORDER[..i] && id in only && !Passes(id, p, c)
    {
      assert CHECK_ORDER[..i + 1] == CHECK_ORDER[..i] + [CHECK_ORDER[i]];
      if CHECK_ORDER[i] in only {
        var passed := RunCheck(CHECK_ORDER[i], p, c);
        if !passed {
          violated := violated + {CHECK_ORDER[i]};
        }
      }
    }
    assert CHECK_ORDER[..|CHECK_ORDER|] == CHECK_ORDER;
    forall id: CheckId ensures id in CHECK_ORDER {
      EveryCheckRuns(id);
    }
  }

  lemma EveryCheckRuns(id: CheckId)
    ensures id in CHECK_ORDER
  {
    match id
    case Check00 => assert CHECK_ORDER[0] == id;
    case Check01 => assert CHECK_ORDER[1] == id;
    case Check02 => assert CHECK_ORDER[2] == id;
    case Check03 => assert CHECK_ORDER[3] == id;
    case Check04 => assert CHECK_ORDER[4] == id;
    case Check05 => assert CHECK_ORDER[5] == id;
    case Check06 => assert CHECK_ORDER[6] == id;
    case Check08 => assert CHECK_ORDER[7] == id;
    case Check09 => assert CHECK_ORDER[8] == id;
    case Check10 => assert CHECK_ORDER[9] == id;
    case Check11 => assert CHECK_ORDER[10] == id;
    case Check12 => assert CHECK_ORDER[11] == id;
    case Check13 => assert CHECK_ORDER[12] == id;
    case Check14 => assert CHECK_ORDER[13] == id;
    case Check15 => assert CHECK_ORDER[14] == id;
    case Check16 => assert CHECK_ORDER[15] == id;
  }
}
