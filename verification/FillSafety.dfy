/** The exhaustive subset loop of PartialFill against a linear test of the legs. Throughout,
    the proposal has passed the whole base evaluation. */
module FillSafety {
  import opened Domain
  import opened Guard
  import opened Liquidity
  import opened Money
  import opened PartialFill
  import opened Results
  import opened Subsets
  import opened Sums
  import opened Unresolved

  // ---- projected quantities of a fill ----

  function BoughtBy(legs: seq<Leg>, s: Symbol): real {
    SumBy(legs, BuyQuantityOf(s))
  }

  function SoldBy(legs: seq<Leg>, s: Symbol): real {
    SumBy(legs, SellQuantityOf(s))
  }

  lemma {:induction false} SignedIsBoughtMinusSold(legs: seq<Leg>, s: Symbol)
    ensures SumBy(legs, SignedQuantityOf(s)) == BoughtBy(legs, s) - SoldBy(legs, s)
  {
    if legs != [] {
      SignedIsBoughtMinusSold(legs[1..], s);
    }
  }

  lemma FillQuantities(legs: seq<Leg>, subset: seq<Leg>, s: Symbol)
    requires IsSubsequence(subset, legs)
    ensures 0.0 <= BoughtBy(subset, s) <= BoughtBy(legs, s)
    ensures 0.0 <= SoldBy(subset, s) <= SoldBy(legs, s)
  {
    SumNonNegative(subset, BuyQuantityOf(s));
    SumNonNegative(subset, SellQuantityOf(s));
    SubsequenceSum<Leg>(subset, legs, BuyQuantityOf(s));
    SubsequenceSum<Leg>(subset, legs, SellQuantityOf(s));
  }

  /** CHECK-10 leaves each symbol one side. */
  lemma OneSided(p: Proposal, c: PolicyContext, s: Symbol)
    requires NoOpposingSides(p, c)
    ensures BoughtBy(p.legs, s) == 0.0 || SoldBy(p.legs, s) == 0.0
  {
    if exists l <- p.legs :: l.symbol == s && l.side.Sell? {
      SumZero(p.legs, BuyQuantityOf(s));
    } else {
      SumZero(p.legs, SellQuantityOf(s));
    }
  }

  lemma MarketValueMonotone(a: real, b: real, price: real)
    requires a <= b && price > 0.0
    ensures MarketValue(a, price) <= MarketValue(b, price)
  {
    if a > 0.0 {
      ProductMonotone(a, b, price);
      RoundMoneyMonotone(a * price, b * price);
    } else if b > 0.0 {
      ProductNonNegative(b, price);
    }
  }

  lemma ValueMonotone(c: PolicyContext, a: seq<Leg>, b: seq<Leg>, s: Symbol)
    requires ProjectedQuantity(c.positions, a, s) <= ProjectedQuantity(c.positions, b, s)
    ensures ValueAfter(c, a, s) <= ValueAfter(c, b, s)
  {
    if s in c.prices {
      MarketValueMonotone(ProjectedQuantity(c.positions, a, s), ProjectedQuantity(c.positions, b, s), c.prices[s]);
    }
  }

  /** A partial fill leaves every value between the value before the trade and the value
      after the whole of it. */
  lemma FillIsBetween(p: Proposal, c: PolicyContext, subset: seq<Leg>, s: Symbol)
    requires NoOpposingSides(p, c) && IsSubsequence(subset, p.legs)
    ensures ValueAfter(c, [], s) <= ValueAfter(c, subset, s) <= ValueAfter(c, p.legs, s)
         || ValueAfter(c, p.legs, s) <= ValueAfter(c, subset, s) <= ValueAfter(c, [], s)
  {
    FillQuantities(p.legs, subset, s);
    OneSided(p, c, s);
    SignedIsBoughtMinusSold(p.legs, s);
    SignedIsBoughtMinusSold(subset, s);
    if SoldBy(p.legs, s) == 0.0 {
      ValueMonotone(c, [], subset, s);
      ValueMonotone(c, subset, p.legs, s);
    } else {
      ValueMonotone(c, p.legs, subset, s);
      ValueMonotone(c, subset, [], s);
    }
  }

  // ---- CHECK-04 by cross-multiplication ----

  /** The market value that a permitted holding may not exceed. */
  function ValueLimit(c: PolicyContext, pool: real): (v: real)
    requires pool > 0.0
    ensures v >= 0.0
  {
    ProductNonNegative(c.concentrationMax, pool);
    c.concentrationMax * pool
  }

  lemma ScaleCompare(a: real, b: real, pool: real)
    requires pool > 0.0
    ensures a > b <==> a * pool > b * pool
  {
    assert a * pool - b * pool == (a - b) * pool;
  }

  lemma FractionCompare(a: real, b: real, limit: real, pool: real)
    requires pool > 0.0
    ensures a / pool > limit <==> a > limit * pool
    ensures a / pool < b / pool <==> a < b
  {
    assert (a / pool) * pool == a && (b / pool) * pool == b;
    ScaleCompare(a / pool, limit, pool);
    ScaleCompare(b / pool, a / pool, pool);
  }

  predicate OverBefore(c: PolicyContext, pool: real, s: Symbol)
    requires pool > 0.0
  {
    s in c.permitted && ValueAfter(c, [], s) > ValueLimit(c, pool)
  }

  predicate OverAfter(c: PolicyContext, pool: real, legs: seq<Leg>, s: Symbol)
    requires pool > 0.0
  {
    s in c.permitted && ValueAfter(c, legs, s) > ValueLimit(c, pool)
  }

  lemma UnheldIsWorthless(c: PolicyContext, legs: seq<Leg>, s: Symbol)
    requires s !in SymbolsOf(c.positions, legs)
    ensures ValueAfter(c, legs, s) == 0.0
  {
    assert PositionOf(c.positions, s).None?;
    SumZero(legs, SignedQuantityOf(s));
  }

  lemma ValueBefore(c: PolicyContext, s: Symbol)
    ensures ValueAfter(c, [], s) == if s in c.prices then MarketValue(Held(c.positions, s), c.prices[s]) else 0.0
    ensures Held(c.positions, s) == 0.0 ==> ValueAfter(c, [], s) == 0.0
  {
    assert ProjectedQuantity(c.positions, [], s) == Held(c.positions, s);
  }

  lemma PreTradeIs(c: PolicyContext, pool: real, s: Symbol)
    requires pool > 0.0
    ensures s in PreTrade(c, pool) <==> s in c.permitted && s in c.prices && Held(c.positions, s) > 0.0
    ensures s in PreTrade(c, pool) ==> PreTrade(c, pool)[s] == MarketValue(Held(c.positions, s), c.prices[s]) / pool
  {
  }

  /** Before the trade: the fractions of CHECK-04 in terms of values. */
  lemma PreTradeValues(c: PolicyContext, pool: real, s: Symbol)
    requires pool > 0.0
    ensures s in PreTrade(c, pool) ==> PreTrade(c, pool)[s] == ValueAfter(c, [], s) / pool
    ensures OverBefore(c, pool, s) <==> s in PreTrade(c, pool) && PreTrade(c, pool)[s] > c.concentrationMax
  {
    hide ValueAfter, MarketValue, Held;
    ValueBefore(c, s);
    PreTradeIs(c, pool, s);
    FractionCompare(ValueAfter(c, [], s), 0.0, c.concentrationMax, pool);
  }

  lemma ProjectedIs(c: PolicyContext, legs: seq<Leg>, s: Symbol)
    requires s in c.prices
    ensures ValueAfter(c, legs, s) == ProjectedValue(c.positions, legs, c.prices, s)
  {
  }

  /** After a fill: the projected fractions in terms of values. */
  lemma ProjectedValues(c: PolicyContext, pool: real, legs: seq<Leg>, s: Symbol)
    requires pool > 0.0 && SymbolsOf(c.positions, legs) <= c.prices.Keys && s in c.permitted
    ensures var projected := Concentrations(c.positions, legs, c.prices, pool, c.permitted);
            && (s in projected ==> projected[s] == ValueAfter(c, legs, s) / pool)
            && (s !in projected ==> ValueAfter(c, legs, s) == 0.0)
            && (OverAfter(c, pool, legs, s) <==> s in projected && projected[s] > c.concentrationMax)
  {
    hide ValueAfter, ProjectedValue, SymbolsOf;
    if s !in SymbolsOf(c.positions, legs) {
      UnheldIsWorthless(c, legs, s);
    } else {
      ProjectedIs(c, legs, s);
    }
    FractionCompare(ValueAfter(c, legs, s), 0.0, c.concentrationMax, pool);
  }

  predicate DeRisking(c: PolicyContext, pool: real, legs: seq<Leg>)
    requires pool > 0.0
  {
    || (forall s <- c.permitted :: !OverAfter(c, pool, legs, s))
    || (&& (exists s <- c.permitted :: OverBefore(c, pool, s))
        && (forall s <- c.permitted | OverBefore(c, pool, s) :: ValueAfter(c, legs, s) < ValueAfter(c, [], s))
        && (forall s <- c.permitted | OverAfter(c, pool, legs, s) :: OverBefore(c, pool, s)))
  }

  lemma StrictlyImproved(c: PolicyContext, pool: real, legs: seq<Leg>, s: Symbol)
    requires pool > 0.0 && SymbolsOf(c.positions, legs) <= c.prices.Keys
    requires OverBefore(c, pool, s) && s in PreTrade(c, pool)
    ensures var projected := Concentrations(c.positions, legs, c.prices, pool, c.permitted);
            FractionOf(projected, s) < PreTrade(c, pool)[s]
            <==> ValueAfter(c, legs, s) < ValueAfter(c, [], s)
  {
    PreTradeValues(c, pool, s);
    ProjectedValues(c, pool, legs, s);
    FractionCompare(ValueAfter(c, legs, s), ValueAfter(c, [], s), 0.0, pool);
    FractionCompare(ValueAfter(c, [], s), 0.0, 0.0, pool);
  }

  lemma OffendersByValues(c: PolicyContext, pool: real, legs: seq<Leg>, s: Symbol)
    requires pool > 0.0 && SymbolsOf(c.positions, legs) <= c.prices.Keys
    ensures s in Over(PreTrade(c, pool), c.concentrationMax) <==> OverBefore(c, pool, s)
    ensures s in Over(Concentrations(c.positions, legs, c.prices, pool, c.permitted), c.concentrationMax)
       <==> OverAfter(c, pool, legs, s)
  {
    PreTradeValues(c, pool, s);
    if s in c.permitted {
      ProjectedValues(c, pool, legs, s);
    }
  }

  /** CHECK-04 on a positive pool, without fractions. */
  lemma ConcentrationByValues(p: Proposal, c: PolicyContext)
    requires LiquidityOf(c).Ok? && PricesKnown(p, c) && Pool(c).Ok? && Pool(c).value > 0.0
    ensures ConcentrationAllowed(p, c) <==> DeRisking(c, Pool(c).value, p.legs)
  {
    var pool := Pool(c).value;
    var projected := Concentrations(c.positions, p.legs, c.prices, pool, c.permitted);
    var preOffenders := Over(PreTrade(c, pool), c.concentrationMax);
    var offenders := Over(projected, c.concentrationMax);
    forall s: Symbol
      ensures s in preOffenders <==> OverBefore(c, pool, s)
      ensures s in offenders <==> OverAfter(c, pool, p.legs, s)
    {
      OffendersByValues(c, pool, p.legs, s);
    }
    forall s <- preOffenders
      ensures FractionOf(projected, s) < PreTrade(c, pool)[s]
              <==> ValueAfter(c, p.legs, s) < ValueAfter(c, [], s)
    {
      StrictlyImproved(c, pool, p.legs, s);
    }
  }

  // ---- the controls that no fill can break ----

  lemma BaseDerivable(p: Proposal, c: PolicyContext)
    requires BasePasses(p, c)
    ensures LiquidityOf(c).Ok? && SellEvents(p, c).Ok? && PricesKnown(p, c) && Pool(c).Ok?
    ensures p.HasSells() ==> CoverageDerivable(p, c)
  {
    BaseMeans(p, c, Check02);
    BaseMeans(p, c, Check04);
  }

  lemma FillSettles(p: Proposal, c: PolicyContext, subset: seq<Leg>)
    requires SellEvents(p, c).Ok? && IsSubsequence(subset, p.legs)
    ensures SellEvents(FillOf(p, subset), c).Ok?
  {
    SubsequenceMembers<Leg>(subset, p.legs);
  }

  lemma FillIsFunded(p: Proposal, c: PolicyContext, subset: seq<Leg>)
    requires CashFundsBuys(p, c) && IsSubsequence(subset, p.legs)
    ensures CashFundsBuys(FillOf(p, subset), c)
  {
    SubsequenceSum<Leg>(subset, p.legs, BuyNotionalOf());
  }

  /** Checks 01, 02, 06 and 11 hold of every fill. */
  lemma FillKeepsCash(p: Proposal, c: PolicyContext, subset: seq<Leg>)
    requires BasePasses(p, c) && IsSubsequence(subset, p.legs)
    ensures Passes(Check01, FillOf(p, subset), c) && Passes(Check02, FillOf(p, subset), c)
    ensures Passes(Check06, FillOf(p, subset), c) && Passes(Check11, FillOf(p, subset), c)
  {
    BaseDerivable(p, c);
    BaseMeans(p, c, Check01);
    FillSettles(p, c, subset);
    FillPricesKnown(p, c, subset);
    FillIsFunded(p, c, subset);
    CashCheckDominates(FillOf(p, subset), c);
  }

  lemma FillStaysLong(p: Proposal, c: PolicyContext, subset: seq<Leg>, s: Symbol)
    requires NoOpposingSides(p, c) && IsSubsequence(subset, p.legs)
    requires ProjectedQuantity(c.positions, p.legs, s) >= 0.0
    ensures ProjectedQuantity(c.positions, subset, s) >= 0.0
  {
    FillQuantities(p.legs, subset, s);
    OneSided(p, c, s);
    SignedIsBoughtMinusSold(p.legs, s);
    SignedIsBoughtMinusSold(subset, s);
  }

  /** CHECK-16 holds of every fill. */
  lemma FillKeepsLongOnly(p: Proposal, c: PolicyContext, subset: seq<Leg>)
    requires BasePasses(p, c) && IsSubsequence(subset, p.legs)
    ensures Passes(Check16, FillOf(p, subset), c)
  {
    BaseMeans(p, c, Check10);
    BaseMeans(p, c, Check16);
    SubsequenceMembers<Leg>(subset, p.legs);
    var q := FillOf(p, subset);
    forall s <- SymbolsOf(c.positions, q.legs) ensures ProjectedQuantity(c.positions, q.legs, s) >= 0.0 {
      assert s in SymbolsOf(c.positions, p.legs);
      FillStaysLong(p, c, subset, s);
    }
    forall l <- q.legs | l.side.Sell? ensures SellAllowed(q, c, l.symbol) {
      assert SellAllowed(p, c, l.symbol);
      FillQuantities(p.legs, subset, l.symbol);
    }
  }

  /** Every obligation stays covered whichever sells fill, none of them included. */
  lemma FillStaysCovered(p: Proposal, c: PolicyContext, fills: seq<Leg>)
    requires CashFundsBuys(p, c) && CoverageDerivable(p, c)
    ensures Covers(p, c, fills)
  {
    var l := LiquidityOf(c).value;
    var settlement := Calendar.SettlementDate(c.calendar, DateOf(c.now)).value;
    forall o <- l.obligations ensures AvailableWithFills(p, c, fills, o.dueDate) >= 0.0 {
      CashCheckCoversDay(p, c, [], o.dueDate);
      SumNonNegative(fills, ProceedsBy(p, settlement, o.dueDate));
    }
  }

  lemma EvaluateMeans(q: Proposal, c: PolicyContext, only: set<CheckId>)
    requires !c.killSwitch
    ensures Evaluate(q, c, only) == {} <==> forall id <- only :: Passes(id, q, c)
  {
    var failing := Evaluate(q, c, only);
    assert forall id :: id in failing <==> id in only && !Passes(id, q, c);
  }

  lemma OnlyConcentration(q: Proposal, c: PolicyContext)
    requires !c.killSwitch
    requires Passes(Check01, q, c) && Passes(Check02, q, c) && Passes(Check06, q, c)
    requires Passes(Check11, q, c) && Passes(Check16, q, c)
    ensures Evaluate(q, c, PARTIAL_FILL_CHECKS) == {} <==> Passes(Check04, q, c)
  {
    hide Passes;
    EvaluateMeans(q, c, PARTIAL_FILL_CHECKS);
  }

  /** Only concentration can make a fill unsafe. */
  lemma FillSafetyIsConcentration(p: Proposal, c: PolicyContext, subset: seq<Leg>)
    requires BasePasses(p, c) && IsSubsequence(subset, p.legs)
    requires p.HasSells() ==> CoverageDerivable(p, c)
    ensures SubsetSafe(p, c, subset) <==> ConcentrationAllowed(FillOf(p, subset), c)
  {
    hide Evaluate, ConcentrationAllowed, LongOnly, ReserveHoldsOnLedgerDates, NoLeverage, WithinFundingCeiling, Covers;
    FillKeepsCash(p, c, subset);
    FillKeepsLongOnly(p, c, subset);
    BaseMeans(p, c, Check00);
    OnlyConcentration(FillOf(p, subset), c);
    if p.HasSells() {
      BaseMeans(p, c, Check01);
      FillStaysCovered(p, c, SellLegs(subset));
    }
  }

  // ---- concentration of a fill ----

  lemma FillPricesKnown(p: Proposal, c: PolicyContext, subset: seq<Leg>)
    requires PricesKnown(p, c) && IsSubsequence(subset, p.legs)
    ensures PricesKnown(FillOf(p, subset), c)
  {
    SubsequenceMembers<Leg>(subset, p.legs);
  }

  predicate AllImproved(c: PolicyContext, pool: real, legs: seq<Leg>)
    requires pool > 0.0
  {
    forall s <- c.permitted | OverBefore(c, pool, s) :: ValueAfter(c, legs, s) < ValueAfter(c, [], s)
  }

  /** A fill of a proposal that passes never creates an offender, so it passes exactly
      when it strictly improves every holding that was over the limit. */
  lemma FillPassesIffImproved(p: Proposal, c: PolicyContext, pool: real, subset: seq<Leg>)
    requires pool > 0.0 && NoOpposingSides(p, c) && DeRisking(c, pool, p.legs)
    requires IsSubsequence(subset, p.legs)
    ensures DeRisking(c, pool, subset) <==> AllImproved(c, pool, subset)
  {
    forall s <- c.permitted | OverAfter(c, pool, subset, s) ensures OverBefore(c, pool, s) {
      FillIsBetween(p, c, subset, s);
    }
  }

  lemma OtherSymbolUntouched(c: PolicyContext, l: Leg, s: Symbol)
    requires l.symbol != s
    ensures ValueAfter(c, [l], s) == ValueAfter(c, [], s)
  {
    var one: seq<Leg> := [l];
    SumZero(one, SignedQuantityOf(s));
  }

  lemma BuyNeverLowers(c: PolicyContext, l: Leg, s: Symbol)
    requires l.side.Buy?
    ensures ValueAfter(c, [l], s) >= ValueAfter(c, [], s)
  {
    var one: seq<Leg> := [l];
    SumNonNegative(one, SignedQuantityOf(s));
    ValueMonotone(c, [], one, s);
  }

  /** A leg that on its own strictly lowers the value of a holding. */
  predicate Lowers(c: PolicyContext, l: Leg, s: Symbol) {
    l.side.Sell? && l.symbol == s && ValueAfter(c, [l], s) < ValueAfter(c, [], s)
  }

  lemma LowersIffImproves(c: PolicyContext, l: Leg, s: Symbol)
    ensures Lowers(c, l, s) <==> ValueAfter(c, [l], s) < ValueAfter(c, [], s)
  {
    if l.symbol != s {
      OtherSymbolUntouched(c, l, s);
    } else if l.side.Buy? {
      BuyNeverLowers(c, l, s);
    }
  }

  /** One sufficient sell is enough: more sells only lower the value further. */
  lemma MoreSellsLower(c: PolicyContext, legs: seq<Leg>, s: Symbol)
    requires legs != [] && forall l <- legs :: Lowers(c, l, s)
    ensures ValueAfter(c, legs, s) < ValueAfter(c, [], s)
  {
    var first, rest: seq<Leg> := [legs[0]], legs[1..];
    assert forall l <- rest :: l in legs && Lowers(c, l, s);
    SignedIsBoughtMinusSold(rest, s);
    SumZero(rest, BuyQuantityOf(s));
    SumNonNegative(rest, SellQuantityOf(s));
    SumAppend<Leg>(first, rest, SignedQuantityOf(s));
    assert legs == first + rest;
    ValueMonotone(c, legs, first, s);
    assert Lowers(c, legs[0], s);
  }

  // ---- the linear test ----

  /** One pass over the holdings and one over the legs. */
  predicate LinearTest(p: Proposal, c: PolicyContext)
    requires Pool(c).Ok?
  {
    var pool := Pool(c).value;
    pool <= 0.0 ||
    var over := Over(PreTrade(c, pool), c.concentrationMax);
    over == {} || exists s <- over :: over == {s} && forall l <- p.legs :: Lowers(c, l, s)
  }

  lemma OverIsOverBefore(c: PolicyContext, pool: real)
    requires pool > 0.0
    ensures forall s :: s in Over(PreTrade(c, pool), c.concentrationMax) <==> s in c.permitted && OverBefore(c, pool, s)
  {
    forall s: Symbol
      ensures s in Over(PreTrade(c, pool), c.concentrationMax) <==> s in c.permitted && OverBefore(c, pool, s)
    {
      PreTradeValues(c, pool, s);
    }
  }

  lemma LinearTestSuffices(p: Proposal, c: PolicyContext, pool: real, subset: seq<Leg>)
    requires Pool(c) == Ok(pool) && pool > 0.0 && LinearTest(p, c)
    requires subset != [] && IsSubsequence(subset, p.legs)
    ensures AllImproved(c, pool, subset)
  {
    OverIsOverBefore(c, pool);
    SubsequenceMembers<Leg>(subset, p.legs);
    forall s <- c.permitted | OverBefore(c, pool, s) ensures ValueAfter(c, subset, s) < ValueAfter(c, [], s) {
      MoreSellsLower(c, subset, s);
    }
  }

  lemma SingleFillsDecide(p: Proposal, c: PolicyContext, pool: real)
    requires Pool(c) == Ok(pool) && pool > 0.0
    requires p.legs != []
    requires forall l <- p.legs :: AllImproved(c, pool, [l])
    ensures LinearTest(p, c)
  {
    hide ValueAfter, Over, PreTrade, ValueLimit, Pool, Lowers;
    var over := Over(PreTrade(c, pool), c.concentrationMax);
    forall l <- p.legs, t <- over ensures Lowers(c, l, t) && l.symbol == t {
      OverIsOverBefore(c, pool);
      assert AllImproved(c, pool, [l]);
      LowersIffImproves(c, l, t);
      LoweringSells(c, l, t);
    }
    if over != {} {
      var s :| s in over;
      assert forall t <- over :: p.legs[0].symbol == t;
      assert over == {s};
    }
  }

  lemma LoweringSells(c: PolicyContext, l: Leg, s: Symbol)
    requires Lowers(c, l, s)
    ensures l.symbol == s
  {
    hide ValueAfter;
  }

  lemma NoLegImprovesNothing(c: PolicyContext, pool: real)
    requires pool > 0.0 && AllImproved(c, pool, [])
    ensures Over(PreTrade(c, pool), c.concentrationMax) == {}
  {
    OverIsOverBefore(c, pool);
  }

  /** Every non-empty fill improves exactly when every single leg does. */
  lemma EveryFillImproves(p: Proposal, c: PolicyContext, pool: real)
    requires Pool(c) == Ok(pool) && pool > 0.0
    requires AllImproved(c, pool, p.legs)
    ensures LinearTest(p, c) <==> forall s: seq<Leg> | s != [] && IsSubsequence(s, p.legs) :: AllImproved(c, pool, s)
  {
    if LinearTest(p, c) {
      forall s: seq<Leg> | s != [] && IsSubsequence(s, p.legs) ensures AllImproved(c, pool, s) {
        LinearTestSuffices(p, c, pool, s);
      }
    } else if forall s: seq<Leg> | s != [] && IsSubsequence(s, p.legs) :: AllImproved(c, pool, s) {
      if p.legs == [] {
        NoLegImprovesNothing(c, pool);
      } else {
        forall l <- p.legs ensures AllImproved(c, pool, [l]) {
          var i :| 0 <= i < |p.legs| && p.legs[i] == l;
          SingletonIsSubsequence<Leg>(p.legs, i);
        }
        SingleFillsDecide(p, c, pool);
      }
    }
  }

  // ---- the pool that is empty ----

  lemma HoldingIsMarketValue(p: Position, c: PolicyContext)
    requires p.symbol in c.permitted && p.symbol in c.prices
    ensures HoldingValue(p, c.prices, c.permitted) == MarketValue(p.quantity, c.prices[p.symbol])
  {
    if p.quantity == 0.0 {
      RoundMoneyNearZero(p.quantity * c.prices[p.symbol]);
    }
  }

  lemma EmptyPoolIsEmpty(c: PolicyContext)
    requires Pool(c).Ok? && Pool(c).value <= 0.0
    ensures LiquidityOf(c).value.investableCash <= 0.0
    ensures SumBy(c.positions, HoldingValueOf(c.prices, c.permitted)) <= 0.0
  {
    SumNonNegative(c.positions, HoldingValueOf(c.prices, c.permitted));
  }

  lemma EmptyPoolHoldsNothing(c: PolicyContext, s: Symbol)
    requires Pool(c).Ok? && Pool(c).value <= 0.0 && s in c.permitted
    ensures ValueAfter(c, [], s) <= 0.0
  {
    if s in c.prices {
      ValueBefore(c, s);
      var held := PositionOf(c.positions, s);
      if held.Some? {
        EmptyPoolIsEmpty(c);
        var i :| 0 <= i < |c.positions| && c.positions[i] == held.value;
        TermLeSum(c.positions, i, HoldingValueOf(c.prices, c.permitted));
        HoldingIsMarketValue(held.value, c);
      }
    }
  }

  /** Without a pool base every fill of a passing proposal passes CHECK-04. */
  lemma EmptyPoolFills(p: Proposal, c: PolicyContext, subset: seq<Leg>)
    requires BasePasses(p, c) && IsSubsequence(subset, p.legs)
    requires Pool(c).Ok? && Pool(c).value <= 0.0
    ensures ConcentrationAllowed(FillOf(p, subset), c)
  {
    BaseMeans(p, c, Check03);
    BaseMeans(p, c, Check04);
    BaseMeans(p, c, Check10);
    FillPricesKnown(p, c, subset);
    SubsequenceMembers<Leg>(subset, p.legs);
    forall s <- SymbolsOf(c.positions, subset) ensures ValueAfter(c, subset, s) <= 0.0 {
      EmptyPoolFill(p, c, subset, s);
    }
  }

  lemma UntradedKeepsValue(p: Proposal, c: PolicyContext, s: Symbol)
    requires Whitelisted(p, c) && s !in c.permitted
    ensures ValueAfter(c, p.legs, s) == ValueAfter(c, [], s)
  {
    SumZero(p.legs, SignedQuantityOf(s));
  }

  lemma EmptyPoolFill(p: Proposal, c: PolicyContext, subset: seq<Leg>, s: Symbol)
    requires Whitelisted(p, c) && NoOpposingSides(p, c) && IsSubsequence(subset, p.legs)
    requires Pool(c).Ok? && Pool(c).value <= 0.0
    requires ValueAfter(c, p.legs, s) <= 0.0
    ensures ValueAfter(c, subset, s) <= 0.0
  {
    if s in c.permitted {
      hide *;
      FillIsBetween(p, c, subset, s);
      EmptyPoolHoldsNothing(c, s);
    } else {
      UntradedKeepsValue(p, c, s);
      hide *;
      FillIsBetween(p, c, subset, s);
    }
  }

  // ---- the main theorem ----

  lemma PositivePoolFills(p: Proposal, c: PolicyContext, pool: real, subset: seq<Leg>)
    requires BasePasses(p, c) && IsSubsequence(subset, p.legs)
    requires LiquidityOf(c).Ok? && Pool(c) == Ok(pool) && pool > 0.0
    ensures ConcentrationAllowed(FillOf(p, subset), c) <==> AllImproved(c, pool, subset)
  {
    BaseMeans(p, c, Check04);
    BaseMeans(p, c, Check10);
    FillPricesKnown(p, c, subset);
    ConcentrationByValues(p, c);
    ConcentrationByValues(FillOf(p, subset), c);
    FillPassesIffImproved(p, c, pool, subset);
  }

  lemma WholeIsSubsequence<T>(xs: seq<T>)
    ensures IsSubsequence(xs, xs)
  {
  }

  /** For a proposal that passes the base guard, the exhaustive loop over its fills gives
      the verdict of the linear test: nothing is over the concentration limit before the
      trade, or one holding is and every leg sells it by an amount that lowers it alone. */
  lemma ExhaustiveIsLinear(p: Proposal, c: PolicyContext)
    requires BasePasses(p, c)
    ensures Pool(c).Ok? && (p.HasSells() ==> CoverageDerivable(p, c))
    ensures EverySubsetSafe(p, c) <==> LinearTest(p, c)
  {
    BaseDerivable(p, c);
    var pool := Pool(c).value;
    if p.HasSells() {
      BaseMeans(p, c, Check01);
      FillStaysCovered(p, c, []);
    }
    forall s: seq<Leg> | IsSubsequence(s, p.legs)
      ensures SubsetSafe(p, c, s) <==> ConcentrationAllowed(FillOf(p, s), c)
    {
      FillSafetyIsConcentration(p, c, s);
    }
    if pool <= 0.0 {
      forall s: seq<Leg> | s != [] && IsSubsequence(s, p.legs) ensures SubsetSafe(p, c, s) {
        EmptyPoolFills(p, c, s);
      }
    } else {
      forall s: seq<Leg> | IsSubsequence(s, p.legs)
        ensures ConcentrationAllowed(FillOf(p, s), c) <==> AllImproved(c, pool, s)
      {
        PositivePoolFills(p, c, pool, s);
      }
      WholeIsSubsequence<Leg>(p.legs);
      BaseMeans(p, c, Check04);
      assert FillOf(p, p.legs) == p;
      EveryFillImproves(p, c, pool);
    }
  }
}
