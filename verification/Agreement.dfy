/** What a reconciliation agrees to, over the rows alone: cash that covers the recorded
    unsettled proceeds, orders that both sides know, positions that moved by their fills, and
    holds that are explained. */
module Agreement {
  import opened Calendar
  import opened Compare
  import opened Decision
  import opened Domain
  import opened Execution
  import Gates
  import opened Guard
  import opened LedgerRuns
  import opened LedgerSteps
  import opened Liquidity
  import opened Orchestration
  import Proceeds
  import opened Reconcile
  import opened Records
  import Reports
  import opened Requirements
  import ReserveRuns
  import opened Results
  import opened Sums
  import opened Tables
  import opened Unresolved

  /** States in which the broker may still work an order. */
  const LIVE := {OrderState.New, OrderState.Accepted, OrderState.PartiallyFilled, OrderState.Unknown,
                 OrderState.UnknownRequiresReview, OrderState.Submitted}

  // ---- cash ----

  predicate CashCovers(x: Inputs) {
    x.cash >= SumBy(x.events, SettlesAfter(x.asOf))
  }

  lemma CashIff(x: Inputs)
    ensures CashInconsistent(x) <==> !CashCovers(x)
  {
    hide SortedDays, Schedule, RelevantDates, Unsettled;
    UnsettledIsAfter(x.events, x.asOf);
  }

  // ---- orders ----

  /** The id is that of a reservation in force, or of an order that got lost. */
  predicate KnownLocally(x: Inputs, id: OrderId) {
    || (exists r <- x.reservations :: r.clientOrderId == Some(id))
    || (exists u <- x.unknown :: u.clientOrderId == id)
  }

  predicate OrdersKnown(x: Inputs) {
    forall o <- x.orders ::
      o.mappedState != OrderState.Unknown && (o.mappedState in LIVE ==> KnownLocally(x, o.clientOrderId))
  }

  predicate Awaited(u: UnknownRow) {
    u.state == OrderState.Submitted || u.state == OrderState.Unknown || u.state == OrderState.UnknownRequiresReview
  }

  predicate AwaitedAreThere(x: Inputs) {
    forall u <- x.unknown | Awaited(u) :: exists o <- x.orders :: o.clientOrderId == u.clientOrderId
  }

  lemma OrdersIff(x: Inputs)
    ensures OrdersVerdict(x.orders, LocalClientIds(x)) == Agrees <==> OrdersKnown(x)
    ensures OrdersVerdict(x.orders, LocalClientIds(x)) == NeedsReview <==> exists o <- x.orders :: o.mappedState == OrderState.Unknown
  {
    forall o <- x.orders ensures Foreign(o, LocalClientIds(x)) <==> o.mappedState in LIVE && !KnownLocally(x, o.clientOrderId) {
      ForeignIff(x, o);
    }
  }

  lemma ForeignIff(x: Inputs, o: BrokerRow)
    ensures Foreign(o, LocalClientIds(x)) <==> o.mappedState in LIVE && !KnownLocally(x, o.clientOrderId)
  {
    LocalIff(x, o.clientOrderId);
  }

  lemma LocalIff(x: Inputs, id: OrderId)
    ensures id in LocalClientIds(x) <==> KnownLocally(x, id)
  {
  }

  lemma AwaitedIff(x: Inputs)
    ensures SubmittedIds(x) <= BrokerIds(x) <==> AwaitedAreThere(x)
  {
    if SubmittedIds(x) <= BrokerIds(x) {
      forall u <- x.unknown | Awaited(u) ensures exists o <- x.orders :: o.clientOrderId == u.clientOrderId {
        assert u.clientOrderId in SubmittedIds(x);
      }
    }
  }

  // ---- positions ----

  /** Filled since the last stamp, bought less sold. */
  function UnstampedFill(s: Symbol): ExecutionOrder -> real {
    (o: ExecutionOrder) =>
      if o.symbol != s then 0.0 else if o.side == Buy then o.filled - o.reconciledFilled else 0.0 - (o.filled - o.reconciledFilled)
  }

  ghost predicate MovedByFills(x: Inputs) {
    x.previous.Some? ==>
      forall s :: Held(x.positions, s) == Held(x.previous.value, s) + SumBy(x.executions, UnstampedFill(s))
  }

  lemma MovedIff(x: Inputs)
    requires x.previous.Some?
    ensures (forall s :: !Moved(x, s)) <==> MovedByFills(x)
  {
    forall s
      ensures Moved(x, s) <==> Held(x.positions, s) != Held(x.previous.value, s) + SumBy(x.executions, UnstampedFill(s))
    {
      SumEq<ExecutionOrder>(x.executions, IncrementOf(s), UnstampedFill(s));
    }
  }

  // ---- holds ----

  /** An active reservation of a quantity of a symbol. */
  predicate ReservesShares(r: Reservation) {
    r.active && r.kind == SellQuantity && r.symbol.Some? && r.quantity.Some?
  }

  predicate ReservedIsHeld(x: Inputs) {
    forall r <- x.reservations | ReservesShares(r) :: exists h <- x.positions :: r.symbol == Some(h.symbol)
  }

  /** A live sell at the broker that no reservation of ours stands for. */
  predicate OthersSell(x: Inputs, o: BrokerRow) {
    && o.side == Sell && o.mappedState in LIVE
    && forall r <- x.reservations | ReservesShares(r) :: r.clientOrderId != Some(o.clientOrderId)
  }

  function OthersSelling(x: Inputs, s: Symbol): BrokerRow -> real {
    (o: BrokerRow) =>
      if OthersSell(x, o) && o.symbol == s && o.quantity.Some?
      then o.quantity.value - (if o.filled.Some? then o.filled.value else 0.0) else 0.0
  }

  function ReservedShares(s: Symbol): Reservation -> real {
    (r: Reservation) => if ReservesShares(r) && r.symbol == Some(s) then r.quantity.value else 0.0
  }

  predicate HoldIsSized(x: Inputs, h: Position) {
    h.available < h.quantity ==> forall o <- x.orders | OthersSell(x, o) && o.symbol == h.symbol :: o.quantity.Some?
  }

  predicate HoldIsExplained(x: Inputs, h: Position) {
    h.quantity - h.available <= SumBy(x.reservations, ReservedShares(h.symbol)) + SumBy(x.orders, OthersSelling(x, h.symbol))
  }

  lemma OtherSellIff(x: Inputs, o: BrokerRow)
    ensures OtherSell(o, ReservationIds(x.reservations)) <==> OthersSell(x, o)
  {
    if OtherSell(o, ReservationIds(x.reservations)) {
      forall r <- x.reservations | ReservesShares(r) ensures r.clientOrderId != Some(o.clientOrderId) {
        assert r.clientOrderId.Some? ==> r.clientOrderId.value in ReservationIds(x.reservations);
      }
    }
  }

  lemma HoldsIff(x: Inputs, h: Position)
    ensures var ids := ReservationIds(x.reservations);
            && (HoldUndeterminable(h, x.orders, ids) <==> !HoldIsSized(x, h))
            && (HoldUndeterminable(h, x.orders, ids) || HoldUnexplained(h, x.reservations, x.orders, ids)
                <==> !HoldIsSized(x, h) || (h.available < h.quantity && !HoldIsExplained(x, h)))
  {
    var ids := ReservationIds(x.reservations);
    forall o <- x.orders
      ensures OtherSell(o, ids) <==> OthersSell(x, o)
      ensures OtherSellOf(ids, h.symbol)(o) == OthersSelling(x, h.symbol)(o)
    {
      OtherSellIff(x, o);
    }
    SumEq<BrokerRow>(x.orders, OtherSellOf(ids, h.symbol), OthersSelling(x, h.symbol));
    SumEq<Reservation>(x.reservations, ActiveSellOf(h.symbol), ReservedShares(h.symbol));
  }

  // ---- the verdict ----

  predicate HoldsExplained(x: Inputs) {
    forall h <- x.positions | h.available < h.quantity :: HoldIsSized(x, h) && HoldIsExplained(x, h)
  }

  /** Nothing at all to object to. */
  ghost predicate InAgreement(x: Inputs) {
    && CashCovers(x) && OrdersKnown(x) && AwaitedAreThere(x) && MovedByFills(x) && ReservedIsHeld(x) && HoldsExplained(x)
    && forall u <- x.unknown :: u.state != OrderState.UnknownRequiresReview
  }

  /** What a human has to look at. */
  predicate ForReview(x: Inputs) {
    || (exists o <- x.orders :: o.mappedState == OrderState.Unknown)
    || !AwaitedAreThere(x)
    || (exists h <- x.positions :: !HoldIsSized(x, h))
    || (exists u <- x.unknown :: u.state == OrderState.UnknownRequiresReview)
  }

  lemma ReservedIff(x: Inputs)
    ensures ReservedVerdict(x.reservations, x.positions) == Agrees <==> ReservedIsHeld(x)
    ensures ReservedVerdict(x.reservations, x.positions) != NeedsReview
  {
    forall r <- x.reservations
      ensures ReservedWithoutPosition(r, x.positions)
              <==> ReservesShares(r) && forall h <- x.positions :: r.symbol != Some(h.symbol)
    {
      if Reserves(r) {
        HeldIff(x.positions, r.symbol.value);
      }
    }
  }

  lemma HeldIff(positions: seq<Position>, s: Symbol)
    ensures PositionOf(positions, s).None? <==> forall h <- positions :: h.symbol != s
  {
  }

  lemma HoldVerdictIff(x: Inputs)
    ensures var v := HoldVerdict(x.positions, x.reservations, x.orders, ReservationIds(x.reservations));
            && (v == Agrees <==> HoldsExplained(x))
            && (v == NeedsReview <==> exists h <- x.positions :: !HoldIsSized(x, h))
  {
    hide HoldUndeterminable, HoldUnexplained, HoldIsExplained, ReservationIds;
    forall h <- x.positions
      ensures var ids := ReservationIds(x.reservations);
              && (HoldUndeterminable(h, x.orders, ids) <==> !HoldIsSized(x, h))
              && (HoldUndeterminable(h, x.orders, ids) || HoldUnexplained(h, x.reservations, x.orders, ids)
                  <==> !HoldIsSized(x, h) || (h.available < h.quantity && !HoldIsExplained(x, h)))
              && (h.available >= h.quantity ==> HoldIsSized(x, h))
    {
      HoldsIff(x, h);
    }
  }

  lemma PositionsIff(x: Inputs)
    ensures PositionsMoved(x) <==> !MovedByFills(x)
  {
    hide Moved;
    if x.previous.Some? {
      MovedIff(x);
    }
  }

  /** RECONCILED exactly in agreement; in doubt exactly if there is something to review. Less
      cash than the recorded unsettled proceeds is never RECONCILED. */
  lemma VerdictIff(x: Inputs)
    ensures VerdictOf(x) == Agrees <==> InAgreement(x)
    ensures VerdictOf(x) == NeedsReview <==> ForReview(x)
    ensures x.cash < SumBy(x.events, SettlesAfter(x.asOf)) ==> VerdictOf(x) != Agrees
  {
    hide OrdersVerdict, HoldVerdict, ReservedVerdict, PositionsMoved, CashInconsistent, SubmittedIds, BrokerIds, LocalClientIds,
         OrdersKnown, AwaitedAreThere, MovedByFills, ReservedIsHeld, HoldsExplained, HoldIsSized, ReservationIds;
    CashIff(x);
    OrdersIff(x);
    AwaitedIff(x);
    PositionsIff(x);
    ReservedIff(x);
    HoldVerdictIff(x);
  }

  predicate MoreThanOrdered(quantity: Option<real>, filled: Option<real>) {
    quantity.Some? && filled.Some? && filled.value > quantity.value
  }

  /** The broker's answer contradicts itself exactly if a sell of others, or a row that got lost,
      has filled more than it is. */
  lemma InvalidIff(x: Inputs)
    ensures Invalid(x) <==>
              || (exists o <- x.orders :: OthersSell(x, o) && MoreThanOrdered(o.quantity, o.filled))
              || (exists u <- x.unknown :: MoreThanOrdered(u.quantity, u.filled))
  {
    hide OthersSell, ReservationIds;
    forall o <- x.orders
      ensures Overfilled(o, ReservationIds(x.reservations)) <==> OthersSell(x, o) && MoreThanOrdered(o.quantity, o.filled)
    {
      OtherSellIff(x, o);
    }
  }

  // ---- what is compared ----

  /** What a lookup makes of a lost order: nothing found or no answer is for review. */
  predicate LookedUp(u: UnknownOrder, view: View, r: UnknownRow) {
    && r.clientOrderId == u.clientOrderId && r.proposalId == u.proposalId
    && if u.state != OrderState.Unknown then r == u
       else if u.clientOrderId in view.answers && view.answers[u.clientOrderId].Found? then
         var o := view.answers[u.clientOrderId].order;
         r.symbol == o.symbol && r.side == o.side && r.state == o.mappedState && r.quantity == o.quantity && r.filled == o.filled
       else
         r.state == OrderState.UnknownRequiresReview && r.symbol == u.symbol && r.side == u.side
         && r.quantity == u.quantity && r.filled == u.filled
  }

  /** The comparison reads the view, the active reservations, the rows that were lost when it
      began, the events, the orders and the previous positions. */
  lemma InputsRead(t: Tables, prior: seq<UnknownOrder>, view: View, now: Instant)
    ensures var x := InputsOf(t, prior, view, now);
            && x.cash == view.cash && x.positions == view.positions && x.orders == view.orders
            && x.events == t.events && x.executions == t.orders && x.asOf == now / 86_400_000_000
            && x.previous == (if t.snapshot.Some? then Some(t.snapshot.value.positions) else None)
            && (forall r :: r in x.reservations <==> r in t.reservations && r.active)
            && |x.unknown| == |prior| && forall i | 0 <= i < |prior| :: LookedUp(prior[i], view, x.unknown[i])
  {
    AllActive(t.reservations);
  }

  // ---- a RECONCILED snapshot covers the recorded proceeds ----

  lemma AgreedCovers(t: Tables, prior: seq<UnknownOrder>, view: View, now: Instant)
    requires Judgement(t, prior, view, now) == Judged(Agrees)
    ensures view.cash >= SumBy(t.events, SettlesAfter(DateOf(now)))
  {
    hide VerdictOf, Invalid, InAgreement;
    VerdictIff(InputsOf(t, prior, view, now));
    InputsRead(t, prior, view, now);
  }

  lemma LaterOwesLess(events: seq<SettlementEvent>, from: Day, to: Day)
    requires from <= to
    ensures SumBy(events, SettlesAfter(to)) <= SumBy(events, SettlesAfter(from))
  {
    SumLe<SettlementEvent>(events, SettlesAfter(to), SettlesAfter(from));
  }

  /** On a snapshot that was just judged RECONCILED liquidity can be computed, on its date and
      every later one. */
  lemma AgreedIsLiquid(t: Tables, prior: seq<UnknownOrder>, view: View, now: Instant, cfg: Settings, call: Call, excluding: Option<string>)
    requires Judgement(t, prior, view, now) == Judged(Agrees) && now <= call.now
    ensures var u := ReconcileTables(t, prior, view, now);
            u.snapshot.Some? && LiquidityOf(ContextOf(u, cfg, call, excluding)).Ok?
  {
    hide Judgement, ReconcileTables, ContextOf, LiquidityOf;
    var u := ReconcileTables(t, prior, view, now);
    AgreedCovers(t, prior, view, now);
    Gates.VerdictIsStored(t, prior, view, now);
    VerdictShape(t, prior, view, now);
    Gates.ContextReads(u, cfg, call, excluding);
    LiquidityIs(ContextOf(u, cfg, call, excluding));
    LaterOwesLess(t.events, DateOf(now), DateOf(call.now));
  }

  /** How many events were recorded when the stored verdict was reached. */
  ghost function EventsThen(cfg: Settings, steps: seq<Step>): nat {
    if steps == [] then 0
    else
      var before, last := steps[..|steps| - 1], steps[|steps| - 1];
      var t := Run(EmptyTables(), cfg, before);
      if last.Reconcile? && Judgement(t, last.prior, last.view, last.now).Judged? then |t.events| else EventsThen(cfg, before)
  }

  lemma StepAddsEvents(t: Tables, cfg: Settings, step: Step)
    ensures var u := Apply(t, cfg, step); |t.events| <= |u.events| && u.events[..|t.events|] == t.events
    ensures !(step.Reconcile? && Judgement(t, step.prior, step.view, step.now).Judged?) ==> Apply(t, cfg, step).snapshot == t.snapshot
  {
    hide Judgement, ReconcileTables, EvaluateAndReserve, PersistIntents, ApplyOrder;
    match step
    case Reconcile(prior, view, now) =>
      Gates.VerdictIsStored(t, prior, view, now);
      VerdictShape(t, prior, view, now);
    case Reserve(p, call) => ReserveRuns.CallChanges(t, cfg, ReserveRuns.Request(p, call));
    case Start(p, call) => StartKeepsEvents(t, p, cfg, call);
    case OnOrder(order) => OrderAddsEvents(t, cfg.calendar, order);
  }

  lemma StartKeepsEvents(t: Tables, p: Proposal, cfg: Settings, call: Call)
    ensures PersistIntents(t, p, cfg, call).events == t.events && PersistIntents(t, p, cfg, call).snapshot == t.snapshot
  {
    hide MayStart, NewRows, FreshIds, HasCapacity;
  }

  lemma OrderAddsEvents(t: Tables, cal: TradingCalendar, step: OrderStep)
    ensures var u := ApplyOrder(t, cal, step);
            |t.events| <= |u.events| && u.events[..|t.events|] == t.events && u.snapshot == t.snapshot
  {
    hide ApplyOrder, ApplyReport, OrderFrame;
    StepFrame(t, cal, step);
    Gates.FrameAddsNothing(t, ApplyOrder(t, cal, step));
    if step.TakeReport? {
      Gates.TakeReportIs(t, cal, step);
      ReportAddsEvents(t, step.id, step.channel, step.report, step.now, cal);
    } else {
      Proceeds.LocalStepFrame(t, cal, step);
    }
  }

  lemma ReportAddsEvents(t: Tables, id: OrderId, channel: Channel, report: Report, now: Instant, cal: TradingCalendar)
    ensures var u := ApplyReport(t, id, channel, report, now, cal);
            |t.events| <= |u.events| && u.events[..|t.events|] == t.events
  {
    hide Reports.Accepted, Reports.BringsProceeds, Reports.RowTells, Reports.ValueAfter, ApplyReport, SettlementOn;
    var i := IndexOf(t.orders, id);
    if i.Some? {
      Reports.ReportAnswers(t, id, i.value, channel, report, now, cal);
    } else {
      NoReport(t, id, channel, report, now, cal);
    }
  }

  lemma NoReport(t: Tables, id: OrderId, channel: Channel, report: Report, now: Instant, cal: TradingCalendar)
    requires IndexOf(t.orders, id).None?
    ensures ApplyReport(t, id, channel, report, now, cal) == t
  {
  }

  /** Over every run: the stored snapshot, if RECONCILED, covers with its cash all proceeds that
      were recorded when it was judged and settle after its date. */
  lemma {:induction false} SnapshotsCoverProceeds(cfg: Settings, steps: seq<Step>)
    ensures var t := Run(EmptyTables(), cfg, steps);
            && EventsThen(cfg, steps) <= |t.events|
            && (t.snapshot.Some? && t.snapshot.value.reconciled ==>
                  t.snapshot.value.cash
                  >= SumBy(t.events[..EventsThen(cfg, steps)], SettlesAfter(DateOf(t.snapshot.value.capturedAt))))
  {
    hide Apply, Judgement, SumBy;
    if steps != [] {
      var before, last := steps[..|steps| - 1], steps[|steps| - 1];
      var t, u := Run(EmptyTables(), cfg, before), Run(EmptyTables(), cfg, steps);
      var n := EventsThen(cfg, before);
      SnapshotsCoverProceeds(cfg, before);
      StepAddsEvents(t, cfg, last);
      if last.Reconcile? && Judgement(t, last.prior, last.view, last.now).Judged? {
        JudgedCovers(t, cfg, last);
      } else {
        assert u.events[..n] == u.events[..|t.events|][..n] == t.events[..n];
      }
    }
  }

  lemma JudgedCovers(t: Tables, cfg: Settings, step: Step)
    requires step.Reconcile? && Judgement(t, step.prior, step.view, step.now).Judged?
    ensures var u := Apply(t, cfg, step);
            && u.snapshot.Some? && u.events == t.events && u.events[..|t.events|] == t.events
            && (u.snapshot.value.reconciled ==>
                  u.snapshot.value.cash >= SumBy(t.events, SettlesAfter(DateOf(u.snapshot.value.capturedAt))))
  {
    hide Judgement, ReconcileTables;
    Gates.VerdictIsStored(t, step.prior, step.view, step.now);
    VerdictShape(t, step.prior, step.view, step.now);
    if Judgement(t, step.prior, step.view, step.now).verdict.Agrees? {
      AgreedCovers(t, step.prior, step.view, step.now);
    }
  }
}
