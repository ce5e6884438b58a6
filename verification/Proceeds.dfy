/** Sale proceeds over whole runs: the settlement events of an order add up to what its
    fills were worth, floored to cents once (backend/opaca/execution/service.py:893-974). */
module Proceeds {
  import opened Calendar
  import opened CapacitySteps
  import opened Capacity
  import opened Compare
  import opened Decision
  import opened Domain
  import opened Execution
  import opened LedgerRuns
  import opened LedgerSteps
  import opened Liquidity
  import opened Money
  import opened Orchestration
  import opened Reconcile
  import ReserveRuns
  import opened Records
  import opened Results
  import opened States
  import opened Sums
  import opened Sync
  import opened Tables

  predicate IsFillOf(e: SettlementEvent, id: OrderId) {
    e.eventId.FillKey? && e.eventId.order == id
  }

  function EventsOf(id: OrderId): SettlementEvent -> real {
    (e: SettlementEvent) => if IsFillOf(e, id) then e.amount else 0.0
  }

  function Recorded(t: Tables, id: OrderId): real {
    SumBy(t.events, EventsOf(id))
  }

  /** A fill event belongs to an order that has filled at least that much. */
  predicate FromFill(t: Tables, e: SettlementEvent) {
    e.eventId.FillKey? ==> exists o <- t.orders :: o.id == e.eventId.order && e.eventId.filled <= o.filled
  }

  predicate FromOrder(t: Tables, e: SettlementEvent) {
    e.eventId.FillKey? ==> exists o <- t.orders :: o.id == e.eventId.order
  }

  /** The events of every order sum to its settled proceeds. */
  ghost predicate Balanced(t: Tables) {
    && DistinctOrders(t.orders)
    && (forall e <- t.events :: FromOrder(t, e))
    && (forall o <- t.orders :: Recorded(t, o.id) == o.settledProceeds)
  }

  ghost predicate ProceedsInv(t: Tables) {
    Balanced(t) && forall e <- t.events :: FromFill(t, e)
  }

  // ---- one report ----

  function Max(a: real, b: real): real {
    if a < b then b else a
  }

  lemma NoEarlierEvent(t: Tables, i: nat, filled: real)
    requires ProceedsInv(t) && i < |t.orders| && filled > t.orders[i].filled
    ensures !HasEvent(t.events, FillKey(t.orders[i].id, filled))
  {
    forall e <- t.events ensures e.eventId != FillKey(t.orders[i].id, filled) {
      assert FromFill(t, e);
    }
  }

  predicate SettlesNow(t: Tables, i: nat)
    requires i < |t.orders|
  {
    var o := t.orders[i];
    && o.side.Sell? && o.filled > 0.0 && FilledProceeds(o) > o.settledProceeds
    && !HasEvent(t.events, FillKey(o.id, o.filled))
  }

  /** What settling a fill does. */
  lemma SettleShape(t: Tables, i: nat, now: Instant, cal: TradingCalendar)
    requires i < |t.orders| && SettleSale(t, i, now, cal).Ok?
    ensures var o, u := t.orders[i], SettleSale(t, i, now, cal).value;
            if SettlesNow(t, i) then
              && |u.events| == |t.events| + 1 && u.events[..|t.events|] == t.events
              && IsFillOf(u.events[|t.events|], o.id)
              && u.events[|t.events|].amount == FilledProceeds(o) - o.settledProceeds
              && u.orders == t.orders[i := o.(settledProceeds := FilledProceeds(o))]
            else u == t
  {
    hide FilledProceeds;
  }

  lemma SettlesMeans(t: Tables, i: nat)
    requires i < |t.orders| && t.orders[i].filled > 0.0
    ensures var o := t.orders[i];
            SettlesNow(t, i) <==> o.side.Sell? && FilledProceeds(o) > o.settledProceeds && !HasEvent(t.events, FillKey(o.id, o.filled))
  {
  }

  lemma OneMoreEvent(t: Tables, u: Tables, id: OrderId)
    requires |u.events| == |t.events| + 1 && u.events[..|t.events|] == t.events
    ensures Recorded(u, id) == Recorded(t, id) + EventsOf(id)(u.events[|t.events|])
  {
    var e := u.events[|t.events|];
    assert u.events == t.events + [e];
    SumSnoc<SettlementEvent>(t.events, e, EventsOf(id));
  }

  /** On any tables: a report that raises the fill of a sell to a size that was not settled yet
      raises the settled proceeds to the floored value of the fill, unless they are there
      already; any other report adds nothing. The events record exactly what is added. */
  lemma ReportAdds(t: Tables, i: nat, channel: Channel, report: Report, now: Instant, cal: TradingCalendar)
    requires i < |t.orders| && RecordReport(t, i, channel, report, now, cal).Ok?
    ensures var u := RecordReport(t, i, channel, report, now, cal).value;
            var before, after := t.orders[i], u.orders[i];
            var first := !HasEvent(t.events, FillKey(before.id, after.filled));
            && after.settledProceeds == (if after.filled > before.filled && before.side.Sell? && first
                                         then Max(before.settledProceeds, FilledProceeds(after)) else before.settledProceeds)
            && Recorded(u, before.id) == Recorded(t, before.id) + (after.settledProceeds - before.settledProceeds)
            && (forall other | other != before.id :: Recorded(u, other) == Recorded(t, other))
            && (forall e <- u.events :: e in t.events || IsFillOf(e, before.id))
  {
    hide SettleSale, FilledProceeds, SettlesNow;
    var u := RecordReport(t, i, channel, report, now, cal).value;
    var before := t.orders[i];
    var updated := Reported(channel, before, report).value;
    var written := t.(orders := t.orders[i := updated]);
    assert forall id :: Recorded(written, id) == Recorded(t, id);
    if updated.filled > before.filled {
      SettleShape(written, i, now, cal);
      SameProceedsValue(updated, u.orders[i]);
      SettlesMeans(written, i);
      if |u.events| == |t.events| + 1 {
        forall id: OrderId ensures Recorded(u, id) == Recorded(t, id) + EventsOf(id)(u.events[|t.events|]) {
          OneMoreEvent(t, u, id);
        }
        assert u.events == t.events + [u.events[|t.events|]];
      }
    }
  }

  /** A report that raises the fill of a sell raises its recorded proceeds to the floored
      value of the fill, unless they are there already; any other report adds nothing. */
  lemma ReportRecords(t: Tables, i: nat, channel: Channel, report: Report, now: Instant, cal: TradingCalendar)
    requires ProceedsInv(t) && i < |t.orders| && RecordReport(t, i, channel, report, now, cal).Ok?
    ensures var u := RecordReport(t, i, channel, report, now, cal).value;
            var before, after := t.orders[i], u.orders[i];
            && after.settledProceeds == (if after.filled > before.filled && before.side.Sell?
                                         then Max(before.settledProceeds, FilledProceeds(after)) else before.settledProceeds)
            && Recorded(u, before.id) == Recorded(t, before.id) + (after.settledProceeds - before.settledProceeds)
            && forall other | other != before.id :: Recorded(u, other) == Recorded(t, other)
  {
    hide RecordReport, FilledProceeds, ProceedsInv;
    ReportAdds(t, i, channel, report, now, cal);
    RecordShape(t, i, channel, report, now, cal);
    var filled := RecordReport(t, i, channel, report, now, cal).value.orders[i].filled;
    if filled > t.orders[i].filled {
      NoEarlierEvent(t, i, filled);
    }
  }

  lemma SameProceedsValue(a: ExecutionOrder, b: ExecutionOrder)
    requires b == a.(settledProceeds := b.settledProceeds)
    ensures FilledProceeds(a) == FilledProceeds(b)
  {
  }

  lemma RecordKeepsKeys(t: Tables, i: nat, channel: Channel, report: Report, now: Instant, cal: TradingCalendar)
    requires ProceedsInv(t) && i < |t.orders| && RecordReport(t, i, channel, report, now, cal).Ok?
    requires NeverFalls(channel, t.orders[i], report)
    ensures var u := RecordReport(t, i, channel, report, now, cal).value;
            forall e <- u.events :: FromFill(u, e)
  {
    var u := RecordReport(t, i, channel, report, now, cal).value;
    assert |u.orders| == |t.orders| && forall k | 0 <= k < |t.orders| ::
        u.orders[k].id == t.orders[k].id && u.orders[k].filled >= t.orders[k].filled;
    forall e <- u.events ensures FromFill(u, e) {
      if e in t.events && e.eventId.FillKey? {
        assert FromFill(t, e);
        var k :| 0 <= k < |t.orders| && t.orders[k].id == e.eventId.order && e.eventId.filled <= t.orders[k].filled;
        assert u.orders[k] in u.orders;
      } else if e.eventId.FillKey? {
        assert u.orders[i] in u.orders;
      }
    }
  }

  lemma RecordBalances(t: Tables, i: nat, channel: Channel, report: Report, now: Instant, cal: TradingCalendar)
    requires Balanced(t) && i < |t.orders| && RecordReport(t, i, channel, report, now, cal).Ok?
    ensures Balanced(RecordReport(t, i, channel, report, now, cal).value)
  {
    var u := RecordReport(t, i, channel, report, now, cal).value;
    ReportAdds(t, i, channel, report, now, cal);
    hide RecordReport, Recorded;
    RecordShape(t, i, channel, report, now, cal);
    forall k | 0 <= k < |t.orders| ensures u.orders[k].id == t.orders[k].id && u.orders[k] in u.orders {}
    forall e <- u.events ensures FromOrder(u, e) {
      if e in t.events {
        OrdersKeepEvents(t, u, e);
      }
    }
    forall o <- u.orders ensures Recorded(u, o.id) == o.settledProceeds {
      var k :| 0 <= k < |u.orders| && u.orders[k] == o;
      assert Recorded(t, t.orders[k].id) == t.orders[k].settledProceeds;
      if k != i {
        assert t.orders[k].id != t.orders[i].id;
      }
    }
  }

  lemma OrdersKeepEvents(t: Tables, u: Tables, e: SettlementEvent)
    requires FromOrder(t, e) && |t.orders| <= |u.orders|
    requires forall k | 0 <= k < |t.orders| :: u.orders[k].id == t.orders[k].id
    ensures FromOrder(u, e)
  {
    if e.eventId.FillKey? {
      var k :| 0 <= k < |t.orders| && t.orders[k].id == e.eventId.order;
      assert u.orders[k] in u.orders;
    }
  }

  lemma RecordShape(t: Tables, i: nat, channel: Channel, report: Report, now: Instant, cal: TradingCalendar)
    requires i < |t.orders| && RecordReport(t, i, channel, report, now, cal).Ok?
    ensures var u := RecordReport(t, i, channel, report, now, cal).value;
            && |u.orders| == |t.orders| && u.orders[i].id == t.orders[i].id && u.orders[i].side == t.orders[i].side
            && forall k | 0 <= k < |t.orders| && k != i :: u.orders[k] == t.orders[k]
  {
  }

  // ---- every step ----

  /** Fills, proceeds and events as they were; rows may be added with nothing filled. */
  predicate ProceedsFrame(t: Tables, u: Tables) {
    && u.events == t.events && |t.orders| <= |u.orders|
    && (forall i | 0 <= i < |t.orders| ::
          u.orders[i].id == t.orders[i].id && u.orders[i].filled == t.orders[i].filled
          && u.orders[i].settledProceeds == t.orders[i].settledProceeds && u.orders[i].side == t.orders[i].side
          && u.orders[i].filledAvgPrice == t.orders[i].filledAvgPrice && u.orders[i].referencePrice == t.orders[i].referencePrice)
    && (forall i | |t.orders| <= i < |u.orders| :: u.orders[i].settledProceeds == 0.0 && u.orders[i].filled == 0.0)
  }

  lemma FrameBalances(t: Tables, u: Tables)
    requires Balanced(t) && ProceedsFrame(t, u) && DistinctOrders(u.orders)
    ensures Balanced(u)
  {
    forall e <- u.events ensures FromOrder(u, e) {
      OrdersKeepEvents(t, u, e);
    }
    forall o <- u.orders ensures Recorded(u, o.id) == o.settledProceeds {
      var k :| 0 <= k < |u.orders| && u.orders[k] == o;
      if k < |t.orders| {
        assert Recorded(t, t.orders[k].id) == t.orders[k].settledProceeds;
      } else {
        NewOrderHasNoEvents(t, u, k);
      }
    }
  }

  lemma FrameKeepsKeys(t: Tables, u: Tables)
    requires ProceedsInv(t) && ProceedsFrame(t, u)
    ensures forall e <- u.events :: FromFill(u, e)
  {
    forall e <- u.events ensures FromFill(u, e) {
      assert FromFill(t, e);
      if e.eventId.FillKey? {
        var k :| 0 <= k < |t.orders| && t.orders[k].id == e.eventId.order && e.eventId.filled <= t.orders[k].filled;
        assert u.orders[k] in u.orders;
      }
    }
  }

  lemma NewOrderHasNoEvents(t: Tables, u: Tables, k: nat)
    requires Balanced(t) && ProceedsFrame(t, u) && DistinctOrders(u.orders) && |t.orders| <= k < |u.orders|
    ensures Recorded(u, u.orders[k].id) == 0.0
  {
    forall e <- u.events ensures EventsOf(u.orders[k].id)(e) == 0.0 {
      assert FromOrder(t, e);
      if e.eventId.FillKey? {
        var j :| 0 <= j < |t.orders| && t.orders[j].id == e.eventId.order;
        assert u.orders[j].id != u.orders[k].id;
      }
    }
    SumZero<SettlementEvent>(u.events, EventsOf(u.orders[k].id));
  }

  lemma LocalStepFrame(t: Tables, cal: TradingCalendar, step: OrderStep)
    requires !step.TakeReport?
    ensures ProceedsFrame(t, ApplyOrder(t, cal, step))
  {
    hide SyncProposal;
    match step
    case LoseOrder(id) =>
    case Cancel(id) =>
    case NotSent(id) =>
      var i := IndexOf(t.orders, id);
      if i.Some? && NeverSent(t.orders[i.value]) {
        var o: ExecutionOrder := t.orders[i.value].(state := ExecutionState.NotSubmitted);
        SyncKeepsTables(t.(orders := t.orders[i.value := o]), o.proposalId);
      }
    case Abort(pid, attempted) =>
      SyncKeepsTables(t.(orders := AbortedOrders(t.orders, pid, attempted)), pid);
  }

  lemma ReconcileFrame(t: Tables, prior: seq<UnknownOrder>, view: View, now: Instant)
    ensures ProceedsFrame(t, ReconcileTables(t, prior, view, now))
  {
    hide VerdictOf, Invalid, InputsOf;
  }

  lemma ReserveFrame(t: Tables, p: Proposal, cfg: Settings, call: Call)
    ensures ProceedsFrame(t, EvaluateAndReserve(t, p, cfg, call).0)
  {
    ReserveRuns.CallChanges(t, cfg, ReserveRuns.Request(p, call));
  }

  lemma StartFrame(t: Tables, p: Proposal, cfg: Settings, call: Call)
    ensures ProceedsFrame(t, PersistIntents(t, p, cfg, call))
  {
    hide MayStart, NewRows, FreshIds, HasCapacity;
  }

  lemma TableStepFrame(t: Tables, cfg: Settings, step: Step)
    requires !step.OnOrder?
    ensures ProceedsFrame(t, Apply(t, cfg, step))
  {
    hide ProceedsFrame, ReconcileTables, EvaluateAndReserve, PersistIntents;
    match step
    case Reconcile(prior, view, now) => ReconcileFrame(t, prior, view, now);
    case Reserve(p, call) => ReserveFrame(t, p, cfg, call);
    case Start(p, call) => StartFrame(t, p, cfg, call);
  }

  /** Order ids stay a primary key. */
  lemma FrameKeepsDistinct(t: Tables, u: Tables)
    requires DistinctOrders(t.orders) && |u.orders| == |t.orders|
    requires forall i | 0 <= i < |t.orders| :: u.orders[i].id == t.orders[i].id
    ensures DistinctOrders(u.orders)
  {
  }

  lemma StartKeepsDistinct(t: Tables, p: Proposal, cfg: Settings, call: Call)
    requires DistinctOrders(t.orders)
    ensures DistinctOrders(PersistIntents(t, p, cfg, call).orders)
  {
    hide MayStart, NewRows, HasCapacity;
    if FreshIds(LegIds(p.legs), OrderIds(t.orders)) {
      IntentsDistinct(t, p);
    }
  }

  lemma SameOrderCount(t: Tables, cfg: Settings, step: Step)
    requires !step.Start? && !(step.OnOrder? && step.step.TakeReport?)
    ensures |Apply(t, cfg, step).orders| == |t.orders|
  {
    hide ApplyOrder;
    match step
    case Reconcile(prior, view, now) => VerdictShape(t, prior, view, now);
    case Reserve(p, call) => ReserveRuns.CallChanges(t, cfg, ReserveRuns.Request(p, call));
    case OnOrder(order) => StepFrame(t, cfg.calendar, order);
  }

  lemma QuietStepBalances(t: Tables, cfg: Settings, step: Step)
    requires Balanced(t) && !(step.OnOrder? && step.step.TakeReport?)
    ensures Balanced(Apply(t, cfg, step)) && ProceedsFrame(t, Apply(t, cfg, step))
  {
    var u := Apply(t, cfg, step);
    QuietFrame(t, cfg, step);
    hide ApplyOrder, ReconcileTables, EvaluateAndReserve, PersistIntents;
    if step.Start? {
      StartKeepsDistinct(t, step.proposal, cfg, step.call);
    } else {
      SameOrderCount(t, cfg, step);
      FrameKeepsDistinct(t, u);
    }
    FrameBalances(t, u);
  }

  lemma QuietFrame(t: Tables, cfg: Settings, step: Step)
    requires !(step.OnOrder? && step.step.TakeReport?)
    ensures ProceedsFrame(t, Apply(t, cfg, step))
  {
    hide ProceedsFrame, ApplyOrder;
    if step.OnOrder? {
      LocalStepFrame(t, cfg.calendar, step.step);
    } else {
      TableStepFrame(t, cfg, step);
    }
  }

  lemma SameBalance(t: Tables, u: Tables)
    requires u.orders == t.orders && u.events == t.events
    ensures Balanced(t) ==> Balanced(u)
    ensures ProceedsInv(t) ==> ProceedsInv(u)
  {
    if Balanced(t) {
      assert forall e <- u.events :: FromOrder(t, e);
    }
    if ProceedsInv(t) {
      assert forall e <- u.events :: FromFill(t, e);
    }
  }

  lemma StepBalances(t: Tables, cfg: Settings, step: Step)
    requires Balanced(t)
    ensures Balanced(Apply(t, cfg, step))
    ensures ProceedsInv(t) && Meets(FillsNeverFall, t, step) ==> ProceedsInv(Apply(t, cfg, step))
  {
    hide Balanced, ProceedsFrame, SyncProposal, RecordReport;
    if step.OnOrder? && step.step.TakeReport? {
      var report := step.step;
      var i := IndexOf(t.orders, report.id);
      if i.Some? && RecordReport(t, i.value, report.channel, report.report, report.now, cfg.calendar).Ok? {
        var u := RecordReport(t, i.value, report.channel, report.report, report.now, cfg.calendar).value;
        RecordBalances(t, i.value, report.channel, report.report, report.now, cfg.calendar);
        if ProceedsInv(t) && Meets(FillsNeverFall, t, step) {
          RecordKeepsKeys(t, i.value, report.channel, report.report, report.now, cfg.calendar);
        }
        SyncKeepsTables(u, t.orders[i.value].proposalId);
        SameBalance(u, SyncProposal(u, t.orders[i.value].proposalId));
      }
    } else {
      QuietStepBalances(t, cfg, step);
      if ProceedsInv(t) {
        FrameKeepsKeys(t, Apply(t, cfg, step));
      }
    }
  }

  /** Conservation of sale proceeds over all runs, whatever is reported: for every order the
      recorded events sum to its settled proceeds, so repeated syncs add nothing. */
  lemma {:induction false} RunsConserveProceeds(cfg: Settings, steps: seq<Step>)
    ensures var t := Run(EmptyTables(), cfg, steps);
            && Balanced(t)
            && (Along({FillsNeverFall}, EmptyTables(), cfg, steps) ==> ProceedsInv(t))
  {
    hide Meets, Apply, ProceedsInv, Balanced;
    if steps == [] {
      EmptyHasNoProceeds();
    } else {
      var before := steps[..|steps| - 1];
      RunsConserveProceeds(cfg, before);
      StepBalances(Run(EmptyTables(), cfg, before), cfg, steps[|steps| - 1]);
    }
  }

  lemma EmptyHasNoProceeds()
    ensures Balanced(EmptyTables()) && ProceedsInv(EmptyTables())
  {
  }

  // ---- the largest value seen ----

  /** Cent-floored value of a sell's fill when a step raised it, else nothing. */
  function SeenIn(t: Tables, u: Tables, step: Step, id: OrderId): (v: real)
    ensures v >= 0.0
  {
    var i := IndexOf(t.orders, id);
    if step.OnOrder? && step.step.TakeReport? && step.step.id == id && i.Some? && i.value < |u.orders|
       && t.orders[i.value].side.Sell? && u.orders[i.value].filled > t.orders[i.value].filled
    then FilledProceeds(u.orders[i.value]) else 0.0
  }

  /** The largest cent-floored filled x price among the reports that raised a sell's fill. */
  ghost function LargestSeen(cfg: Settings, steps: seq<Step>, id: OrderId): (v: real)
    ensures v >= 0.0
  {
    if steps == [] then 0.0
    else
      var before := steps[..|steps| - 1];
      Max(LargestSeen(cfg, before, id),
          SeenIn(Run(EmptyTables(), cfg, before), Run(EmptyTables(), cfg, steps), steps[|steps| - 1], id))
  }

  /** Orders are never removed or renumbered, and new ones have settled nothing. */
  predicate OrdersStay(t: Tables, u: Tables) {
    && |t.orders| <= |u.orders|
    && (forall i | 0 <= i < |t.orders| :: u.orders[i].id == t.orders[i].id && u.orders[i].side == t.orders[i].side)
    && (forall i | |t.orders| <= i < |u.orders| :: u.orders[i].settledProceeds == 0.0)
  }

  /** How a step moves the settled proceeds of the orders that exist. */
  predicate Settles(t: Tables, u: Tables, step: Step)
    requires |t.orders| <= |u.orders|
  {
    forall k | 0 <= k < |t.orders| && t.orders[k].side.Sell? && t.orders[k].settledProceeds >= 0.0 ::
      u.orders[k].settledProceeds == Max(t.orders[k].settledProceeds, SeenIn(t, u, step, t.orders[k].id))
  }

  lemma FrameSettles(t: Tables, u: Tables, step: Step)
    requires ProceedsFrame(t, u) && (step.OnOrder? ==> !step.step.TakeReport?)
    ensures OrdersStay(t, u) && Settles(t, u, step)
  {
  }

  lemma ReportSettles(t: Tables, cal: TradingCalendar, step: OrderStep)
    requires ProceedsInv(t) && step.TakeReport?
    ensures OrdersStay(t, ApplyOrder(t, cal, step)) && Settles(t, ApplyOrder(t, cal, step), OnOrder(step))
  {
    hide SyncProposal, FilledProceeds, RecordReport;
    var i := IndexOf(t.orders, step.id);
    if i.Some? {
      var recorded := RecordReport(t, i.value, step.channel, step.report, step.now, cal);
      if recorded.Ok? {
        ReportRecords(t, i.value, step.channel, step.report, step.now, cal);
        RecordShape(t, i.value, step.channel, step.report, step.now, cal);
        SyncKeepsTables(recorded.value, t.orders[i.value].proposalId);
        forall k | 0 <= k < |t.orders| && k != i.value ensures t.orders[k].id != step.id {
          if k < i.value {
            assert t.orders[k].id != t.orders[i.value].id;
          }
        }
      }
    }
  }

  lemma StepSettles(t: Tables, cfg: Settings, step: Step)
    requires ProceedsInv(t)
    ensures OrdersStay(t, Apply(t, cfg, step)) && Settles(t, Apply(t, cfg, step), step)
  {
    hide ProceedsFrame, OrdersStay, Settles, ApplyOrder, ProceedsInv;
    if step.OnOrder? {
      if step.step.TakeReport? {
        ReportSettles(t, cfg.calendar, step.step);
      } else {
        LocalStepFrame(t, cfg.calendar, step.step);
        FrameSettles(t, ApplyOrder(t, cfg.calendar, step.step), step);
      }
    } else {
      TableStepFrame(t, cfg, step);
      FrameSettles(t, Apply(t, cfg, step), step);
    }
  }

  lemma StaysUnknown(t: Tables, u: Tables, id: OrderId)
    requires OrdersStay(t, u) && IndexOf(u.orders, id).None?
    ensures IndexOf(t.orders, id).None?
  {
    forall k | 0 <= k < |t.orders| ensures t.orders[k].id != id {
      assert u.orders[k] in u.orders;
    }
  }

  lemma NewIsUnknown(t: Tables, u: Tables, k: nat)
    requires OrdersStay(t, u) && DistinctOrders(u.orders) && |t.orders| <= k < |u.orders|
    ensures IndexOf(t.orders, u.orders[k].id).None? && u.orders[k].settledProceeds == 0.0
  {
    forall i | 0 <= i < |t.orders| ensures t.orders[i].id != u.orders[k].id {
      assert u.orders[i].id != u.orders[k].id;
    }
  }

  lemma {:induction false} NothingSeenOfUnknown(cfg: Settings, steps: seq<Step>, id: OrderId)
    requires Along({FillsNeverFall}, EmptyTables(), cfg, steps)
    requires IndexOf(Run(EmptyTables(), cfg, steps).orders, id).None?
    ensures LargestSeen(cfg, steps, id) == 0.0
  {
    hide Apply, Meets, ProceedsInv, OrdersStay, Settles;
    if steps != [] {
      var before, last := steps[..|steps| - 1], steps[|steps| - 1];
      var t, u := Run(EmptyTables(), cfg, before), Run(EmptyTables(), cfg, steps);
      RunsConserveProceeds(cfg, before);
      StepSettles(t, cfg, last);
      StaysUnknown(t, u, id);
      NothingSeenOfUnknown(cfg, before, id);
    }
  }

  /** The proceeds that a sell has settled, which its events sum to, are the largest
      cent-floored filled x price among the reports that raised its fill. */
  lemma {:induction false} SettledIsLargestSeen(cfg: Settings, steps: seq<Step>, k: nat)
    requires Along({FillsNeverFall}, EmptyTables(), cfg, steps) && k < |Run(EmptyTables(), cfg, steps).orders|
    ensures var o := Run(EmptyTables(), cfg, steps).orders[k];
            o.side.Sell? ==>
              o.settledProceeds == LargestSeen(cfg, steps, o.id) == Recorded(Run(EmptyTables(), cfg, steps), o.id)
  {
    hide Meets, Apply, SeenIn, FilledProceeds, Recorded;
    RunsConserveProceeds(cfg, steps);
    if steps != [] {
      var before, last := steps[..|steps| - 1], steps[|steps| - 1];
      var t, u := Run(EmptyTables(), cfg, before), Run(EmptyTables(), cfg, steps);
      RunsConserveProceeds(cfg, before);
      StepSettles(t, cfg, last);
      if k < |t.orders| {
        SettledIsLargestSeen(cfg, before, k);
      } else {
        NewIsUnknown(t, u, k);
        NothingSeenOfUnknown(cfg, before, u.orders[k].id);
        NothingSeen(t, u, last, u.orders[k].id);
      }
      assert u.orders[k] in u.orders;
    }
  }

  lemma NothingSeen(t: Tables, u: Tables, step: Step, id: OrderId)
    requires IndexOf(t.orders, id).None?
    ensures SeenIn(t, u, step, id) == 0.0
  {
  }

  // ---- settled cash ----

  function UnsettledFillOf(id: OrderId, asOf: Day): SettlementEvent -> real {
    (e: SettlementEvent) => if IsFillOf(e, id) && e.settlementDate > asOf then e.amount else 0.0
  }

  function OtherUnsettled(id: OrderId, asOf: Day): SettlementEvent -> real {
    (e: SettlementEvent) => if !IsFillOf(e, id) && e.settlementDate > asOf then e.amount else 0.0
  }

  /** What a sale credited with filled x average price adds to settled cash while none of
      its proceeds has settled. */
  function Lift(t: Tables, o: ExecutionOrder, cash: real, asOf: Day): real {
    (cash + o.filled * FillPrice(o) - SumBy(Unsettled(t.events, asOf), EventAmount()))
    - (cash - SumBy(t.events, OtherUnsettled(o.id, asOf)))
  }

  predicate NothingSettled(t: Tables, id: OrderId, asOf: Day) {
    forall e <- t.events | IsFillOf(e, id) :: e.settlementDate > asOf
  }

  /** The lift is the credit less the recorded proceeds. */
  lemma LiftIsUnrecorded(t: Tables, o: ExecutionOrder, cash: real, asOf: Day)
    requires NothingSettled(t, o.id, asOf)
    ensures Lift(t, o, cash, asOf) == o.filled * FillPrice(o) - Recorded(t, o.id)
  {
    hide FillPrice, Unsettled;
    UnsettledSum(t.events, asOf);
    SumPlus<SettlementEvent>(t.events, UnsettledFillOf(o.id, asOf), OtherUnsettled(o.id, asOf), LaterAmount(asOf));
    SumEq<SettlementEvent>(t.events, UnsettledFillOf(o.id, asOf), EventsOf(o.id));
  }

  /** Before its proceeds settle, a sale whose settled proceeds are the floored value of its
      fill lifts settled cash by less than one cent. */
  lemma SettledValueLiftsLessThanACent(t: Tables, o: ExecutionOrder, cash: real, asOf: Day)
    requires Recorded(t, o.id) == FilledProceeds(o) && NothingSettled(t, o.id, asOf)
    ensures 0.0 <= Lift(t, o, cash, asOf) < CENT
  {
    LiftIsUnrecorded(t, o, cash, asOf);
  }

  lemma ReportedValueIsProceeds(channel: Channel, current: ExecutionOrder, report: Report)
    requires Reported(channel, current, report).Ok?
    ensures FilledProceeds(Reported(channel, current, report).value) == ReportedValue(channel, current, report)
  {
  }

  /** Settled proceeds that were the floored value of the fill stay so exactly when the
      report keeps the value: a larger fill is worth no less, and the same fill the same. */
  lemma ValueStaysSettled(t: Tables, i: nat, channel: Channel, report: Report, now: Instant, cal: TradingCalendar)
    requires ProceedsInv(t) && i < |t.orders| && RecordReport(t, i, channel, report, now, cal).Ok?
    requires t.orders[i].side.Sell? && t.orders[i].settledProceeds == FilledProceeds(t.orders[i])
    ensures var u := RecordReport(t, i, channel, report, now, cal).value;
            u.orders[i].settledProceeds == FilledProceeds(u.orders[i]) <==> KeepsValue(channel, t.orders[i], report)
  {
    RecordedValue(t, i, channel, report, now, cal);
    hide RecordReport, FilledProceeds, ReportedValue;
    ReportRecords(t, i, channel, report, now, cal);
  }

  lemma RecordedValue(t: Tables, i: nat, channel: Channel, report: Report, now: Instant, cal: TradingCalendar)
    requires i < |t.orders| && RecordReport(t, i, channel, report, now, cal).Ok?
    ensures var u := RecordReport(t, i, channel, report, now, cal).value;
            && FilledProceeds(u.orders[i]) == ReportedValue(channel, t.orders[i], report)
            && u.orders[i].filled == FilledBy(channel, t.orders[i], report)
  {
    hide FilledProceeds, ReportedValue, SettlementDate;
    var u := RecordReport(t, i, channel, report, now, cal).value;
    ReportedValueIsProceeds(channel, t.orders[i], report);
    SameProceedsValue(Reported(channel, t.orders[i], report).value, u.orders[i]);
  }

  /** Every sell's settled proceeds are the floored value of its fill. */
  predicate ValueSettled(t: Tables) {
    forall o <- t.orders | o.side.Sell? :: o.settledProceeds == FilledProceeds(o)
  }

  lemma FrameKeepsValue(t: Tables, u: Tables)
    requires ValueSettled(t) && ProceedsFrame(t, u)
    ensures ValueSettled(u)
  {
    forall k | 0 <= k < |u.orders| && u.orders[k].side.Sell?
      ensures u.orders[k].settledProceeds == FilledProceeds(u.orders[k])
    {
      if k < |t.orders| {
        assert t.orders[k] in t.orders;
        assert FilledProceeds(u.orders[k]) == FilledProceeds(t.orders[k]);
      } else {
        BudgetOfNothing(FillPrice(u.orders[k]));
      }
    }
  }

  lemma ReportKeepsValue(t: Tables, cal: TradingCalendar, step: OrderStep)
    requires ProceedsInv(t) && ValueSettled(t) && step.TakeReport? && NoFallingFill(t, step) && SteadyReport(t, step)
    ensures ValueSettled(ApplyOrder(t, cal, step))
  {
    hide SyncProposal, FilledProceeds, KeepsValue;
    var i := IndexOf(t.orders, step.id);
    if i.Some? {
      var recorded := RecordReport(t, i.value, step.channel, step.report, step.now, cal);
      if recorded.Ok? {
        var o := t.orders[i.value];
        assert o in t.orders;
        RecordShape(t, i.value, step.channel, step.report, step.now, cal);
        SyncKeepsTables(recorded.value, o.proposalId);
        if o.side.Sell? {
          ValueStaysSettled(t, i.value, step.channel, step.report, step.now, cal);
        }
        forall x <- recorded.value.orders | x.side.Sell? ensures x.settledProceeds == FilledProceeds(x) {
          var k :| 0 <= k < |t.orders| && recorded.value.orders[k] == x;
          assert t.orders[k] in t.orders;
        }
      }
    }
  }

  lemma StepKeepsValue(t: Tables, cfg: Settings, step: Step)
    requires ProceedsInv(t) && ValueSettled(t) && Meets(FillsNeverFall, t, step) && Meets(SteadyValues, t, step)
    ensures ValueSettled(Apply(t, cfg, step))
  {
    hide ProceedsFrame, ApplyOrder, ProceedsInv, ValueSettled, NoFallingFill, SteadyReport;
    if step.OnOrder? {
      if step.step.TakeReport? {
        ReportKeepsValue(t, cfg.calendar, step.step);
      } else {
        LocalStepFrame(t, cfg.calendar, step.step);
        FrameKeepsValue(t, ApplyOrder(t, cfg.calendar, step.step));
      }
    } else {
      TableStepFrame(t, cfg, step);
      FrameKeepsValue(t, Apply(t, cfg, step));
    }
  }

  lemma {:induction false} RunsSettleValue(cfg: Settings, steps: seq<Step>)
    requires Along({FillsNeverFall, SteadyValues}, EmptyTables(), cfg, steps)
    ensures ProceedsInv(Run(EmptyTables(), cfg, steps)) && ValueSettled(Run(EmptyTables(), cfg, steps))
  {
    hide Meets, Apply, ProceedsInv, ValueSettled;
    FewerPremises({FillsNeverFall}, {FillsNeverFall, SteadyValues}, EmptyTables(), cfg, steps);
    RunsConserveProceeds(cfg, steps);
    if steps == [] {
      NoSellsSettled();
    } else {
      var before := steps[..|steps| - 1];
      var last := steps[|steps| - 1];
      RunsSettleValue(cfg, before);
      var t := Run(EmptyTables(), cfg, before);
      assert Meets(FillsNeverFall, t, last) && Meets(SteadyValues, t, last);
      StepKeepsValue(t, cfg, last);
    }
  }

  lemma NoSellsSettled()
    ensures ValueSettled(EmptyTables())
  {
  }

  /** In every run whose reports keep the value of what had filled, each sale that the broker
      has credited with filled x average price lifts settled cash by less than one cent
      before its proceeds settle. */
  lemma RunsLiftLessThanACent(cfg: Settings, steps: seq<Step>, k: nat, cash: real, asOf: Day)
    requires Along({FillsNeverFall, SteadyValues}, EmptyTables(), cfg, steps)
    requires var t := Run(EmptyTables(), cfg, steps);
             k < |t.orders| && t.orders[k].side.Sell? && NothingSettled(t, t.orders[k].id, asOf)
    ensures var t := Run(EmptyTables(), cfg, steps); 0.0 <= Lift(t, t.orders[k], cash, asOf) < CENT
  {
    hide Meets, Apply, FilledProceeds, Lift, Recorded;
    RunsSettleValue(cfg, steps);
    var t := Run(EmptyTables(), cfg, steps);
    assert t.orders[k] in t.orders;
    SettledValueLiftsLessThanACent(t, t.orders[k], cash, asOf);
  }

  // ---- the upper bound alone ----

  /** Every sell has settled at least the floored value of its fill. */
  predicate ValueCovered(t: Tables) {
    forall o <- t.orders | o.side.Sell? :: o.settledProceeds >= FilledProceeds(o)
  }

  /** Settled proceeds that cover the floored value of the fill go on to cover it exactly if the
      report raises the fill, or puts no more value on it than has been settled. */
  lemma ValueStaysCovered(t: Tables, i: nat, channel: Channel, report: Report, now: Instant, cal: TradingCalendar)
    requires ProceedsInv(t) && i < |t.orders| && RecordReport(t, i, channel, report, now, cal).Ok?
    requires t.orders[i].side.Sell? && t.orders[i].settledProceeds >= FilledProceeds(t.orders[i])
    ensures var u := RecordReport(t, i, channel, report, now, cal).value;
            u.orders[i].settledProceeds >= FilledProceeds(u.orders[i]) <==> CoversValue(channel, t.orders[i], report)
  {
    RecordedValue(t, i, channel, report, now, cal);
    hide RecordReport, FilledProceeds, ReportedValue;
    ReportRecords(t, i, channel, report, now, cal);
  }

  lemma FrameCovers(t: Tables, u: Tables)
    requires ValueCovered(t) && ProceedsFrame(t, u)
    ensures ValueCovered(u)
  {
    forall k | 0 <= k < |u.orders| && u.orders[k].side.Sell?
      ensures u.orders[k].settledProceeds >= FilledProceeds(u.orders[k])
    {
      if k < |t.orders| {
        assert t.orders[k] in t.orders;
        assert FilledProceeds(u.orders[k]) == FilledProceeds(t.orders[k]);
      } else {
        BudgetOfNothing(FillPrice(u.orders[k]));
      }
    }
  }

  /** A report that settles nothing more never fails for want of a settlement date. */
  lemma AcceptedUnlessRising(t: Tables, i: nat, channel: Channel, report: Report, now: Instant, cal: TradingCalendar)
    requires i < |t.orders| && Reported(channel, t.orders[i], report).Ok?
    requires FilledBy(channel, t.orders[i], report) <= t.orders[i].filled
    ensures RecordReport(t, i, channel, report, now, cal).Ok?
  {
  }

  lemma OneOfItsId(t: Tables, i: nat, k: nat)
    requires DistinctOrders(t.orders) && i < |t.orders| && k < |t.orders| && t.orders[i].id == t.orders[k].id
    ensures i == k
  {
  }

  lemma AbsentIsCovered(t: Tables, step: OrderStep)
    requires step.TakeReport? && IndexOf(t.orders, step.id).None?
    ensures CoveringReport(t, step)
  {
    forall k | 0 <= k < |t.orders| ensures t.orders[k].id != step.id {
      assert t.orders[k] in t.orders;
    }
  }

  lemma ReportCoversIff(t: Tables, cal: TradingCalendar, step: OrderStep)
    requires ProceedsInv(t) && ValueCovered(t) && step.TakeReport?
    ensures ValueCovered(ApplyOrder(t, cal, step)) <==> CoveringReport(t, step)
  {
    hide SyncProposal, FilledProceeds, CoversValue, RecordReport, Reported;
    var u := ApplyOrder(t, cal, step);
    var found := IndexOf(t.orders, step.id);
    if found.None? {
      AbsentIsCovered(t, step);
    } else {
      var i := found.value;
      var o := t.orders[i];
      assert o in t.orders;
      forall k | 0 <= k < |t.orders| && t.orders[k].id == step.id ensures k == i {
        OneOfItsId(t, i, k);
      }
      var recorded := RecordReport(t, i, step.channel, step.report, step.now, cal);
      if recorded.Err? {
        RefusedIsCovered(t, i, step.channel, step.report, step.now, cal);
      } else {
        RecordedRowIs(t, i, step.channel, step.report, step.now, cal);
        RecordShape(t, i, step.channel, step.report, step.now, cal);
        SyncKeepsTables(recorded.value, o.proposalId);
        if o.side.Sell? {
          ValueStaysCovered(t, i, step.channel, step.report, step.now, cal);
        }
        CoveredByRow(t, u, i);
      }
    }
  }

  lemma RecordedRowIs(t: Tables, i: nat, channel: Channel, report: Report, now: Instant, cal: TradingCalendar)
    requires i < |t.orders| && RecordReport(t, i, channel, report, now, cal).Ok?
    ensures Reported(channel, t.orders[i], report).Ok?
  {
    hide SettleSale;
  }

  lemma RefusedIsCovered(t: Tables, i: nat, channel: Channel, report: Report, now: Instant, cal: TradingCalendar)
    requires i < |t.orders| && RecordReport(t, i, channel, report, now, cal).Err?
    ensures Reported(channel, t.orders[i], report).Ok? ==> CoversValue(channel, t.orders[i], report)
  {
    hide RecordReport, Reported;
    if Reported(channel, t.orders[i], report).Ok? && FilledBy(channel, t.orders[i], report) <= t.orders[i].filled {
      AcceptedUnlessRising(t, i, channel, report, now, cal);
    }
  }

  lemma CoveredByRow(t: Tables, u: Tables, i: nat)
    requires ValueCovered(t) && i < |t.orders| == |u.orders| && u.orders[i].side == t.orders[i].side
    requires forall k | 0 <= k < |t.orders| && k != i :: u.orders[k] == t.orders[k]
    ensures ValueCovered(u) <==> (u.orders[i].side.Sell? ==> u.orders[i].settledProceeds >= FilledProceeds(u.orders[i]))
  {
    hide FilledProceeds;
    assert u.orders[i] in u.orders;
    forall k | 0 <= k < |u.orders| && k != i && u.orders[k].side.Sell?
      ensures u.orders[k].settledProceeds >= FilledProceeds(u.orders[k])
    {
      assert t.orders[k] in t.orders;
    }
  }

  lemma StepCoversIff(t: Tables, cfg: Settings, step: Step)
    requires ProceedsInv(t) && ValueCovered(t)
    ensures ValueCovered(Apply(t, cfg, step)) <==> Meets(CoveringValues, t, step)
  {
    hide ProceedsFrame, ApplyOrder, ProceedsInv, ValueCovered, CoversValue;
    if step.OnOrder? && step.step.TakeReport? {
      hide CoveringReport;
      ReportCoversIff(t, cfg.calendar, step.step);
    } else {
      QuietFrame(t, cfg, step);
      FrameCovers(t, Apply(t, cfg, step));
    }
  }

  /** Settled proceeds cover the value of every fill in every state of the run. */
  ghost predicate AlwaysCovers(cfg: Settings, steps: seq<Step>) {
    ValueCovered(Run(EmptyTables(), cfg, steps)) && (steps == [] || AlwaysCovers(cfg, steps[..|steps| - 1]))
  }

  /** Exactly the runs in which settled proceeds always cover the value of the fills: those
      without a report that, at no larger fill, puts more value on a sale than was settled. */
  lemma {:induction false} RunsCoverIff(cfg: Settings, steps: seq<Step>)
    requires Along({FillsNeverFall}, EmptyTables(), cfg, steps)
    ensures AlwaysCovers(cfg, steps) <==> Along({CoveringValues}, EmptyTables(), cfg, steps)
  {
    hide Meets, Apply, ProceedsInv, ValueCovered;
    if steps == [] {
      NoSellsCovered();
    } else {
      var before, last := steps[..|steps| - 1], steps[|steps| - 1];
      RunsCoverIff(cfg, before);
      RunsConserveProceeds(cfg, before);
      if AlwaysCovers(cfg, before) {
        CoversNow(cfg, before);
        StepCoversIff(Run(EmptyTables(), cfg, before), cfg, last);
      }
    }
  }

  lemma CoversNow(cfg: Settings, steps: seq<Step>)
    requires AlwaysCovers(cfg, steps)
    ensures ValueCovered(Run(EmptyTables(), cfg, steps))
  {
  }

  lemma NoSellsCovered()
    ensures ValueCovered(EmptyTables())
  {
  }

  /** In every such run no sale that the broker has credited with filled x average price lifts
      settled cash by a cent before its proceeds settle. */
  lemma RunsNeverLiftACent(cfg: Settings, steps: seq<Step>, k: nat, cash: real, asOf: Day)
    requires Along({FillsNeverFall, CoveringValues}, EmptyTables(), cfg, steps)
    requires var t := Run(EmptyTables(), cfg, steps);
             k < |t.orders| && t.orders[k].side.Sell? && NothingSettled(t, t.orders[k].id, asOf)
    ensures var t := Run(EmptyTables(), cfg, steps); Lift(t, t.orders[k], cash, asOf) < CENT
  {
    hide Meets, Apply, Lift, Recorded;
    FewerPremises({FillsNeverFall}, {FillsNeverFall, CoveringValues}, EmptyTables(), cfg, steps);
    FewerPremises({CoveringValues}, {FillsNeverFall, CoveringValues}, EmptyTables(), cfg, steps);
    RunsCoverIff(cfg, steps);
    CoversNow(cfg, steps);
    RunsConserveProceeds(cfg, steps);
    var t := Run(EmptyTables(), cfg, steps);
    assert t.orders[k] in t.orders;
    LiftIsUnrecorded(t, t.orders[k], cash, asOf);
  }
}
