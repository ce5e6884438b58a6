/** What a broker report leaves behind, over its own fields and the stored row: every column of
    the order, the settlement event, and the fill of an order over whole runs. */
module Reports {
  import opened Calendar
  import Capacity
  import opened Domain
  import opened Execution
  import Gates
  import opened LedgerRuns
  import opened LedgerSteps
  import opened Money
  import opened Orchestration
  import Proceeds
  import opened Records
  import opened Results
  import opened States
  import opened Sums
  import opened Sync
  import opened Tables

  /** The filled quantity that a report tells; an acknowledgement that tells none means zero. */
  function Told(channel: Channel, report: Report): Option<real> {
    if report.filled.Some? then report.filled
    else if channel == Acknowledgement then Some(0.0) else None
  }

  function FillAfter(channel: Channel, o: ExecutionOrder, report: Report): real {
    if Told(channel, report).Some? then Told(channel, report).value else o.filled
  }

  function PriceAfter(channel: Channel, o: ExecutionOrder, report: Report): real {
    if FillAfter(channel, o, report) > 0.0 && report.averagePrice.Some? then report.averagePrice.value else o.referencePrice
  }

  lemma ToldIs(channel: Channel, o: ExecutionOrder, report: Report)
    ensures FillAfter(channel, o, report) == FilledBy(channel, o, report) >= 0.0
    ensures PriceAfter(channel, o, report) >= 0.0
  {
  }

  /** Cent-floored value of the whole fill. */
  function ValueAfter(channel: Channel, o: ExecutionOrder, report: Report): real {
    ToldIs(channel, o, report);
    BudgetOf(FillAfter(channel, o, report), PriceAfter(channel, o, report))
  }

  /** The report brings proceeds that no event records yet. */
  predicate BringsProceeds(t: Tables, o: ExecutionOrder, channel: Channel, report: Report) {
    var filled := FillAfter(channel, o, report);
    && o.side == Sell && filled > o.filled && ValueAfter(channel, o, report) > o.settledProceeds
    && forall e <- t.events :: e.eventId != FillKey(o.id, filled)
  }

  /** A legal transition, no more filled than ordered, and a settlement date where one is needed. */
  predicate Accepted(t: Tables, o: ExecutionOrder, channel: Channel, report: Report, now: Instant, cal: TradingCalendar) {
    && MayBecome(o.state, MapBrokerStatus(report.status))
    && FillAfter(channel, o, report) <= o.quantity
    && (BringsProceeds(t, o, channel, report) ==> SettlementOn(cal, now / 86_400_000_000, 1).Ok?)
  }

  /** The row that an accepted report writes. */
  predicate RowTells(before: ExecutionOrder, after: ExecutionOrder, channel: Channel, report: Report) {
    var filled := FillAfter(channel, before, report);
    && after.id == before.id && after.proposalId == before.proposalId && after.legIndex == before.legIndex
    && after.symbol == before.symbol && after.side == before.side && after.quantity == before.quantity
    && after.referencePrice == before.referencePrice && after.reconciledFilled == before.reconciledFilled
    && after.state == MapBrokerStatus(report.status)
    && after.filled == filled && after.remaining == before.quantity - filled
    && after.filledAvgPrice == (if filled > 0.0 then Some(PriceAfter(channel, before, report)) else None)
    && (report.brokerOrderId.Some? ==> after.brokerOrderId == report.brokerOrderId)
    && (report.brokerOrderId.None? ==>
          after.brokerOrderId == if channel == Acknowledgement && before.state == ExecutionState.Submitting
                                    && after.state == ExecutionState.Filled then None else before.brokerOrderId)
  }

  lemma SettlesIff(t: Tables, i: nat, channel: Channel, report: Report, now: Instant, cal: TradingCalendar)
    requires i < |t.orders| && Reported(channel, t.orders[i], report).Ok?
    ensures var o, row := t.orders[i], Reported(channel, t.orders[i], report).value;
            && RowTells(o, row, channel, report) && row.settledProceeds == o.settledProceeds
            && FilledProceeds(row) == ValueAfter(channel, o, report)
            && (row.filled > o.filled ==>
                  (Proceeds.SettlesNow(t.(orders := t.orders[i := row]), i) <==> BringsProceeds(t, o, channel, report)))
  {
    hide LegalTargets;
    ToldIs(channel, t.orders[i], report);
  }

  lemma ReportedIff(channel: Channel, o: ExecutionOrder, report: Report)
    ensures Reported(channel, o, report).Ok?
       <==> MayBecome(o.state, MapBrokerStatus(report.status)) && FillAfter(channel, o, report) <= o.quantity
  {
    hide LegalTargets, MapBrokerStatus;
    ToldIs(channel, o, report);
  }

  lemma SettleIff(t: Tables, i: nat, now: Instant, cal: TradingCalendar)
    requires i < |t.orders|
    ensures SettleSale(t, i, now, cal).Ok?
       <==> (Proceeds.SettlesNow(t, i) ==> SettlementOn(cal, now / 86_400_000_000, 1).Ok?)
    ensures SettleSale(t, i, now, cal).Ok? && Proceeds.SettlesNow(t, i) ==>
              SettleSale(t, i, now, cal).value.events
              == t.events + [SettlementEvent(FillKey(t.orders[i].id, t.orders[i].filled), t.orders[i].symbol,
                                             now / 86_400_000_000, SettlementOn(cal, now / 86_400_000_000, 1).value,
                                             FilledProceeds(t.orders[i]) - t.orders[i].settledProceeds)]
  {
    hide FilledProceeds, AddSessions;
    if Proceeds.SettlesNow(t, i) && SettlementDate(cal, DateOf(now)).Ok? {
      SettlementAfterTrade(cal, DateOf(now));
    }
  }

  lemma AcceptedIff(t: Tables, i: nat, channel: Channel, report: Report, now: Instant, cal: TradingCalendar)
    requires i < |t.orders|
    ensures RecordReport(t, i, channel, report, now, cal).Ok? <==> Accepted(t, t.orders[i], channel, report, now, cal)
  {
    hide Reported, SettleSale, SettlementOn, FilledProceeds, MapBrokerStatus, MayBecome, ValueAfter;
    var o := t.orders[i];
    ReportedIff(channel, o, report);
    if Reported(channel, o, report).Ok? {
      var row := Reported(channel, o, report).value;
      SettlesIff(t, i, channel, report, now, cal);
      SettleIff(t.(orders := t.orders[i := row]), i, now, cal);
    }
  }

  /** The tables after an accepted report, before capacity is synced. */
  lemma RecordTells(t: Tables, i: nat, channel: Channel, report: Report, now: Instant, cal: TradingCalendar)
    requires i < |t.orders| && RecordReport(t, i, channel, report, now, cal).Ok?
    ensures var u, o := RecordReport(t, i, channel, report, now, cal).value, t.orders[i];
            && |u.orders| == |t.orders| && (forall k | 0 <= k < |t.orders| && k != i :: u.orders[k] == t.orders[k])
            && RowTells(o, u.orders[i], channel, report)
            && u.proposals == t.proposals && u.reservations == t.reservations && u.unknown == t.unknown
            && u.history == t.history && u.snapshot == t.snapshot
            && (if BringsProceeds(t, o, channel, report) then
                  && SettlementOn(cal, now / 86_400_000_000, 1).Ok?
                  && u.orders[i].settledProceeds == ValueAfter(channel, o, report)
                  && u.events == t.events + [SettlementEvent(
                       FillKey(o.id, FillAfter(channel, o, report)), o.symbol, now / 86_400_000_000,
                       SettlementOn(cal, now / 86_400_000_000, 1).value, ValueAfter(channel, o, report) - o.settledProceeds)]
                else u.orders[i].settledProceeds == o.settledProceeds && u.events == t.events)
  {
    hide Reported, SettleSale, SettlementOn, FilledProceeds, MapBrokerStatus, MayBecome, ValueAfter, Proceeds.SettlesNow, BringsProceeds;
    var o, row := t.orders[i], Reported(channel, t.orders[i], report).value;
    var written := t.(orders := t.orders[i := row]);
    ReportedIff(channel, o, report);
    SettlesIff(t, i, channel, report, now, cal);
    BringingRises(t, o, channel, report);
    if row.filled > o.filled {
      SettleIff(written, i, now, cal);
      Proceeds.SettleShape(written, i, now, cal);
      SettleKeeps(written, i, now, cal);
    }
  }

  lemma BringingRises(t: Tables, o: ExecutionOrder, channel: Channel, report: Report)
    ensures BringsProceeds(t, o, channel, report) ==> FillAfter(channel, o, report) > o.filled
  {
  }

  lemma SettleKeeps(t: Tables, i: nat, now: Instant, cal: TradingCalendar)
    requires i < |t.orders| && SettleSale(t, i, now, cal).Ok?
    ensures var u := SettleSale(t, i, now, cal).value;
            && u.proposals == t.proposals && u.reservations == t.reservations && u.unknown == t.unknown
            && u.history == t.history && u.snapshot == t.snapshot
  {
    hide SettlementDate, FilledProceeds;
  }

  /** A report, over its own fields: refused without a trace, or written into the row of its order
      with the proceeds that it brings. A lookup that tells no quantity leaves the fill alone;
      an acknowledgement that tells none means that nothing filled. */
  lemma ReportAnswers(t: Tables, id: OrderId, i: nat, channel: Channel, report: Report, now: Instant, cal: TradingCalendar)
    requires IndexOf(t.orders, id) == Some(i)
    ensures var v, o := ApplyReport(t, id, channel, report, now, cal), t.orders[i];
            if !Accepted(t, o, channel, report, now, cal) then v == t
            else
              && |v.orders| == |t.orders| && (forall k | 0 <= k < |t.orders| && k != i :: v.orders[k] == t.orders[k])
              && RowTells(o, v.orders[i], channel, report)
              && v.proposals == t.proposals && v.unknown == t.unknown && v.history == t.history && v.snapshot == t.snapshot
              && (report.filled.None? && channel == Lookup ==>
                    v.orders[i].filled == o.filled && v.orders[i].remaining == o.quantity - o.filled
                    && v.orders[i].settledProceeds == o.settledProceeds && v.events == t.events)
              && (report.filled.None? && channel == Acknowledgement ==> v.orders[i].filled == 0.0)
              && (report.filled.Some? ==> v.orders[i].filled == report.filled.value)
              && (if BringsProceeds(t, o, channel, report) then
                    && SettlementOn(cal, now / 86_400_000_000, 1).Ok?
                    && v.orders[i].settledProceeds == ValueAfter(channel, o, report)
                    && v.events == t.events + [SettlementEvent(
                         FillKey(o.id, FillAfter(channel, o, report)), o.symbol, now / 86_400_000_000,
                         SettlementOn(cal, now / 86_400_000_000, 1).value, ValueAfter(channel, o, report) - o.settledProceeds)]
                  else v.orders[i].settledProceeds == o.settledProceeds && v.events == t.events)
  {
    hide RecordReport, SyncProposal, SettlementOn, MapBrokerStatus, MayBecome, ValueAfter;
    AcceptedIff(t, i, channel, report, now, cal);
    if RecordReport(t, i, channel, report, now, cal).Ok? {
      RecordTells(t, i, channel, report, now, cal);
      Capacity.SyncKeepsTables(RecordReport(t, i, channel, report, now, cal).value, t.orders[i].proposalId);
    }
  }

  // ---- the fill of an order over whole runs ----

  /** The step is an accepted report on this order that tells a quantity. */
  predicate TellsFill(t: Tables, cfg: Settings, step: Step, id: OrderId) {
    && step.OnOrder? && step.step.TakeReport? && step.step.id == id && IndexOf(t.orders, id).Some?
    && Accepted(t, t.orders[IndexOf(t.orders, id).value], step.step.channel, step.step.report, step.step.now, cfg.calendar)
    && Told(step.step.channel, step.step.report).Some?
  }

  /** The last quantity that an accepted report told; nothing was told at first. */
  ghost function LastTold(cfg: Settings, steps: seq<Step>, id: OrderId): real {
    if steps == [] then 0.0
    else
      var before, last := steps[..|steps| - 1], steps[|steps| - 1];
      if TellsFill(Run(EmptyTables(), cfg, before), cfg, last, id)
      then Told(last.step.channel, last.step.report).value else LastTold(cfg, before, id)
  }

  lemma IndexIsOwn(orders: seq<ExecutionOrder>, k: nat)
    requires DistinctOrders(orders) && k < |orders|
    ensures IndexOf(orders, orders[k].id) == Some(k)
  {
    assert orders[k] in orders;
  }

  /** No other step changes a fill. */
  lemma QuietStepKeepsFill(t: Tables, cfg: Settings, step: Step, k: nat)
    requires k < |t.orders| && !(step.OnOrder? && step.step.TakeReport?)
    ensures k < |Apply(t, cfg, step).orders| && Apply(t, cfg, step).orders[k].filled == t.orders[k].filled
  {
    hide Apply;
    Proceeds.QuietFrame(t, cfg, step);
  }

  lemma StepFill(t: Tables, cfg: Settings, step: Step, k: nat)
    requires DistinctOrders(t.orders) && k < |t.orders|
    ensures k < |Apply(t, cfg, step).orders|
    ensures Apply(t, cfg, step).orders[k].filled
         == if TellsFill(t, cfg, step, t.orders[k].id) then Told(step.step.channel, step.step.report).value else t.orders[k].filled
  {
    hide Accepted, ApplyReport, Told;
    if step.OnOrder? && step.step.TakeReport? {
      ReportFill(t, cfg, step.step, k);
    } else {
      QuietStepKeepsFill(t, cfg, step, k);
    }
  }

  lemma ReportFill(t: Tables, cfg: Settings, step: OrderStep, k: nat)
    requires DistinctOrders(t.orders) && k < |t.orders| && step.TakeReport?
    ensures var u := ApplyReport(t, step.id, step.channel, step.report, step.now, cfg.calendar);
            && k < |u.orders|
            && u.orders[k].filled
               == if TellsFill(t, cfg, OnOrder(step), t.orders[k].id) then Told(step.channel, step.report).value else t.orders[k].filled
  {
    hide Accepted, ApplyReport, BringsProceeds, ValueAfter, SettlementOn;
    IndexIsOwn(t.orders, k);
    var i := IndexOf(t.orders, step.id);
    if i.Some? {
      ReportAnswers(t, step.id, i.value, step.channel, step.report, step.now, cfg.calendar);
    } else {
      UnknownReport(t, step, cfg);
    }
  }

  lemma UnknownReport(t: Tables, step: OrderStep, cfg: Settings)
    requires step.TakeReport? && IndexOf(t.orders, step.id).None?
    ensures ApplyReport(t, step.id, step.channel, step.report, step.now, cfg.calendar) == t
  {
  }

  lemma {:induction false} UntoldIfUnknown(cfg: Settings, steps: seq<Step>, id: OrderId)
    requires IndexOf(Run(EmptyTables(), cfg, steps).orders, id).None?
    ensures LastTold(cfg, steps, id) == 0.0
  {
    hide Apply, Accepted, Told;
    if steps != [] {
      var before := steps[..|steps| - 1];
      var t := Run(EmptyTables(), cfg, before);
      Gates.StepKeepsOrders(t, cfg, steps[|steps| - 1]);
      StillUnknown(t, Run(EmptyTables(), cfg, steps), id);
      UntoldIfUnknown(cfg, before, id);
    }
  }

  lemma StillUnknown(t: Tables, u: Tables, id: OrderId)
    requires Gates.NamesStay(t, u) && IndexOf(u.orders, id).None?
    ensures IndexOf(t.orders, id).None?
  {
    forall k | 0 <= k < |t.orders| ensures t.orders[k].id != id {
      assert u.orders[k] in u.orders;
    }
  }

  lemma NewIsUnknown(t: Tables, u: Tables, k: nat)
    requires Gates.NamesStay(t, u) && DistinctOrders(u.orders) && |t.orders| <= k < |u.orders|
    ensures IndexOf(t.orders, u.orders[k].id).None?
  {
    forall i | 0 <= i < |t.orders| ensures t.orders[i].id != u.orders[k].id {
      assert u.orders[i].id != u.orders[k].id;
    }
  }

  lemma NewIsUnfilled(t: Tables, cfg: Settings, step: Step, k: nat)
    requires |t.orders| <= k < |Apply(t, cfg, step).orders|
    ensures Apply(t, cfg, step).orders[k].filled == 0.0
  {
    hide Apply, Gates.NamesStay, Gates.Cleared;
    Gates.StepKeepsOrders(t, cfg, step);
    var u, j := Apply(t, cfg, step), k - |t.orders|;
    assert u.orders[|t.orders| + j] == Gates.Unsent(step.proposal.legs[j], step.proposal.proposalId);
  }

  /** Over every run: an order has filled what the last accepted report told, and nothing before
      one told anything. */
  lemma {:induction false} FillIsLastTold(cfg: Settings, steps: seq<Step>)
    ensures forall o <- Run(EmptyTables(), cfg, steps).orders :: o.filled == LastTold(cfg, steps, o.id)
  {
    hide Apply, TellsFill, Told;
    if steps != [] {
      var before, last := steps[..|steps| - 1], steps[|steps| - 1];
      var t, u := Run(EmptyTables(), cfg, before), Run(EmptyTables(), cfg, steps);
      FillIsLastTold(cfg, before);
      RunIsDistinct(cfg, before);
      RunIsDistinct(cfg, steps);
      Gates.StepKeepsOrders(t, cfg, last);
      forall o <- u.orders ensures o.filled == LastTold(cfg, steps, o.id) {
        var k :| 0 <= k < |u.orders| && u.orders[k] == o;
        if k < |t.orders| {
          assert t.orders[k] in t.orders;
          StepFill(t, cfg, last, k);
        } else {
          NewIsUnfilled(t, cfg, last, k);
          NewIsUnknown(t, u, k);
          UntoldIfUnknown(cfg, before, o.id);
          NothingTold(t, cfg, last, o.id);
        }
      }
    }
  }

  lemma RunIsDistinct(cfg: Settings, steps: seq<Step>)
    ensures DistinctOrders(Run(EmptyTables(), cfg, steps).orders)
  {
    hide Run;
    Proceeds.RunsConserveProceeds(cfg, steps);
  }

  lemma NothingTold(t: Tables, cfg: Settings, step: Step, id: OrderId)
    requires IndexOf(t.orders, id).None?
    ensures !TellsFill(t, cfg, step, id)
  {
  }
}
