/** The transactions on execution orders (backend/opaca/execution/service.py), as functions
    of the tables. A transaction that raises is rolled back: the tables are returned as
    they were. */
module Execution {
  import opened Authority
  import opened Calendar
  import opened Domain
  import opened Money
  import opened Records
  import opened Results
  import opened States
  import opened Sums
  import opened Sync
  import opened Tables

  datatype RawReport = Report(
    status: BrokerStatus, filled: Option<real>, brokerOrderId: Option<string>, averagePrice: Option<real>)

  /** What the broker says about one order. */
  type Report = r: RawReport |
    && (r.filled.Some? ==> r.filled.value >= 0.0)
    && (r.averagePrice.Some? ==> r.averagePrice.value >= 0.0)
    witness RawReport.Report(Unmapped, None, None, None)

  /** A report arrives as the answer to a submit, or to a lookup by client order id. */
  datatype Channel = Acknowledgement | Lookup

  /** An answer without a filled quantity means nothing filled to `_acknowledge_payload`,
      and no news to `_sync_leg_from_broker`. */
  function FilledBy(channel: Channel, current: ExecutionOrder, report: Report): (q: real)
    ensures q >= 0.0
  {
    if report.filled.Some? then report.filled.value
    else if channel.Acknowledgement? then 0.0
    else current.filled
  }

  function AveragePrice(current: ExecutionOrder, report: Report, filled: real): Option<real> {
    if filled <= 0.0 then None
    else if report.averagePrice.Some? then report.averagePrice
    else Some(current.referencePrice)
  }

  /** The path SUBMITTING -> SUBMITTED -> FILLED of an acknowledgement writes the broker id
      of the answer first, whatever it is. */
  function BrokerIdAfter(channel: Channel, current: ExecutionOrder, report: Report): Option<string> {
    if report.brokerOrderId.Some? then report.brokerOrderId
    else if channel.Acknowledgement? && current.state.Submitting? && MapBrokerStatus(report.status).Filled? then None
    else current.brokerOrderId
  }

  /** The updated row; fails on an illegal transition and on a fill beyond the quantity. */
  function Reported(channel: Channel, current: ExecutionOrder, report: Report): Result<ExecutionOrder> {
    var target := MapBrokerStatus(report.status);
    var filled := FilledBy(channel, current, report);
    if !MayBecome(current.state, target) || filled > current.quantity then Err
    else
      Ok(current.(state := target, filled := filled, remaining := current.quantity - filled,
                  brokerOrderId := BrokerIdAfter(channel, current, report),
                  filledAvgPrice := AveragePrice(current, report, filled)))
  }

  function FillPrice(o: ExecutionOrder): (price: real)
    ensures price >= 0.0
  {
    if o.filledAvgPrice.Some? then o.filledAvgPrice.value else o.referencePrice
  }

  /** Cent-floored value of everything filled so far. */
  function FilledProceeds(o: ExecutionOrder): (v: real)
    ensures 0.0 <= v <= o.filled * FillPrice(o) < v + CENT
  {
    BudgetOf(o.filled, FillPrice(o))
  }

  /** The cent-floored value that a report puts on the whole fill. */
  function ReportedValue(channel: Channel, current: ExecutionOrder, report: Report): (v: real)
    ensures v >= 0.0
  {
    var filled := FilledBy(channel, current, report);
    BudgetOf(filled, if filled > 0.0 && report.averagePrice.Some? then report.averagePrice.value else current.referencePrice)
  }

  predicate HasEvent(events: seq<SettlementEvent>, key: EventKey) {
    exists e <- events :: e.eventId == key
  }

  /** `_record_sell_settlement`, for a row already written at index i. */
  function SettleSale(t: Tables, i: nat, now: Instant, cal: TradingCalendar): Result<Tables>
    requires i < |t.orders|
  {
    var o := t.orders[i];
    var proceeds := FilledProceeds(o);
    var key := FillKey(o.id, o.filled);
    if !o.side.Sell? || o.filled <= 0.0 || proceeds - o.settledProceeds <= 0.0 || HasEvent(t.events, key) then Ok(t)
    else
      var settlement :- SettlementDate(cal, DateOf(now));
      SettlementAfterTrade(cal, DateOf(now));
      var event: SettlementEvent := SettlementEvent(key, o.symbol, DateOf(now), settlement, proceeds - o.settledProceeds);
      Ok(t.(events := t.events + [event], orders := t.orders[i := o.(settledProceeds := proceeds)]))
  }

  /** The order row and its settlement, before capacity is synced. */
  function RecordReport(t: Tables, i: nat, channel: Channel, report: Report, now: Instant, cal: TradingCalendar)
    : Result<Tables>
    requires i < |t.orders|
  {
    var current := t.orders[i];
    var updated :- Reported(channel, current, report);
    var written := t.(orders := t.orders[i := updated]);
    if updated.filled > current.filled then SettleSale(written, i, now, cal) else Ok(written)
  }

  /** `_acknowledge_payload`, and `_sync_leg_from_broker` on an order that was found. */
  function ApplyReport(t: Tables, id: OrderId, channel: Channel, report: Report, now: Instant, cal: TradingCalendar): Tables {
    var i := IndexOf(t.orders, id);
    if i.None? then t
    else
      var recorded := RecordReport(t, i.value, channel, report, now, cal);
      if recorded.Err? then t else SyncProposal(recorded.value, t.orders[i.value].proposalId)
  }

  // ---- losing track of an order ----

  function UnknownRowOf(o: ExecutionOrder): UnknownOrder {
    UnknownOrder(o.id, o.proposalId, o.symbol, o.side, OrderState.Unknown, Some(o.quantity), Some(o.filled))
  }

  /** ON CONFLICT(client_order_id) DO UPDATE */
  function UpsertUnknown(rows: seq<UnknownOrder>, row: UnknownOrder): seq<UnknownOrder> {
    if rows == [] then [row]
    else if rows[0].clientOrderId == row.clientOrderId then
      [rows[0].(state := row.state, quantity := row.quantity, filled := row.filled)] + rows[1..]
    else [rows[0]] + UpsertUnknown(rows[1..], row)
  }

  /** A submit, cancel or lookup that timed out, or a lookup that found nothing. Terminal
      rows stay as they are. */
  function LoseTrack(t: Tables, id: OrderId): Tables {
    var i := IndexOf(t.orders, id);
    if i.None? || !MayBecome(t.orders[i.value].state, ExecutionState.Unknown) then t
    else
      var o := t.orders[i.value].(state := ExecutionState.Unknown);
      t.(orders := t.orders[i.value := o], unknown := UpsertUnknown(t.unknown, UnknownRowOf(o)))
  }

  /** The first transaction of `cancel_remaining`. */
  function RequestCancel(t: Tables, id: OrderId): Tables {
    var i := IndexOf(t.orders, id);
    if i.None? then t
    else
      var o := t.orders[i.value];
      if o.state.IsUncertain() || o.state.IsTerminal() || o.brokerOrderId.None?
         || !MayBecome(o.state, ExecutionState.CancelPending) then t
      else t.(orders := t.orders[i.value := o.(state := ExecutionState.CancelPending)])
  }

  // ---- orders that were never sent ----

  predicate NeverSent(o: ExecutionOrder) {
    o.state.Submitting? && o.brokerOrderId.None?
  }

  /** `_mark_not_submitted` */
  function MarkNotSubmitted(t: Tables, id: OrderId): Tables {
    var i := IndexOf(t.orders, id);
    if i.None? || !NeverSent(t.orders[i.value]) then t
    else
      var o := t.orders[i.value];
      SyncProposal(t.(orders := t.orders[i.value := o.(state := ExecutionState.NotSubmitted)]), o.proposalId)
  }

  predicate Aborts(o: ExecutionOrder, pid: string, attempted: set<OrderId>) {
    o.proposalId == pid && o.id !in attempted && NeverSent(o)
  }

  function AbortedOrders(orders: seq<ExecutionOrder>, pid: string, attempted: set<OrderId>): (r: seq<ExecutionOrder>)
    ensures |r| == |orders|
    ensures forall i | 0 <= i < |r| ::
              r[i] == if Aborts(orders[i], pid, attempted) then orders[i].(state := ExecutionState.NotSubmitted) else orders[i]
  {
    seq(|orders|, i requires 0 <= i < |orders| =>
      if Aborts(orders[i], pid, attempted) then orders[i].(state := ExecutionState.NotSubmitted) else orders[i])
  }

  /** `_abort_unsent_legs` */
  function AbortUnsent(t: Tables, pid: string, attempted: set<OrderId>): Tables {
    if exists o <- t.orders :: Aborts(o, pid, attempted)
    then SyncProposal(t.(orders := AbortedOrders(t.orders, pid, attempted)), pid)
    else t
  }

  /** `stamp_reconciled_fills` */
  function StampedOrders(orders: seq<ExecutionOrder>): (r: seq<ExecutionOrder>)
    ensures |r| == |orders|
    ensures forall i | 0 <= i < |r| :: r[i] == orders[i].(reconciledFilled := orders[i].filled)
  {
    seq(|orders|, i requires 0 <= i < |orders| => orders[i].(reconciledFilled := orders[i].filled))
  }

  // ---- reservations of a new proposal ----

  /** Sold symbols, in order of first appearance. */
  function SoldSymbols(legs: seq<Leg>): seq<Symbol> {
    if legs == [] then []
    else
      var before := SoldSymbols(legs[..|legs| - 1]);
      var last := legs[|legs| - 1];
      if last.side.Sell? && last.symbol !in before then before + [last.symbol] else before
  }

  /** The order id that `sell_leg` keeps: that of the last sell leg of the symbol. */
  function LastSellId(legs: seq<Leg>, s: Symbol): Option<OrderId> {
    if legs == [] then None
    else
      var last := legs[|legs| - 1];
      if last.side.Sell? && last.symbol == s then Some(last.clientOrderId) else LastSellId(legs[..|legs| - 1], s)
  }

  lemma SellQuantityNonNegative(p: Proposal, s: Symbol)
    ensures p.SellQuantity(s) >= 0.0
  {
    SumNonNegative(p.legs, SellQuantityOf(s));
  }

  function SellRow(p: Proposal, s: Symbol, id: nat): Reservation {
    SellQuantityNonNegative(p, s);
    Reservation(id, p.proposalId, ReservationKind.SellQuantity, Some(s), Some(p.SellQuantity(s)), None,
                LastSellId(p.legs, s), true)
  }

  function SellRows(p: Proposal, symbols: seq<Symbol>, nextId: nat): (rows: seq<Reservation>)
    ensures |rows| == |symbols|
    ensures forall i | 0 <= i < |rows| :: rows[i] == SellRow(p, symbols[i], nextId + i)
  {
    seq(|symbols|, i requires 0 <= i < |symbols| => SellRow(p, symbols[i], nextId + i))
  }

  function CashRows(p: Proposal, id: nat): seq<Reservation> {
    if p.TotalBuyNotional() > 0.0
    then [Reservation(id, p.proposalId, CashDeployment, None, None, Some(p.TotalBuyNotional()), None, true)]
    else []
  }

  function IdentityRows(p: Proposal, nextId: nat): (rows: seq<Reservation>)
    ensures |rows| == |p.legs|
    ensures forall i | 0 <= i < |rows| ::
              rows[i] == Reservation(nextId + i, p.proposalId, OrderIdentity, Some(p.legs[i].symbol), None, None,
                                     Some(p.legs[i].clientOrderId), true)
  {
    seq(|p.legs|, i requires 0 <= i < |p.legs| =>
      Reservation(nextId + i, p.proposalId, OrderIdentity, Some(p.legs[i].symbol), None, None,
                  Some(p.legs[i].clientOrderId), true))
  }

  /** `persist_reservations`; row ids are assigned in order and never reused. */
  function NewRows(p: Proposal, nextId: nat): seq<Reservation> {
    var sells := SellRows(p, SoldSymbols(p.legs), nextId);
    var cash := CashRows(p, nextId + |sells|);
    sells + cash + IdentityRows(p, nextId + |sells| + |cash|)
  }

  /** The durable SUBMITTING row of a leg. */
  function IntentRow(l: Leg, pid: string): ExecutionOrder {
    ExecutionOrder(l.clientOrderId, pid, l.legIndex, l.symbol, l.side, l.quantity, 0.0, l.quantity,
                   ExecutionState.Submitting, None, None, l.referencePrice, 0.0, 0.0)
  }

  function IntentRows(p: Proposal): (rows: seq<ExecutionOrder>)
    ensures |rows| == |p.legs|
    ensures forall i | 0 <= i < |rows| :: rows[i] == IntentRow(p.legs[i], p.proposalId)
  {
    seq(|p.legs|, i requires 0 <= i < |p.legs| => IntentRow(p.legs[i], p.proposalId))
  }

  /** `persist_reservations` with its row of autonomous_executions. */
  function PersistReservations(t: Tables, p: Proposal, now: Instant): Tables {
    t.(reservations := t.reservations + NewRows(p, |t.reservations|),
       history := t.history + [AutonomousExecution(p.proposalId, now, AggregateNotional(p))])
  }

  predicate HasCapacity(t: Tables, pid: string) {
    exists r <- t.reservations :: r.active && r.proposalId == pid && !r.kind.OrderIdentity?
  }

  /** PRIMARY KEY(client_order_id) refuses an id that exists or repeats. */
  predicate FreshIds(ids: seq<OrderId>, taken: seq<OrderId>) {
    Distinct(ids) && forall id <- ids :: id !in taken
  }

  function OrderIds(orders: seq<ExecutionOrder>): (r: seq<OrderId>)
    ensures |r| == |orders| && forall i | 0 <= i < |r| :: r[i] == orders[i].id
  {
    seq(|orders|, i requires 0 <= i < |orders| => orders[i].id)
  }

  function LegIds(legs: seq<Leg>): (r: seq<OrderId>)
    ensures |r| == |legs| && forall i | 0 <= i < |r| :: r[i] == legs[i].clientOrderId
  {
    seq(|legs|, i requires 0 <= i < |legs| => legs[i].clientOrderId)
  }

  /** The writes of `_persist_submission_intents` once every gate has passed: capacity is
      reserved now unless it already is, and every leg gets its SUBMITTING row. */
  function WriteIntents(t: Tables, p: Proposal, now: Instant): Tables {
    if !FreshIds(LegIds(p.legs), OrderIds(t.orders)) then t
    else
      var backed := if HasCapacity(t, p.proposalId) then t else PersistReservations(t, p, now);
      backed.(orders := t.orders + IntentRows(p))
  }
}
