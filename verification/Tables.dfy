/** The local tables that the execution and reservation transactions read and write
    (backend/opaca/persistence/schema.py, store.py). A transaction that raises leaves
    them unchanged. */
module Tables {
  import opened Authority
  import opened Domain
  import opened Money
  import opened Records
  import opened Results
  import opened States
  import opened Sums

  datatype RawExecutionOrder = ExecutionOrder(
    id: OrderId, proposalId: string, legIndex: int, symbol: Symbol, side: Side,
    quantity: real, filled: real, remaining: real, state: ExecutionState,
    brokerOrderId: Option<string>, filledAvgPrice: Option<real>, referencePrice: real,
    reconciledFilled: real, settledProceeds: real)

  /** A row of execution_orders; every writer keeps remaining = quantity - filled >= 0. */
  type ExecutionOrder = o: RawExecutionOrder |
    && o.referencePrice > 0.0 && o.filled >= 0.0 && o.remaining >= 0.0
    && o.remaining == o.quantity - o.filled
    && (o.filledAvgPrice.Some? ==> o.filledAvgPrice.value >= 0.0)
    witness RawExecutionOrder.ExecutionOrder(External(""), "", 0, "", Buy, 0.0, 0.0, 0.0, ExecutionState.Submitting,
                                             None, None, 1.0, 0.0, 0.0)

  datatype AuthorityResult = Auto | NeedsApproval | Reject

  datatype ProposalRow = ProposalRow(
    proposal: Proposal, authority: AuthorityResult, expiresAt: Option<Instant>, snapshotVersion: int)

  datatype RawSnapshot = Snapshot(
    version: int, reconciled: bool, capturedAt: Instant, cash: real, positions: seq<Position>,
    orders: seq<BrokerOrder>, tradable: set<Symbol>)

  type Snapshot = s: RawSnapshot | s.cash >= 0.0 && DistinctSymbols(s.positions)
    witness RawSnapshot.Snapshot(0, false, 0, 0.0, [], [], {})

  datatype Tables = Tables(
    proposals: seq<ProposalRow>, reservations: seq<Reservation>, orders: seq<ExecutionOrder>,
    unknown: seq<UnknownOrder>, events: seq<SettlementEvent>, history: seq<AutonomousExecution>,
    snapshot: Option<Snapshot>)

  /** The row of a proposal, by primary key. */
  function RowOf(proposals: seq<ProposalRow>, pid: string): (r: Option<ProposalRow>)
    ensures r.Some? ==> r.value in proposals && r.value.proposal.proposalId == pid
    ensures r.None? ==> forall p <- proposals :: p.proposal.proposalId != pid
  {
    if proposals == [] then None
    else if proposals[0].proposal.proposalId == pid then Some(proposals[0])
    else RowOf(proposals[1..], pid)
  }

  /** `load_proposal_legs` */
  function LegsOf(t: Tables, pid: string): seq<Leg> {
    var row := RowOf(t.proposals, pid);
    if row.Some? then row.value.proposal.legs else []
  }

  /** Position of an order in the table. */
  function IndexOf(orders: seq<ExecutionOrder>, id: OrderId): (r: Option<nat>)
    ensures r.Some? ==> r.value < |orders| && orders[r.value].id == id
    ensures r.None? ==> forall o <- orders :: o.id != id
  {
    if orders == [] then None
    else if orders[0].id == id then Some(0)
    else
      var rest := IndexOf(orders[1..], id);
      if rest.Some? then Some(rest.value + 1) else None
  }

  predicate DistinctOrders(orders: seq<ExecutionOrder>) {
    forall i, j | 0 <= i < j < |orders| :: orders[i].id != orders[j].id
  }

  /** The columns of idx_reservations_active_sell and idx_reservations_active_cash. */
  datatype ActiveKey = Unindexed | SellIndex(proposalId: string, symbol: Option<Symbol>) | CashIndex(proposalId: string)

  function KeyOf(r: Reservation): ActiveKey {
    if !r.active || r.kind.OrderIdentity? then Unindexed
    else if r.kind.SellQuantity? then SellIndex(r.proposalId, r.symbol)
    else CashIndex(r.proposalId)
  }

  predicate UniqueActive(rs: seq<Reservation>) {
    forall i, j | 0 <= i < j < |rs| :: KeyOf(rs[i]) == KeyOf(rs[j]) ==> KeyOf(rs[i]).Unindexed?
  }

  // ---- what the orders of a proposal may still consume ----

  function Open(o: ExecutionOrder): (q: real)
    ensures q >= 0.0
  {
    if o.state.IsTerminal() then 0.0 else o.remaining
  }

  function OpenSellOf(pid: string, s: Symbol): ExecutionOrder -> real {
    (o: ExecutionOrder) => if o.proposalId == pid && o.side.Sell? && o.symbol == s then Open(o) else 0.0
  }

  function OpenBuyOf(pid: string): ExecutionOrder -> real {
    (o: ExecutionOrder) => if o.proposalId == pid && o.side.Buy? then BudgetOf(Open(o), o.referencePrice) else 0.0
  }

  predicate Executed(orders: seq<ExecutionOrder>, pid: string, id: OrderId) {
    exists o <- orders :: o.proposalId == pid && o.id == id
  }

  function UnsentSellOf(orders: seq<ExecutionOrder>, pid: string, s: Symbol): Leg -> real {
    (l: Leg) => if l.side.Sell? && l.symbol == s && !Executed(orders, pid, l.clientOrderId) then l.quantity else 0.0
  }

  function UnsentBuyOf(orders: seq<ExecutionOrder>, pid: string): Leg -> real {
    (l: Leg) => if l.side.Buy? && !Executed(orders, pid, l.clientOrderId) then Notional(l) else 0.0
  }

  /** Quantity of a symbol that a proposal may still sell. */
  function SellRemaining(t: Tables, pid: string, s: Symbol): real {
    SumBy(t.orders, OpenSellOf(pid, s)) + SumBy(LegsOf(t, pid), UnsentSellOf(t.orders, pid, s))
  }

  /** Cent-floored notional that a proposal may still buy. */
  function CashRemaining(t: Tables, pid: string): real {
    SumBy(t.orders, OpenBuyOf(pid)) + SumBy(LegsOf(t, pid), UnsentBuyOf(t.orders, pid))
  }

  predicate Started(t: Tables, pid: string) {
    exists o <- t.orders :: o.proposalId == pid
  }

  /** Some order of the proposal is UNKNOWN or SUBMITTING. */
  predicate Uncertain(t: Tables, pid: string) {
    exists o <- t.orders :: o.proposalId == pid && o.state.IsUncertain()
  }

  predicate AllTerminal(t: Tables, pid: string) {
    forall o <- t.orders | o.proposalId == pid :: o.state.IsTerminal()
  }

  // ---- what is reserved ----

  predicate IsSellRow(r: Reservation, pid: string, s: Symbol) {
    KeyOf(r) == SellIndex(pid, Some(s))
  }

  predicate IsCashRow(r: Reservation, pid: string) {
    KeyOf(r) == CashIndex(pid)
  }

  function ActiveSellFor(pid: string, s: Symbol): Reservation -> real {
    (r: Reservation) => if IsSellRow(r, pid, s) then QuantityOf(r) else 0.0
  }

  function ActiveCashFor(pid: string): Reservation -> real {
    (r: Reservation) => if IsCashRow(r, pid) then AmountOf(r) else 0.0
  }

  function ReservedSell(t: Tables, pid: string, s: Symbol): real {
    SumBy(t.reservations, ActiveSellFor(pid, s))
  }

  function ReservedCash(t: Tables, pid: string): real {
    SumBy(t.reservations, ActiveCashFor(pid))
  }
}
