/** Rows of the local tables (backend/opaca/persistence/types.py). */
module Records {
  import opened Domain
  import opened Results
  import opened Sums

  datatype ReservationKind = SellQuantity | CashDeployment | OrderIdentity

  datatype RawReservation = Reservation(
    reservationId: nat, proposalId: string, kind: ReservationKind, symbol: Option<Symbol>,
    quantity: Option<real>, amount: Option<real>, clientOrderId: Option<OrderId>, active: bool)

  type Reservation = r: RawReservation |
    && (r.quantity.Some? ==> r.quantity.value >= 0.0)
    && (r.amount.Some? ==> r.amount.value >= 0.0)
    witness RawReservation.Reservation(0, "", OrderIdentity, None, None, None, None, false)

  predicate IsActiveSell(r: Reservation, s: Symbol) {
    r.active && r.kind.SellQuantity? && r.symbol == Some(s)
  }

  function QuantityOf(r: Reservation): (q: real)
    ensures q >= 0.0
  {
    if r.quantity.Some? then r.quantity.value else 0.0
  }

  function AmountOf(r: Reservation): (a: real)
    ensures a >= 0.0
  {
    if r.amount.Some? then r.amount.value else 0.0
  }

  /** Quantity of an ACTIVE SELL row of a symbol. */
  function ActiveSellOf(s: Symbol): Reservation -> real {
    (r: Reservation) => if IsActiveSell(r, s) then QuantityOf(r) else 0.0
  }

  /** Amount of an ACTIVE CASH row. */
  function ActiveCashOf(): Reservation -> real {
    (r: Reservation) => if r.active && r.kind.CashDeployment? then AmountOf(r) else 0.0
  }

  function ProposalOf(): Reservation -> string {
    (r: Reservation) => r.proposalId
  }

  datatype RawUnknownOrder = UnknownOrder(
    clientOrderId: OrderId, proposalId: string, symbol: Symbol, side: Side, state: OrderState,
    quantity: Option<real>, filled: Option<real>)

  predicate FillWithinQuantity(quantity: Option<real>, filled: Option<real>) {
    quantity.Some? && filled.Some? ==> filled.value <= quantity.value
  }

  predicate NonNegativePair(quantity: Option<real>, filled: Option<real>) {
    && (quantity.Some? ==> quantity.value >= 0.0)
    && (filled.Some? ==> filled.value >= 0.0)
  }

  type UnknownOrder = u: RawUnknownOrder |
    NonNegativePair(u.quantity, u.filled) && FillWithinQuantity(u.quantity, u.filled)
    witness RawUnknownOrder.UnknownOrder(External(""), "", "", Buy, Unknown, None, None)

  datatype RawBrokerOrder = BrokerOrder(
    clientOrderId: OrderId, symbol: Symbol, side: Side, mappedState: OrderState,
    quantity: Option<real>, filled: Option<real>)

  type BrokerOrder = o: RawBrokerOrder |
    NonNegativePair(o.quantity, o.filled) && FillWithinQuantity(o.quantity, o.filled)
    witness RawBrokerOrder.BrokerOrder(External(""), "", Buy, Unknown, None, None)

  /** UNRESOLVED_ALPACA_STATES */
  predicate UnresolvedAtBroker(s: OrderState) {
    s.New? || s.Accepted? || s.PartiallyFilled? || s.Unknown? || s.UnknownRequiresReview? || s.Submitted?
  }
}
