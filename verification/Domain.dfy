/** Frozen domain values (backend/opaca/domain/models.py). The conditions that the
    dataclasses validate on construction are subset types here. */
module Domain {
  import opened Calendar
  import opened Money
  import opened Results
  import opened Sums

  type Symbol = string

  /** An instant, in microseconds; the UTC date of an instant is its day number. */
  type Instant = int

  const MICROS_PER_SECOND := 1_000_000
  const MICROS_PER_HOUR := 3_600 * MICROS_PER_SECOND
  const MICROS_PER_DAY := 24 * MICROS_PER_HOUR

  function DateOf(now: Instant): Day {
    now / MICROS_PER_DAY
  }

  datatype Side = Buy | Sell

  /** The deterministic hash of proposal and leg is an injective constructor; so is the
      fallback name of a reservation that carries no order. */
  datatype OrderId =
    | Derived(proposalId: string, legIndex: int)
    | ReservationRef(reservationId: nat)
    | External(text: string)

  datatype ProposedOrder = ProposedOrder(
    proposalId: string, legIndex: int, symbol: Symbol, side: Side,
    quantity: real, referencePrice: real, clientOrderId: OrderId)

  type Leg = o: ProposedOrder | o.quantity > 0.0 && o.referencePrice > 0.0
    witness ProposedOrder("", 0, "", Buy, 1.0, 1.0, External(""))

  /** Cent-floored cost of a quantity. */
  function BudgetOf(quantity: real, price: real): (r: real)
    requires quantity >= 0.0 && price >= 0.0
    ensures 0.0 <= r <= quantity * price < r + CENT && WholeCents(r)
  {
    ProductNonNegative(quantity, price);
    RoundBudget(quantity * price)
  }

  lemma BudgetMonotone(a: real, b: real, price: real)
    requires 0.0 <= a <= b && price >= 0.0
    ensures BudgetOf(a, price) <= BudgetOf(b, price)
  {
    ProductMonotone(a, b, price);
    ProductNonNegative(a, price);
    TruncateCentsMonotone(a * price, b * price);
  }

  lemma BudgetOfNothing(price: real)
    requires price >= 0.0
    ensures BudgetOf(0.0, price) == 0.0
  {
    assert 0.0 * price == 0.0;
  }

  function Notional(leg: Leg): (r: real)
    ensures 0.0 <= r <= leg.quantity * leg.referencePrice < r + CENT
  {
    BudgetOf(leg.quantity, leg.referencePrice)
  }

  function BuyNotionalOf(): Leg -> real {
    (l: Leg) => if l.side.Buy? then Notional(l) else 0.0
  }

  function SellNotionalOf(): Leg -> real {
    (l: Leg) => if l.side.Sell? then Notional(l) else 0.0
  }

  function SellQuantityOf(s: Symbol): Leg -> real {
    (l: Leg) => if l.side.Sell? && l.symbol == s then l.quantity else 0.0
  }

  function BuyQuantityOf(s: Symbol): Leg -> real {
    (l: Leg) => if l.side.Buy? && l.symbol == s then l.quantity else 0.0
  }

  datatype Proposal = Proposal(proposalId: string, legs: seq<Leg>) {
    function TotalBuyNotional(): real {
      SumBy(legs, BuyNotionalOf())
    }

    function TotalSellNotional(): real {
      SumBy(legs, SellNotionalOf())
    }

    function SellQuantity(s: Symbol): real {
      SumBy(legs, SellQuantityOf(s))
    }

    predicate HasSells() {
      exists l <- legs :: l.side.Sell?
    }
  }

  datatype RawObligation = Obligation(obligationId: string, amount: real, dueDate: Day)

  type Obligation = o: RawObligation | o.amount > 0.0 witness RawObligation.Obligation("", 1.0, 0)

  datatype EventKey =
    | LegKey(proposalId: string, legIndex: int)
    | FillKey(order: OrderId, filled: real)

  datatype RawSettlementEvent = SettlementEvent(
    eventId: EventKey, symbol: Symbol, tradeDate: Day, settlementDate: Day, amount: real)

  type SettlementEvent = e: RawSettlementEvent | e.amount >= 0.0 && e.tradeDate <= e.settlementDate
    witness RawSettlementEvent.SettlementEvent(LegKey("", 0), "", 0, 0, 0.0)

  datatype RawPosition = Position(symbol: Symbol, quantity: real, available: real, marketValue: real)

  /** A reconciled long position. */
  type Position = p: RawPosition | 0.0 <= p.available <= p.quantity && p.marketValue >= 0.0
    witness RawPosition.Position("", 0.0, 0.0, 0.0)

  /** UNIQUE(snapshot_id, symbol) on the position table. */
  predicate DistinctSymbols(positions: seq<Position>) {
    forall i, j | 0 <= i < j < |positions| :: positions[i].symbol != positions[j].symbol
  }

  function PositionOf(positions: seq<Position>, s: Symbol): (r: Option<Position>)
    ensures r.Some? ==> r.value in positions && r.value.symbol == s
    ensures r.None? ==> forall p <- positions :: p.symbol != s
  {
    if positions == [] then None
    else if positions[0].symbol == s then Some(positions[0])
    else PositionOf(positions[1..], s)
  }

  function Held(positions: seq<Position>, s: Symbol): (q: real)
    ensures q >= 0.0
  {
    var p := PositionOf(positions, s);
    if p.Some? then p.value.quantity else 0.0
  }

  lemma {:induction false} HeldOfMember(positions: seq<Position>, p: Position)
    requires DistinctSymbols(positions) && p in positions
    ensures Held(positions, p.symbol) == p.quantity
  {
    if positions[0] != p {
      assert p in positions[1..];
      HeldOfMember(positions[1..], p);
    }
  }

  type Prices = m: map<Symbol, real> | forall s <- m :: m[s] > 0.0 witness map[]

  datatype OrderState =
    | Proposed | PolicyValidated | AutoAuthorized | ApprovalRequired | HumanApproved
    | Submitted | Unknown | UnknownRequiresReview | Accepted | New | PartiallyFilled
    | Filled | Rejected | Expired | Canceled | CanceledRemainder | Reconciled | Failed
  {
    /** Anything that might still exist at the broker is unresolved. */
    predicate IsUnresolved() {
      !(Filled? || Rejected? || Expired? || Canceled? || CanceledRemainder? || Reconciled? || Failed?)
    }
  }

  datatype RawUnresolvedOrder = UnresolvedOrder(
    symbol: Symbol, side: Side, clientOrderId: Option<OrderId>, state: OrderState,
    quantity: Option<real>, filled: Option<real>)

  type UnresolvedOrder = o: RawUnresolvedOrder |
    && (o.quantity.Some? ==> o.quantity.value >= 0.0)
    && (o.filled.Some? ==> o.filled.value >= 0.0)
    && (o.quantity.Some? && o.filled.Some? ==> o.filled.value <= o.quantity.value)
    witness RawUnresolvedOrder.UnresolvedOrder("", Buy, None, Proposed, None, None)

  /** `remaining_quantity`: None when it cannot be determined safely. */
  function Remaining(o: UnresolvedOrder): (r: Option<real>)
    ensures r.Some? ==> r.value >= 0.0
  {
    if o.quantity.None? then None
    else Some(o.quantity.value - if o.filled.Some? then o.filled.value else 0.0)
  }
}
