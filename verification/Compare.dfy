/** `compare_state` (backend/opaca/reconciliation/service.py): broker state against the local
    ledger. Five loops, one of them with an early break, compute the join of their findings. */
module Compare {
  import opened Calendar
  import opened Domain
  import opened Liquidity
  import opened Records
  import opened Results
  import opened Sums
  import opened Tables
  import opened Unresolved

  datatype Verdict = Agrees | Drifts | NeedsReview

  /** The join of Agrees < Drifts < NeedsReview. */
  function Worse(a: Verdict, b: Verdict): Verdict {
    if a.NeedsReview? || b.NeedsReview? then NeedsReview
    else if a.Drifts? || b.Drifts? then Drifts
    else Agrees
  }

  /** One recorded reason, with the severity that it stands for. */
  datatype Reason = Reason(severity: Verdict, subject: string)

  function Severest(reasons: seq<Reason>): Verdict {
    if reasons == [] then Agrees else Worse(Severest(reasons[..|reasons| - 1]), reasons[|reasons| - 1].severity)
  }

  /** Broker and unknown rows as adapted, before any check of filled against quantity. */
  type BrokerRow = o: RawBrokerOrder | NonNegativePair(o.quantity, o.filled)
    witness RawBrokerOrder.BrokerOrder(External(""), "", Buy, OrderState.Unknown, None, None)

  type UnknownRow = u: RawUnknownOrder | NonNegativePair(u.quantity, u.filled)
    witness RawUnknownOrder.UnknownOrder(External(""), "", "", Buy, OrderState.Unknown, None, None)

  datatype Inputs = Inputs(
    cash: real, positions: seq<Position>, orders: seq<BrokerRow>, previous: Option<seq<Position>>,
    reservations: seq<Reservation>, unknown: seq<UnknownRow>, events: seq<SettlementEvent>, asOf: Day,
    executions: seq<ExecutionOrder>)

  /** Broker rows have no duplicate symbol, and stored positions are unique by index. */
  predicate Adapted(x: Inputs) {
    DistinctSymbols(x.positions) && (x.previous.Some? ==> DistinctSymbols(x.previous.value))
  }

  // ---- the findings ----

  predicate CashInconsistent(x: Inputs) {
    ComputeLiquidity(x.cash, [], x.events, 0.0, x.asOf).Err?
  }

  function LocalClientIds(x: Inputs): set<OrderId> {
    (set r <- x.reservations | r.clientOrderId.Some? :: r.clientOrderId.value)
    + (set u <- x.unknown :: u.clientOrderId)
  }

  predicate Foreign(o: BrokerRow, localIds: set<OrderId>) {
    UnresolvedAtBroker(o.mappedState) && o.clientOrderId !in localIds
  }

  function SubmittedIds(x: Inputs): set<OrderId> {
    set u <- x.unknown | u.state.Submitted? || u.state.Unknown? || u.state.UnknownRequiresReview? :: u.clientOrderId
  }

  function BrokerIds(x: Inputs): set<OrderId> {
    set o <- x.orders :: o.clientOrderId
  }

  /** Signed fill of an order that no RECONCILED snapshot has stamped yet. */
  function IncrementOf(s: Symbol): ExecutionOrder -> real {
    (o: ExecutionOrder) =>
      if o.symbol != s then 0.0
      else if o.side.Buy? then o.filled - o.reconciledFilled else o.reconciledFilled - o.filled
  }

  function Explained(executions: seq<ExecutionOrder>, s: Symbol): real {
    SumBy(executions, IncrementOf(s))
  }

  predicate Moved(x: Inputs, s: Symbol)
    requires x.previous.Some?
  {
    Held(x.positions, s) - Held(x.previous.value, s) != Explained(x.executions, s)
  }

  predicate Reserves(r: Reservation) {
    r.active && r.kind.SellQuantity? && r.symbol.Some? && r.quantity.Some?
  }

  predicate HasReserved(reservations: seq<Reservation>, s: Symbol) {
    exists r <- reservations :: Reserves(r) && r.symbol.value == s
  }

  predicate ReservedWithoutPosition(r: Reservation, positions: seq<Position>) {
    Reserves(r) && PositionOf(positions, r.symbol.value).None?
  }

  function ReservationIds(reservations: seq<Reservation>): set<OrderId> {
    set r <- reservations | Reserves(r) && r.clientOrderId.Some? :: r.clientOrderId.value
  }

  predicate OtherSell(o: BrokerRow, ids: set<OrderId>) {
    o.side.Sell? && UnresolvedAtBroker(o.mappedState) && o.clientOrderId !in ids
  }

  function FilledOf(o: BrokerRow): real {
    if o.filled.Some? then o.filled.value else 0.0
  }

  predicate Overfilled(o: BrokerRow, ids: set<OrderId>) {
    OtherSell(o, ids) && o.quantity.Some? && FilledOf(o) > o.quantity.value
  }

  predicate UnsizedSell(o: BrokerRow, ids: set<OrderId>, s: Symbol) {
    OtherSell(o, ids) && o.quantity.None? && o.symbol == s
  }

  predicate HasUnsized(orders: seq<BrokerRow>, ids: set<OrderId>, s: Symbol) {
    exists o <- orders :: UnsizedSell(o, ids, s)
  }

  function OtherSellOf(ids: set<OrderId>, s: Symbol): BrokerRow -> real {
    (o: BrokerRow) => if OtherSell(o, ids) && o.quantity.Some? && o.symbol == s then o.quantity.value - FilledOf(o) else 0.0
  }

  predicate HoldUndeterminable(p: Position, orders: seq<BrokerRow>, ids: set<OrderId>) {
    p.quantity - p.available > 0.0 && HasUnsized(orders, ids, p.symbol)
  }

  predicate HoldUnexplained(p: Position, reservations: seq<Reservation>, orders: seq<BrokerRow>, ids: set<OrderId>) {
    && p.quantity - p.available > 0.0 && !HasUnsized(orders, ids, p.symbol)
    && p.quantity - p.available > SumBy(reservations, ActiveSellOf(p.symbol)) + SumBy(orders, OtherSellOf(ids, p.symbol))
  }

  predicate ContradictoryPair(u: UnknownRow) {
    !FillWithinQuantity(u.quantity, u.filled)
  }

  // ---- the verdict of each loop ----

  function OrdersVerdict(orders: seq<BrokerRow>, localIds: set<OrderId>): Verdict {
    if exists o <- orders :: o.mappedState.Unknown? then NeedsReview
    else if exists o <- orders :: Foreign(o, localIds) then Drifts
    else Agrees
  }

  function SubmittedVerdict(submitted: set<OrderId>, brokerIds: set<OrderId>): Verdict {
    if submitted <= brokerIds then Agrees else NeedsReview
  }

  ghost predicate PositionsMoved(x: Inputs) {
    x.previous.Some? && exists s :: Moved(x, s)
  }

  ghost function MovedVerdict(x: Inputs): Verdict {
    if PositionsMoved(x) then Drifts else Agrees
  }

  function ReservedVerdict(reservations: seq<Reservation>, positions: seq<Position>): Verdict {
    if exists r <- reservations :: ReservedWithoutPosition(r, positions) then Drifts else Agrees
  }

  function HoldVerdict(positions: seq<Position>, reservations: seq<Reservation>, orders: seq<BrokerRow>, ids: set<OrderId>)
    : Verdict
  {
    if exists p <- positions :: HoldUndeterminable(p, orders, ids) then NeedsReview
    else if exists p <- positions :: HoldUnexplained(p, reservations, orders, ids) then Drifts
    else Agrees
  }

  function ReviewVerdict(unknown: seq<UnknownRow>): Verdict {
    if exists u <- unknown :: u.state.UnknownRequiresReview? then NeedsReview else Agrees
  }

  /** An InvalidBrokerStateError is raised. */
  predicate Invalid(x: Inputs) {
    || (exists o <- x.orders :: Overfilled(o, ReservationIds(x.reservations)))
    || (exists u <- x.unknown :: ContradictoryPair(u))
  }

  ghost function VerdictOf(x: Inputs): Verdict {
    var ids := ReservationIds(x.reservations);
    Worse(Worse(Worse(if CashInconsistent(x) then Drifts else Agrees, OrdersVerdict(x.orders, LocalClientIds(x))),
                Worse(SubmittedVerdict(SubmittedIds(x), BrokerIds(x)), MovedVerdict(x))),
          Worse(Worse(ReservedVerdict(x.reservations, x.positions), HoldVerdict(x.positions, x.reservations, x.orders, ids)),
                ReviewVerdict(x.unknown)))
  }

  // ---- the loops ----

  lemma SeverestSnoc(reasons: seq<Reason>, r: Reason)
    ensures Severest(reasons + [r]) == Worse(Severest(reasons), r.severity)
  {
    assert (reasons + [r])[..|reasons|] == reasons;
  }

  predicate Tracks(status: Verdict, reasons: seq<Reason>) {
    && status == Severest(reasons) && (status.Agrees? <==> reasons == [])
    && forall r <- reasons :: !r.severity.Agrees?
  }

  /** `reasons.append` with the status update that goes with it. */
  method Record(status: Verdict, reasons: seq<Reason>, severity: Verdict, subject: string)
    returns (newStatus: Verdict, newReasons: seq<Reason>)
    requires Tracks(status, reasons) && !severity.Agrees?
    ensures Tracks(newStatus, newReasons) && newStatus == Worse(status, severity)
  {
    SeverestSnoc(reasons, Reason(severity, subject));
    newReasons := reasons + [Reason(severity, subject)];
    if severity.NeedsReview? || status.Agrees? {
      newStatus := severity;
    } else {
      newStatus := status;
    }
  }

  method CompareOrders(orders: seq<BrokerRow>, localIds: set<OrderId>, status: Verdict, reasons: seq<Reason>)
    returns (s: Verdict, r: seq<Reason>)
    requires Tracks(status, reasons)
    ensures Tracks(s, r) && s == Worse(status, OrdersVerdict(orders, localIds))
  {
    s, r := status, reasons;
    for i := 0 to |orders|
      invariant Tracks(s, r) && s == Worse(status, OrdersVerdict(orders[..i], localIds))
    {
      var o := orders[i];
      OrdersVerdictSnoc(orders, i, localIds);
      if o.mappedState.Unknown? {
        s, r := Record(s, r, NeedsReview, "unmapped broker order status");
      }
      if Foreign(o, localIds) {
        s, r := Record(s, r, Drifts, "broker order unknown locally");
      }
    }
    assert orders[..|orders|] == orders;
  }

  lemma OrdersVerdictSnoc(orders: seq<BrokerRow>, i: nat, localIds: set<OrderId>)
    requires i < |orders|
    ensures OrdersVerdict(orders[..i + 1], localIds)
         == Worse(OrdersVerdict(orders[..i], localIds),
                  if orders[i].mappedState.Unknown? then NeedsReview
                  else if Foreign(orders[i], localIds) then Drifts else Agrees)
  {
    assert orders[..i + 1] == orders[..i] + [orders[i]];
    assert forall o <- orders[..i + 1] :: o in orders[..i] || o == orders[i];
    assert orders[i] in orders[..i + 1] && forall o <- orders[..i] :: o in orders[..i + 1];
  }

  method CompareSubmitted(submitted: set<OrderId>, brokerIds: set<OrderId>, status: Verdict, reasons: seq<Reason>)
    returns (s: Verdict, r: seq<Reason>)
    requires Tracks(status, reasons)
    ensures Tracks(s, r) && s == Worse(status, SubmittedVerdict(submitted, brokerIds))
  {
    s, r := status, reasons;
    var rest := submitted;
    while rest != {}
      invariant rest <= submitted
      invariant Tracks(s, r) && s == Worse(status, SubmittedVerdict(submitted - rest, brokerIds))
      decreases rest
    {
      var id :| id in rest;
      if id !in brokerIds {
        assert id in submitted - (rest - {id});
        s, r := Record(s, r, NeedsReview, "local order absent at broker");
      }
      rest := rest - {id};
    }
    assert submitted - rest == submitted;
  }

  /** `_explained_position_delta`: symbols whose increments are all zero may be missing. */
  method ExplainedDelta(executions: seq<ExecutionOrder>) returns (explained: map<Symbol, real>)
    ensures forall s :: Get(explained, s) == Explained(executions, s)
  {
    explained := map[];
    for i := 0 to |executions|
      invariant forall s :: Get(explained, s) == Explained(executions[..i], s)
    {
      var o := executions[i];
      var increment := o.filled - o.reconciledFilled;
      ghost var before := explained;
      assert executions[..i + 1] == executions[..i] + [o];
      if increment != 0.0 {
        var signed := if o.side.Buy? then increment else -increment;
        explained := explained[o.symbol := Get(explained, o.symbol) + signed];
      }
      forall s ensures Get(explained, s) == Explained(executions[..i + 1], s) {
        SumSnoc<ExecutionOrder>(executions[..i], o, IncrementOf(s));
        assert Get(before, s) == Explained(executions[..i], s);
      }
    }
    assert executions[..|executions|] == executions;
  }

  /** The loop over `set(prev_qty) | set(curr_qty) | set(explained)` with its early break:
      it stops at some symbol that moved, whichever comes first. */
  method FindMoved(x: Inputs) returns (moved: bool)
    requires x.previous.Some?
    ensures moved <==> PositionsMoved(x)
  {
    var explained := ExplainedDelta(x.executions);
    var previous := x.previous.value;
    var symbols := (set p <- previous :: p.symbol) + (set p <- x.positions :: p.symbol) + explained.Keys;
    var rest := symbols;
    moved := false;
    while rest != {}
      invariant rest <= symbols && !moved
      invariant forall s <- symbols - rest :: !Moved(x, s)
      decreases rest
    {
      var s :| s in rest;
      var delta := Held(x.positions, s) - Held(previous, s);
      if delta != Get(explained, s) {
        assert Moved(x, s);
        moved := true;
        break;
      }
      rest := rest - {s};
    }
    forall s | s !in symbols ensures !Moved(x, s) {
      assert PositionOf(previous, s).None? && PositionOf(x.positions, s).None?;
      assert Get(explained, s) == 0.0;
    }
  }

  /** The reserved quantities by symbol, and the order ids that hold them. */
  method CollectReservations(reservations: seq<Reservation>) returns (reserved: map<Symbol, real>, ids: set<OrderId>)
    ensures forall s :: Get(reserved, s) == SumBy(reservations, ActiveSellOf(s))
    ensures forall s :: s in reserved <==> HasReserved(reservations, s)
    ensures ids == ReservationIds(reservations)
  {
    reserved, ids := map[], {};
    for i := 0 to |reservations|
      invariant forall s :: Get(reserved, s) == SumBy(reservations[..i], ActiveSellOf(s))
      invariant forall s :: s in reserved <==> HasReserved(reservations[..i], s)
      invariant ids == ReservationIds(reservations[..i])
    {
      var r := reservations[i];
      ghost var before := reserved;
      if Reserves(r) {
        reserved := reserved[r.symbol.value := Get(reserved, r.symbol.value) + r.quantity.value];
        if r.clientOrderId.Some? {
          ids := ids + {r.clientOrderId.value};
        }
      }
      ReservationsSnoc(reservations, i);
      forall s ensures Get(reserved, s) == SumBy(reservations[..i + 1], ActiveSellOf(s)) {
        assert Get(before, s) == SumBy(reservations[..i], ActiveSellOf(s));
        ReservedSnoc(reservations, i, s);
      }
    }
    assert reservations[..|reservations|] == reservations;
  }

  lemma ReservedSnoc(reservations: seq<Reservation>, i: nat, s: Symbol)
    requires i < |reservations|
    ensures SumBy(reservations[..i + 1], ActiveSellOf(s))
         == SumBy(reservations[..i], ActiveSellOf(s))
            + if Reserves(reservations[i]) && reservations[i].symbol.value == s then reservations[i].quantity.value else 0.0
  {
    assert reservations[..i + 1] == reservations[..i] + [reservations[i]];
    SumSnoc<Reservation>(reservations[..i], reservations[i], ActiveSellOf(s));
  }

  lemma ReservationsSnoc(reservations: seq<Reservation>, i: nat)
    requires i < |reservations|
    ensures forall s :: HasReserved(reservations[..i + 1], s)
                   <==> HasReserved(reservations[..i], s) || (Reserves(reservations[i]) && reservations[i].symbol.value == s)
    ensures ReservationIds(reservations[..i + 1])
         == ReservationIds(reservations[..i])
            + if Reserves(reservations[i]) && reservations[i].clientOrderId.Some?
              then {reservations[i].clientOrderId.value} else {}
  {
    var a, r := reservations[..i], reservations[i];
    assert reservations[..i + 1] == a + [r];
    assert forall q <- a + [r] :: q in a || q == r;
    assert r in a + [r] && forall q <- a :: q in a + [r];
    forall s ensures HasReserved(a + [r], s) <==> HasReserved(a, s) || (Reserves(r) && r.symbol.value == s) {
      if HasReserved(a, s) {
        var q :| q in a && Reserves(q) && q.symbol.value == s;
        assert q in a + [r];
      }
    }
  }

  method CompareReserved(x: Inputs, reserved: map<Symbol, real>, status: Verdict, reasons: seq<Reason>)
    returns (s: Verdict, r: seq<Reason>)
    requires Tracks(status, reasons)
    requires forall s :: s in reserved <==> HasReserved(x.reservations, s)
    ensures Tracks(s, r) && s == Worse(status, ReservedVerdict(x.reservations, x.positions))
  {
    s, r := status, reasons;
    ghost var missing := false;
    var rest := reserved.Keys;
    while rest != {}
      invariant rest <= reserved.Keys
      invariant Tracks(s, r) && s == Worse(status, if missing then Drifts else Agrees)
      invariant missing <==> exists k <- reserved.Keys - rest :: PositionOf(x.positions, k).None?
      decreases rest
    {
      var k :| k in rest;
      if PositionOf(x.positions, k).None? {
        s, r := Record(s, r, Drifts, k);
        missing := true;
        assert k in reserved.Keys - (rest - {k});
      }
      rest := rest - {k};
    }
    assert reserved.Keys - rest == reserved.Keys;
    if k :| k in reserved && PositionOf(x.positions, k).None? {
      assert HasReserved(x.reservations, k);
      var q :| q in x.reservations && Reserves(q) && q.symbol.value == k;
      assert ReservedWithoutPosition(q, x.positions);
    }
    if q :| q in x.reservations && ReservedWithoutPosition(q, x.positions) {
      assert HasReserved(x.reservations, q.symbol.value);
    }
  }

  /** Remaining quantities of broker sells that no local reservation holds. */
  method CollectBrokerSells(orders: seq<BrokerRow>, ids: set<OrderId>)
    returns (r: Result<(map<Symbol, real>, set<Symbol>)>)
    ensures r.Err? <==> exists o <- orders :: Overfilled(o, ids)
    ensures r.Ok? ==> forall s :: Get(r.value.0, s) == SumBy(orders, OtherSellOf(ids, s))
    ensures r.Ok? ==> forall s :: s in r.value.1 <==> HasUnsized(orders, ids, s)
  {
    var remaining: map<Symbol, real>, unsized := map[], {};
    for i := 0 to |orders|
      invariant forall o <- orders[..i] :: !Overfilled(o, ids)
      invariant forall s :: Get(remaining, s) == SumBy(orders[..i], OtherSellOf(ids, s))
      invariant forall s :: s in unsized <==> HasUnsized(orders[..i], ids, s)
    {
      var o := orders[i];
      ghost var before := remaining;
      BrokerSellsSnoc(orders, i, ids);
      if OtherSell(o, ids) {
        if o.quantity.None? {
          unsized := unsized + {o.symbol};
        } else if FilledOf(o) > o.quantity.value {
          assert Overfilled(o, ids);
          return Err;
        } else {
          remaining := remaining[o.symbol := Get(remaining, o.symbol) + (o.quantity.value - FilledOf(o))];
        }
      }
      forall s ensures Get(remaining, s) == SumBy(orders[..i + 1], OtherSellOf(ids, s)) {
        assert orders[..i + 1] == orders[..i] + [o];
        SumSnoc<BrokerRow>(orders[..i], o, OtherSellOf(ids, s));
        assert Get(before, s) == SumBy(orders[..i], OtherSellOf(ids, s));
      }
    }
    assert orders[..|orders|] == orders;
    return Ok((remaining, unsized));
  }

  lemma BrokerSellsSnoc(orders: seq<BrokerRow>, i: nat, ids: set<OrderId>)
    requires i < |orders|
    ensures forall s :: HasUnsized(orders[..i + 1], ids, s)
                   <==> HasUnsized(orders[..i], ids, s) || UnsizedSell(orders[i], ids, s)
    ensures forall o <- orders[..i + 1] :: o in orders[..i] || o == orders[i]
  {
    var a, o := orders[..i], orders[i];
    assert orders[..i + 1] == a + [o];
    assert forall q <- a + [o] :: q in a || q == o;
    assert o in a + [o] && forall q <- a :: q in a + [o];
  }

  method CompareHolds(x: Inputs, reserved: map<Symbol, real>, ids: set<OrderId>, others: map<Symbol, real>,
                      unsized: set<Symbol>, status: Verdict, reasons: seq<Reason>)
    returns (s: Verdict, r: seq<Reason>)
    requires Tracks(status, reasons)
    requires forall s :: Get(reserved, s) == SumBy(x.reservations, ActiveSellOf(s))
    requires forall s :: Get(others, s) == SumBy(x.orders, OtherSellOf(ids, s))
    requires forall s :: s in unsized <==> HasUnsized(x.orders, ids, s)
    ensures Tracks(s, r) && s == Worse(status, HoldVerdict(x.positions, x.reservations, x.orders, ids))
  {
    s, r := status, reasons;
    for i := 0 to |x.positions|
      invariant Tracks(s, r)
      invariant s == Worse(status, HoldVerdict(x.positions[..i], x.reservations, x.orders, ids))
    {
      var p := x.positions[i];
      var heldAside := p.quantity - p.available;
      HoldVerdictSnoc(x, i, ids);
      if heldAside > 0.0 {
        if p.symbol in unsized {
          s, r := Record(s, r, NeedsReview, p.symbol);
        } else if heldAside > Get(reserved, p.symbol) + Get(others, p.symbol) {
          s, r := Record(s, r, Drifts, p.symbol);
        }
      }
    }
    assert x.positions[..|x.positions|] == x.positions;
  }

  lemma HoldVerdictSnoc(x: Inputs, i: nat, ids: set<OrderId>)
    requires i < |x.positions|
    ensures HoldVerdict(x.positions[..i + 1], x.reservations, x.orders, ids)
         == Worse(HoldVerdict(x.positions[..i], x.reservations, x.orders, ids),
                  if HoldUndeterminable(x.positions[i], x.orders, ids) then NeedsReview
                  else if HoldUnexplained(x.positions[i], x.reservations, x.orders, ids) then Drifts else Agrees)
  {
    hide HoldUndeterminable, HoldUnexplained;
    var a, p := x.positions[..i], x.positions[i];
    assert x.positions[..i + 1] == a + [p];
    assert forall q <- a + [p] :: q in a || q == p;
    assert p in a + [p] && forall q <- a :: q in a + [p];
  }

  ghost function IdentityVerdict(x: Inputs): Verdict {
    Worse(Worse(if CashInconsistent(x) then Drifts else Agrees, OrdersVerdict(x.orders, LocalClientIds(x))),
          Worse(SubmittedVerdict(SubmittedIds(x), BrokerIds(x)), MovedVerdict(x)))
  }

  /** Cash, order identities and position moves. */
  method CompareIdentities(x: Inputs) returns (status: Verdict, reasons: seq<Reason>)
    requires Adapted(x)
    ensures Tracks(status, reasons) && status == IdentityVerdict(x)
  {
    status, reasons := Agrees, [];
    assert Tracks(status, reasons);
    hide OrdersVerdict, SubmittedVerdict, PositionsMoved, CashInconsistent, LocalClientIds, SubmittedIds, BrokerIds, Tracks;
    if CashInconsistent(x) {
      status, reasons := Record(status, reasons, Drifts, "broker cash");
    }
    status, reasons := CompareOrders(x.orders, LocalClientIds(x), status, reasons);
    status, reasons := CompareSubmitted(SubmittedIds(x), BrokerIds(x), status, reasons);
    if x.previous.Some? {
      var moved := FindMoved(x);
      if moved {
        status, reasons := Record(status, reasons, Drifts, "positions");
      }
    }
    NotMoved(x);
  }

  /** `compare_state`: RECONCILED exactly when no reason was recorded, and otherwise the
      join of the severities found. */
  method CompareState(x: Inputs) returns (r: Result<(Verdict, seq<Reason>)>)
    requires Adapted(x)
    ensures r.Err? <==> Invalid(x)
    ensures r.Ok? ==> r.value.0 == VerdictOf(x) == Severest(r.value.1)
    ensures r.Ok? ==> (r.value.0.Agrees? <==> r.value.1 == [])
  {
    hide OrdersVerdict, SubmittedVerdict, HoldVerdict, ReservedVerdict, PositionsMoved, CashInconsistent, LocalClientIds,
         SubmittedIds, BrokerIds, ReservationIds, SumBy, Severest;
    var status, reasons := CompareIdentities(x);
    var reserved, ids := CollectReservations(x.reservations);
    status, reasons := CompareReserved(x, reserved, status, reasons);
    var sells := CollectBrokerSells(x.orders, ids);
    if sells.Err? {
      return Err;
    }
    status, reasons := CompareHolds(x, reserved, ids, sells.value.0, sells.value.1, status, reasons);
    if exists u <- x.unknown :: u.state.UnknownRequiresReview? {
      status, reasons := Record(status, reasons, NeedsReview, "local unknown order");
    }
    if exists u <- x.unknown :: ContradictoryPair(u) {
      return Err;
    }
    return Ok((status, reasons));
  }

  lemma NotMoved(x: Inputs)
    ensures x.previous.None? ==> !PositionsMoved(x)
  {
  }

  // ---- what RECONCILED means ----

  /** No finding of any kind. */
  ghost predicate Clean(x: Inputs) {
    && !CashInconsistent(x)
    && (forall o <- x.orders :: !o.mappedState.Unknown? && !Foreign(o, LocalClientIds(x)))
    && SubmittedIds(x) <= BrokerIds(x)
    && (x.previous.Some? ==> forall s :: !Moved(x, s))
    && (forall r <- x.reservations :: !ReservedWithoutPosition(r, x.positions))
    && (forall p <- x.positions ::
          var ids := ReservationIds(x.reservations);
          !HoldUndeterminable(p, x.orders, ids) && !HoldUnexplained(p, x.reservations, x.orders, ids))
    && (forall u <- x.unknown :: !u.state.UnknownRequiresReview?)
  }

  lemma AgreesIsClean(x: Inputs)
    ensures VerdictOf(x).Agrees? <==> Clean(x)
  {
    hide HoldUndeterminable, HoldUnexplained, ReservedWithoutPosition, Foreign;
  }

  // ---- the verdict does not depend on any order of rows ----

  /** The same rows in another order. */
  ghost predicate Reordered(x: Inputs, y: Inputs) {
    && x.cash == y.cash && x.asOf == y.asOf && x.previous.Some? == y.previous.Some?
    && multiset(x.positions) == multiset(y.positions) && multiset(x.orders) == multiset(y.orders)
    && (x.previous.Some? ==> multiset(x.previous.value) == multiset(y.previous.value))
    && multiset(x.reservations) == multiset(y.reservations) && multiset(x.unknown) == multiset(y.unknown)
    && multiset(x.events) == multiset(y.events) && multiset(x.executions) == multiset(y.executions)
  }

  lemma SameMembers<T>(a: seq<T>, b: seq<T>)
    requires multiset(a) == multiset(b)
    ensures forall e :: e in a <==> e in b
  {
    forall e ensures e in a <==> e in b {
      assert e in a <==> e in multiset(a);
      assert e in b <==> e in multiset(b);
    }
  }

  lemma SamePositions(a: seq<Position>, b: seq<Position>, s: Symbol)
    requires multiset(a) == multiset(b) && DistinctSymbols(a) && DistinctSymbols(b)
    ensures Held(a, s) == Held(b, s)
    ensures PositionOf(a, s).None? <==> PositionOf(b, s).None?
  {
    SameMembers(a, b);
    var p := PositionOf(a, s);
    if p.Some? {
      HeldOfMember(a, p.value);
      HeldOfMember(b, p.value);
    }
  }

  lemma {:induction false} UnsettledSum(events: seq<SettlementEvent>, asOf: Day)
    ensures SumBy(Unsettled(events, asOf), EventAmount()) == SumBy(events, LaterAmount(asOf))
  {
    if events != [] {
      UnsettledSum(events[1..], asOf);
      var rest := Unsettled(events[1..], asOf);
      if events[0].settlementDate > asOf {
        var one: seq<SettlementEvent> := [events[0]];
        assert Unsettled(events, asOf) == one + rest && one[1..] == [];
        SumAppend<SettlementEvent>(one, rest, EventAmount());
      } else {
        assert Unsettled(events, asOf) == rest;
      }
    }
  }

  function LaterAmount(asOf: Day): SettlementEvent -> real {
    (e: SettlementEvent) => if e.settlementDate > asOf then e.amount else 0.0
  }

  lemma SameCash(x: Inputs, y: Inputs)
    requires Reordered(x, y)
    ensures CashInconsistent(x) == CashInconsistent(y)
  {
    UnsettledSum(x.events, x.asOf);
    UnsettledSum(y.events, y.asOf);
    SumPermutation<SettlementEvent>(x.events, y.events, LaterAmount(x.asOf));
  }

  lemma SameIds(x: Inputs, y: Inputs)
    requires Reordered(x, y)
    ensures LocalClientIds(x) == LocalClientIds(y) && SubmittedIds(x) == SubmittedIds(y) && BrokerIds(x) == BrokerIds(y)
    ensures ReservationIds(x.reservations) == ReservationIds(y.reservations)
  {
    SameMembers(x.reservations, y.reservations);
    SameMembers(x.unknown, y.unknown);
    SameMembers(x.orders, y.orders);
  }

  lemma SameOrders(x: Inputs, y: Inputs, ids: set<OrderId>)
    requires Reordered(x, y)
    ensures OrdersVerdict(x.orders, ids) == OrdersVerdict(y.orders, ids)
    ensures (exists o <- x.orders :: Overfilled(o, ids)) <==> (exists o <- y.orders :: Overfilled(o, ids))
  {
    hide Foreign, Overfilled;
    SameMembers(x.orders, y.orders);
  }

  lemma SameMoves(x: Inputs, y: Inputs)
    requires Reordered(x, y) && Adapted(x) && Adapted(y)
    ensures PositionsMoved(x) == PositionsMoved(y)
  {
    if x.previous.Some? {
      forall s ensures Moved(x, s) == Moved(y, s) {
        SamePositions(x.positions, y.positions, s);
        SamePositions(x.previous.value, y.previous.value, s);
        SumPermutation<ExecutionOrder>(x.executions, y.executions, IncrementOf(s));
      }
    }
  }

  lemma SameReserved(x: Inputs, y: Inputs)
    requires Reordered(x, y) && Adapted(x) && Adapted(y)
    ensures ReservedVerdict(x.reservations, x.positions) == ReservedVerdict(y.reservations, y.positions)
  {
    SameMembers(x.reservations, y.reservations);
    forall r: Reservation
      ensures ReservedWithoutPosition(r, x.positions) == ReservedWithoutPosition(r, y.positions)
    {
      if Reserves(r) {
        SamePositions(x.positions, y.positions, r.symbol.value);
      }
    }
  }

  lemma SameHolds(x: Inputs, y: Inputs, ids: set<OrderId>)
    requires Reordered(x, y)
    ensures HoldVerdict(x.positions, x.reservations, x.orders, ids) == HoldVerdict(y.positions, y.reservations, y.orders, ids)
  {
    SameMembers(x.orders, y.orders);
    SameMembers(x.positions, y.positions);
    forall p: Position
      ensures HoldUndeterminable(p, x.orders, ids) == HoldUndeterminable(p, y.orders, ids)
      ensures HoldUnexplained(p, x.reservations, x.orders, ids) == HoldUnexplained(p, y.reservations, y.orders, ids)
    {
      SumPermutation<Reservation>(x.reservations, y.reservations, ActiveSellOf(p.symbol));
      SumPermutation<BrokerRow>(x.orders, y.orders, OtherSellOf(ids, p.symbol));
      assert HasUnsized(x.orders, ids, p.symbol) <==> HasUnsized(y.orders, ids, p.symbol);
    }
  }

  lemma SameUnknown(x: Inputs, y: Inputs)
    requires Reordered(x, y)
    ensures ReviewVerdict(x.unknown) == ReviewVerdict(y.unknown)
    ensures (exists u <- x.unknown :: ContradictoryPair(u)) <==> (exists u <- y.unknown :: ContradictoryPair(u))
  {
    hide ContradictoryPair;
    SameMembers(x.unknown, y.unknown);
  }

  /** Neither the verdict nor the raised error depends on the order of any table. */
  lemma VerdictIgnoresOrder(x: Inputs, y: Inputs)
    requires Reordered(x, y) && Adapted(x) && Adapted(y)
    ensures VerdictOf(x) == VerdictOf(y) && Invalid(x) == Invalid(y)
  {
    hide OrdersVerdict, SubmittedVerdict, HoldVerdict, ReservedVerdict, PositionsMoved, ReviewVerdict,
         CashInconsistent, Reordered;
    SameCash(x, y);
    SameIds(x, y);
    SameOrders(x, y, LocalClientIds(x));
    SameOrders(x, y, ReservationIds(x.reservations));
    SameMoves(x, y);
    SameReserved(x, y);
    SameHolds(x, y, ReservationIds(x.reservations));
    SameUnknown(x, y);
  }
}
