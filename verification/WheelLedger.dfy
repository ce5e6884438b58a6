/** The Competition Wheel's ledger: atomic authorization, order-state recording and
    reconciliation (backend/opaca/wheel/lifecycle.py, reconciliation.py, store.py). */
module WheelLedger {
  import opened Calendar
  import opened Domain
  import opened Liquidity
  import opened Money
  import opened Results
  import opened Sums
  import opened Unresolved
  import opened WheelExposure

  datatype WheelOrderState =
    | Authorized | Submitted | Open | PartiallyFilled | Filled | CancelPending | Cancelled
    | Rejected | Expired | NotSubmitted | Unknown

  datatype WheelState = Cash | ShortPutOpen | SharesHeld | CoveredCallOpen | UnknownState

  datatype WheelOrder = WheelOrder(
    id: WheelOrderId, occSymbol: string, status: WheelOrderState, reservationId: Option<ReservationId>,
    capital: Option<real>, snapshotVersion: string)

  /** Lot `assignment:<client order id>`. */
  datatype StoredLot = StoredLot(order: WheelOrderId, lot: ShareLot)

  datatype WheelTables = WheelTables(
    account: Option<string>, base: Option<real>, boundAt: Option<Instant>, snapshotVersion: Option<string>,
    reservations: seq<WheelReservation>, orders: seq<WheelOrder>, lots: seq<StoredLot>,
    states: map<Symbol, WheelState>)

  // ---- the hard guard ----

  datatype RawContract = OptionContract(
    occSymbol: string, underlying: Symbol, isPut: bool, strike: real, expiration: Day, multiplier: real,
    active: bool, tradable: bool)

  type OptionContract = c: RawContract | c.strike > 0.0 && c.multiplier > 0.0 && c.occSymbol != "" && c.underlying != ""
    witness RawContract.OptionContract("P", "U", true, 1.0, 0, 1.0, true, true)

  datatype WheelProposal = WheelProposal(
    action: WheelAction, contract: OptionContract, bid: real, ask: real, asOf: Instant, contracts: int, limitPremium: real)

  datatype WheelPolicy = WheelPolicy(
    minDte: int, maxDte: int, maxQuoteAge: int, blackout: int, minYield: real, hardFraction: real,
    autoProposal: real, autoUnderlying: real, autoAggregate: real, openingContracts: int)

  const MICROS_PER_MINUTE := 60 * MICROS_PER_SECOND
  const DEFAULT_POLICY := WheelPolicy(1, 7, 15 * MICROS_PER_SECOND, 30 * MICROS_PER_MINUTE, 0.001, 0.25, 0.10, 0.10, 0.20, 1)

  datatype WheelContext = WheelContext(
    base: real, cash: real, held: map<Symbol, real>, reservations: seq<WheelReservation>, permitted: set<Symbol>,
    wheelState: WheelState, unresolved: set<Symbol>, buyingPower: Option<real>, collateralConsistent: bool,
    accountMatches: bool, paperVerified: bool, killSwitch: bool, now: Instant, policy: WheelPolicy,
    sessionClose: Option<Instant>)

  /** `assignment_capital` */
  function AssignmentCapital(p: WheelProposal): real {
    p.contract.strike * p.contract.multiplier * p.contracts as real
  }

  predicate OpeningState(c: WheelContext, p: WheelProposal) {
    !c.killSwitch && c.paperVerified && c.wheelState.Cash? && p.contract.underlying !in c.unresolved
  }

  predicate Eligible(c: WheelContext, p: WheelProposal) {
    var dte := p.contract.expiration - DateOf(c.now);
    && p.contract.underlying in c.permitted && p.action.SellCashSecuredPut? && p.contract.isPut
    && p.contract.active && p.contract.tradable && c.policy.minDte <= dte <= c.policy.maxDte
    && p.contracts == c.policy.openingContracts
    && (c.sessionClose.Some? ==> c.now < c.sessionClose.value - c.policy.blackout)
  }

  predicate Economic(c: WheelContext, p: WheelProposal) {
    var capital := AssignmentCapital(p);
    && 0 <= c.now - p.asOf <= c.policy.maxQuoteAge && p.bid > 0.0 && p.ask >= p.bid && p.limitPremium == p.bid
    && capital > 0.0 && p.bid * p.contract.multiplier * p.contracts as real / capital >= c.policy.minYield
  }

  /** CHECK-20, in terms of the sums that WheelExposure.Check20 is proved to compute. */
  ghost predicate WithinHardCaps(c: WheelContext, p: WheelProposal) {
    var capital := AssignmentCapital(p);
    && PostName(c.held, c.reservations, p.contract.underlying, capital) <= c.base * c.policy.hardFraction
    && PostAggregate(c.held, c.reservations, capital) <= c.base
    && capital <= c.cash - Committed(c.reservations)
  }

  predicate CollateralConsistent(c: WheelContext, p: WheelProposal) {
    c.buyingPower.Some? && c.buyingPower.value >= AssignmentCapital(p) && c.collateralConsistent
  }

  /** `WheelGuardEngine.evaluate` passes: checks 17 to 22. */
  ghost predicate GuardPasses(c: WheelContext, p: WheelProposal) {
    && OpeningState(c, p) && Eligible(c, p) && Economic(c, p) && WithinHardCaps(c, p) && CollateralConsistent(c, p)
    && c.accountMatches
  }

  method EvaluateGuard(c: WheelContext, p: WheelProposal) returns (passed: bool)
    ensures passed == GuardPasses(c, p)
  {
    var caps, _, _ := Check20(c.base, c.policy.hardFraction, c.cash, c.held, c.reservations,
                               p.contract.underlying, AssignmentCapital(p));
    return OpeningState(c, p) && Eligible(c, p) && Economic(c, p) && caps && CollateralConsistent(c, p) && c.accountMatches;
  }

  /** `decide_wheel_authority` answers AUTO; its context must validate. */
  predicate DelegatedAuto(base: real, capital: real, postName: real, postAggregate: real, policy: WheelPolicy) {
    && base > 0.0 && capital >= 0.0 && postName >= 0.0 && postAggregate >= 0.0
    && capital <= base * policy.autoProposal && postName <= base * policy.autoUnderlying
    && postAggregate <= base * policy.autoAggregate
  }

  // ---- _final_policy_and_authority ----

  datatype WheelAuthority = WheelAuto | WheelApproval | WheelReject

  /** The last recheck before a submit: the order's own reservation is left out of the rows,
      and its capital is added back. */
  ghost function FinalDecision(rs: seq<WheelReservation>, own: ReservationId, p: WheelProposal, c: WheelContext): WheelAuthority {
    var others := Others(ActiveOnly(rs), own);
    var capital, u := AssignmentCapital(p), p.contract.underlying;
    if !GuardPasses(c.(reservations := others), p) then WheelReject
    else if DelegatedAuto(c.base, capital, PostName(c.held, others, u, capital), PostAggregate(c.held, others, capital), c.policy)
    then WheelAuto
    else WheelApproval
  }

  // ---- rows ----

  function OrderOf(orders: seq<WheelOrder>, id: WheelOrderId): (r: Option<WheelOrder>)
    ensures r.Some? ==> r.value in orders && r.value.id == id
    ensures r.None? ==> forall o <- orders :: o.id != id
  {
    if orders == [] then None else if orders[0].id == id then Some(orders[0]) else OrderOf(orders[1..], id)
  }

  function ReservationOf(rs: seq<WheelReservation>, id: ReservationId): (r: Option<WheelReservation>)
    ensures r.Some? ==> r.value in rs && r.value.id == id
    ensures r.None? ==> forall x <- rs :: x.id != id
  {
    if rs == [] then None else if rs[0].id == id then Some(rs[0]) else ReservationOf(rs[1..], id)
  }

  /** UPDATE ... SET status = RELEASED WHERE reservation_id = ? AND kind and status match */
  function ReleasedRows(rs: seq<WheelReservation>, id: ReservationId): (r: seq<WheelReservation>)
    ensures |r| == |rs|
    ensures forall i | 0 <= i < |rs| :: r[i] == if rs[i].id == id && rs[i].Counts() then rs[i].(active := false) else rs[i]
  {
    seq(|rs|, i requires 0 <= i < |rs| => if rs[i].id == id && rs[i].Counts() then rs[i].(active := false) else rs[i])
  }

  function WithStatus(orders: seq<WheelOrder>, id: WheelOrderId, status: WheelOrderState): (r: seq<WheelOrder>)
    ensures |r| == |orders|
    ensures forall i | 0 <= i < |orders| :: r[i] == if orders[i].id == id then orders[i].(status := status) else orders[i]
  {
    seq(|orders|, i requires 0 <= i < |orders| => if orders[i].id == id then orders[i].(status := status) else orders[i])
  }

  /** INSERT ... ON CONFLICT(lot_id) DO UPDATE */
  function UpsertLot(lots: seq<StoredLot>, lot: StoredLot): seq<StoredLot> {
    if lots == [] then [lot]
    else if lots[0].order == lot.order then [lot] + lots[1..]
    else [lots[0]] + UpsertLot(lots[1..], lot)
  }

  // ---- authorize_and_reserve ----

  datatype AuthorizedOrder = AuthorizedOrder(
    id: WheelOrderId, reservationId: ReservationId, capital: real, state: WheelOrderState)

  function LogicalId(p: WheelProposal, runId: string, attempt: int): WheelOrderId {
    WheelOrderId(runId, attempt, p.contract.occSymbol, p.action, p.contracts, p.limitPremium)
  }

  /** The rechecks against the live rows, right before the insert. */
  ghost predicate FinalRecheck(w: WheelTables, p: WheelProposal, c: WheelContext) {
    var live := c.(reservations := ActiveOnly(w.reservations));
    var capital := AssignmentCapital(p);
    && w.base == Some(c.base) && GuardPasses(live, p)
    && DelegatedAuto(c.base, capital, PostName(c.held, live.reservations, p.contract.underlying, capital),
                     PostAggregate(c.held, live.reservations, capital), DEFAULT_POLICY)
  }

  function NewReservation(p: WheelProposal, id: WheelOrderId): WheelReservation {
    WheelReservation(ForOrder(id), p.contract.underlying, AssignmentCapital(p), true, true)
  }

  /** `authorize_and_reserve`; `granted` says that the authority passed in is AUTO with its
      hard policy passed. A known order is returned as it is, unless UNKNOWN. */
  ghost function Authorize(w: WheelTables, account: string, expectedVersion: string, p: WheelProposal, c: WheelContext,
                           granted: bool, runId: string, attempt: int): (WheelTables, Result<AuthorizedOrder>)
  {
    var id := LogicalId(p, runId, attempt);
    var existing := OrderOf(w.orders, id);
    if !granted || w.account != Some(account) || w.snapshotVersion != Some(expectedVersion) then (w, Err)
    else if existing.Some? then
      var o := existing.value;
      if o.occSymbol != p.contract.occSymbol || o.status.Unknown? || o.reservationId.None? || o.capital.None? then (w, Err)
      else (w, Ok(AuthorizedOrder(id, o.reservationId.value, o.capital.value, o.status)))
    else if !FinalRecheck(w, p, c) || ReservationOf(w.reservations, ForOrder(id)).Some? then (w, Err)
    else
      (w.(reservations := w.reservations + [NewReservation(p, id)],
          orders := w.orders + [WheelOrder(id, p.contract.occSymbol, Authorized, Some(ForOrder(id)),
                                           Some(AssignmentCapital(p)), expectedVersion)]),
       Ok(AuthorizedOrder(id, ForOrder(id), AssignmentCapital(p), Authorized)))
  }

  // ---- record_wheel_order_state ----

  datatype Proof = Proof(filled: Option<int>, positionPresent: Option<bool>, unresolvedOrder: Option<bool>)

  /** Complete proof that a terminal order left no exposure; what is not known proves
      nothing. */
  predicate ProvenNoExposure(state: WheelOrderState, proof: Proof) {
    && (state.Rejected? || state.Cancelled? || state.Expired? || state.NotSubmitted?)
    && proof == Proof(Some(0), Some(false), Some(false))
  }

  function RecordState(w: WheelTables, id: WheelOrderId, state: WheelOrderState, proof: Proof): (WheelTables, Result<bool>) {
    var existing := OrderOf(w.orders, id);
    if (proof.filled.Some? && proof.filled.value < 0) || existing.None? then (w, Err)
    else
      var recorded := w.(orders := WithStatus(w.orders, id, state));
      if !ProvenNoExposure(state, proof) || existing.value.reservationId.None? then (recorded, Ok(false))
      else
        var released := ReleasedRows(w.reservations, existing.value.reservationId.value);
        (recorded.(reservations := released), Ok(released != w.reservations))
  }

  // ---- reconcile_wheel ----

  datatype BrokerReadback = BrokerReadback(
    id: WheelOrderId, occSymbol: string, isSell: bool, isPut: bool, status: WheelOrderState, contracts: int, filled: int)

  datatype OptionPosition = OptionPosition(occSymbol: string, underlying: Symbol, isPut: bool, isShort: bool, contracts: int)

  datatype Assignment = Assignment(
    beforeShares: real, afterShares: real, cashDelta: real, afterMarketValue: real, attributable: bool, contradictory: bool)

  /** `thresholdReached` is the comparison of now with 09:35 of the session after expiration;
      None when the session data is missing or invalid. */
  datatype Expiry = Expiry(
    beforeShares: real, afterShares: real, cashDelta: real, assignmentSeen: bool, contradictory: bool,
    thresholdReached: Option<bool>)

  datatype Query = Query(
    account: string, id: WheelOrderId, occSymbol: string, contracts: int, capital: real, multiplier: real,
    broker: Option<BrokerReadback>, position: Option<OptionPosition>, assignment: Option<Assignment>, expiry: Option<Expiry>)

  datatype Reconciled = Agreed(state: WheelState) | Doubtful

  function HalfEvenCents(x: real): real {
    var cents := (x * 100.0).Floor;
    var rest := x * 100.0 - cents as real;
    (if rest > 0.5 || (rest == 0.5 && cents % 2 == 1) then cents + 1 else cents) as real / 100.0
  }

  /** `assignment_cash_tolerance` */
  function CashTolerance(capital: real): real {
    HalfEvenCents(if 0.0005 * capital > 5.0 then 0.0005 * capital else 5.0)
  }

  function Doubt(w: WheelTables, underlying: Option<Symbol>): (WheelTables, Reconciled) {
    (if underlying.Some? && !Blank(underlying.value) then w.(states := w.states[underlying.value := UnknownState]) else w, Doubtful)
  }

  predicate QueryValid(q: Query) {
    !(q.assignment.Some? && q.expiry.Some?) && q.capital > 0.0 && q.multiplier > 0.0 && q.contracts >= 1 && !Blank(q.occSymbol)
  }

  /** The local order and its active reservation say what the query expects. */
  predicate LocalAgrees(w: WheelTables, q: Query, o: WheelOrder) {
    && w.account == Some(q.account) && o.occSymbol == q.occSymbol && !o.status.Unknown?
    && o.capital == Some(q.capital) && o.reservationId.Some?
    && var r := ReservationOf(w.reservations, o.reservationId.value);
       r.Some? && r.value.active && r.value.cashDeployment && r.value.amount == q.capital
  }

  predicate BrokerAgrees(q: Query) {
    q.broker.Some? && q.broker.value.id == q.id && q.broker.value.occSymbol == q.occSymbol
    && q.broker.value.isSell && q.broker.value.isPut
  }

  function ExpectedShares(q: Query): real {
    q.multiplier * q.contracts as real
  }

  predicate AssignmentAgrees(q: Query, a: Assignment)
    requires q.broker.Some?
  {
    && q.position.None? && q.broker.value.status.Filled?
    && q.broker.value.contracts == q.contracts && q.broker.value.filled == q.contracts
    && a.afterShares - a.beforeShares == ExpectedShares(q)
    && a.attributable && !a.contradictory
    && Magnitude(a.cashDelta + q.capital) <= CashTolerance(q.capital)
    && ExpectedShares(q) == ExpectedShares(q).Floor as real && ExpectedShares(q) > 0.0
    && WholeCents(q.capital / ExpectedShares(q)) && q.capital / ExpectedShares(q) >= 0.0 && a.afterMarketValue >= 0.0
  }

  predicate ExpiryAgrees(q: Query, e: Expiry)
    requires q.broker.Some?
  {
    var s := q.broker.value.status;
    && e.thresholdReached == Some(true) && q.position.None?
    && (s.Expired? || s.Cancelled? || s.Rejected? || s.NotSubmitted?) && q.broker.value.filled == 0
    && !e.assignmentSeen && !e.contradictory && e.beforeShares == e.afterShares && e.cashDelta == 0.0
  }

  predicate ShortPutAgrees(q: Query, underlying: Symbol)
    requires q.broker.Some?
  {
    && q.position.Some? && q.broker.value.contracts == q.contracts && q.broker.value.filled == q.contracts
    && q.position.value == OptionPosition(q.occSymbol, underlying, true, true, q.contracts)
  }

  /** `convert_assignment_to_share_lot`: the lot is written and its reservation released. */
  function Converted(w: WheelTables, q: Query, a: Assignment, r: WheelReservation): WheelTables
    requires q.broker.Some? && AssignmentAgrees(q, a)
  {
    var lot: ShareLot := ShareLot(r.underlying, ExpectedShares(q).Floor, q.capital / ExpectedShares(q), a.afterMarketValue);
    w.(lots := UpsertLot(w.lots, StoredLot(q.id, lot)), reservations := ReleasedRows(w.reservations, r.id),
       states := w.states[r.underlying := SharesHeld])
  }

  /** `reconcile_wheel`. Every disagreement ends in UNKNOWN. */
  function ReconcileWheel(w: WheelTables, q: Query): (WheelTables, Reconciled) {
    if !QueryValid(q) then Doubt(w, None)
    else
      var o := OrderOf(w.orders, q.id);
      if o.None? then Doubt(w, if q.position.Some? then Some(q.position.value.underlying) else None)
      else
        var r := if o.value.reservationId.Some? then ReservationOf(w.reservations, o.value.reservationId.value) else None;
        var underlying := if r.Some? then Some(r.value.underlying) else None;
        if !LocalAgrees(w, q, o.value) || !BrokerAgrees(q) then Doubt(w, underlying)
        else if q.assignment.Some? then
          if AssignmentAgrees(q, q.assignment.value) then (Converted(w, q, q.assignment.value, r.value), Agreed(SharesHeld))
          else Doubt(w, underlying)
        else if q.expiry.Some? then
          if ExpiryAgrees(q, q.expiry.value) then
            (w.(reservations := ReleasedRows(w.reservations, r.value.id), states := w.states[r.value.underlying := Cash]),
             Agreed(Cash))
          else Doubt(w, underlying)
        else if ShortPutAgrees(q, r.value.underlying) then
          (w.(states := w.states[r.value.underlying := ShortPutOpen]), Agreed(ShortPutOpen))
        else Doubt(w, underlying)
  }

  // ---- bootstrap ----

  /** What `str.strip` removes. */
  predicate IsSpace(c: char) {
    var n := c as int;
    || 9 <= n <= 13 || 28 <= n <= 32 || n == 0x85 || n == 0xA0 || n == 0x1680 || 0x2000 <= n <= 0x200A
    || n == 0x2028 || n == 0x2029 || n == 0x202F || n == 0x205F || n == 0x3000
  }

  predicate Blank(text: string) {
    forall c <- text :: IsSpace(c)
  }

  datatype Binding = Bound(tables: WheelTables) | InvalidArgument | AccountMismatch | IncompleteBinding

  /** `bootstrap_account`: the risk base is seeded once, for one account, and never changes. */
  function Bootstrap(w: WheelTables, account: string, openingCash: real, now: Instant): Binding {
    if Blank(account) || openingCash <= 0.0 then InvalidArgument
    else if w.account.Some? then
      if w.account != Some(account) then AccountMismatch
      else if w.base.None? || w.boundAt.None? then IncompleteBinding
      else Bound(w)
    else if w.base.Some? || w.boundAt.Some? then IncompleteBinding
    else Bound(w.(account := Some(account), base := Some(openingCash), boundAt := Some(now)))
  }

  /** `set_snapshot_version` */
  function WithVersion(w: WheelTables, version: string): Result<WheelTables> {
    if Blank(version) then Err else Ok(w.(snapshotVersion := Some(version)))
  }

  // ---- the store ----

  class WheelStore {
    var account: Option<string>
    var base: Option<real>
    var boundAt: Option<Instant>
    var snapshotVersion: Option<string>
    var reservations: seq<WheelReservation>
    var orders: seq<WheelOrder>
    var lots: seq<StoredLot>
    var states: map<Symbol, WheelState>

    function Rows(): WheelTables
      reads this
    {
      WheelTables(account, base, boundAt, snapshotVersion, reservations, orders, lots, states)
    }

    constructor ()
      ensures Rows() == WheelTables(None, None, None, None, [], [], [], map[])
    {
      account, base, boundAt, snapshotVersion := None, None, None, None;
      reservations, orders, lots, states := [], [], [], map[];
    }

    method BootstrapAccount(id: string, openingCash: real, now: Instant) returns (r: Binding)
      modifies this
      ensures r == Bootstrap(old(Rows()), id, openingCash, now)
      ensures Rows() == if r.Bound? then r.tables else old(Rows())
    {
      if Blank(id) || openingCash <= 0.0 {
        return InvalidArgument;
      }
      if account.Some? {
        if account.value != id {
          return AccountMismatch;
        }
        if base.None? || boundAt.None? {
          return IncompleteBinding;
        }
        return Bound(Rows());
      }
      if base.Some? || boundAt.Some? {
        return IncompleteBinding;
      }
      account, base, boundAt := Some(id), Some(openingCash), Some(now);
      return Bound(Rows());
    }

    method SetSnapshotVersion(version: string) returns (ok: bool)
      modifies this`snapshotVersion
      ensures ok <==> WithVersion(old(Rows()), version).Ok?
      ensures Rows() == if ok then WithVersion(old(Rows()), version).value else old(Rows())
    {
      ok := !Blank(version);
      if ok {
        snapshotVersion := Some(version);
      }
    }

    /** Returns whether a row was updated. */
    method Release(id: ReservationId) returns (updated: bool)
      modifies this`reservations
      ensures reservations == ReleasedRows(old(reservations), id)
      ensures updated == (reservations != old(reservations))
    {
      updated := false;
      for i := 0 to |reservations|
        invariant |reservations| == |old(reservations)|
        invariant forall k | 0 <= k < i :: reservations[k] == ReleasedRows(old(reservations), id)[k]
        invariant forall k | i <= k < |reservations| :: reservations[k] == old(reservations)[k]
        invariant updated <==> exists k | 0 <= k < i :: reservations[k] != old(reservations)[k]
      {
        if reservations[i].id == id && reservations[i].cashDeployment && reservations[i].active {
          reservations := reservations[i := reservations[i].(active := false)];
          updated := true;
          assert reservations[i] != old(reservations)[i];
        }
      }
    }

    method SetOrderStatus(id: WheelOrderId, status: WheelOrderState)
      modifies this`orders
      ensures orders == WithStatus(old(orders), id, status)
    {
      for i := 0 to |orders|
        invariant |orders| == |old(orders)|
        invariant forall k | 0 <= k < i :: orders[k] == WithStatus(old(orders), id, status)[k]
        invariant forall k | i <= k < |orders| :: orders[k] == old(orders)[k]
      {
        if orders[i].id == id {
          orders := orders[i := orders[i].(status := status)];
        }
      }
    }

    /** `sum(reservation.amount for reservation in ... if ...)` over the selected rows. */
    method SumSelected(rows: seq<WheelReservation>, u: Symbol) returns (total: real, ofName: real)
      ensures total == SumBy(rows, AmountOfRow()) && ofName == SumBy(rows, AmountFor(u))
    {
      total, ofName := 0.0, 0.0;
      for i := 0 to |rows|
        invariant total == SumBy(rows[..i], AmountOfRow()) && ofName == SumBy(rows[..i], AmountFor(u))
      {
        assert rows[..i + 1] == rows[..i] + [rows[i]];
        SumSnoc(rows[..i], rows[i], AmountOfRow());
        SumSnoc(rows[..i], rows[i], AmountFor(u));
        total := total + rows[i].amount;
        if rows[i].underlying == u {
          ofName := ofName + rows[i].amount;
        }
      }
      assert rows[..|rows|] == rows;
    }

    /** The policy and authority rechecks inside the reservation transaction. */
    method Recheck(p: WheelProposal, c: WheelContext) returns (ok: bool)
      ensures ok == FinalRecheck(Rows(), p, c)
    {
      if base != Some(c.base) {
        return false;
      }
      var active := ActiveOnly(reservations);
      var passed := EvaluateGuard(c.(reservations := active), p);
      if !passed {
        return false;
      }
      var capital := AssignmentCapital(p);
      var total, ofName := SumSelected(active, p.contract.underlying);
      var heldTotal := SumValues(c.held);
      FilteredSums(reservations, p.contract.underlying);
      ok := DelegatedAuto(c.base, capital, Get(c.held, p.contract.underlying) + ofName + capital, heldTotal + total + capital,
                          DEFAULT_POLICY);
    }

    /** `_final_policy_and_authority` */
    method FinalPolicyAndAuthority(own: ReservationId, p: WheelProposal, c: WheelContext) returns (r: WheelAuthority)
      ensures r == FinalDecision(reservations, own, p, c)
    {
      hide GuardPasses, TotalOf;
      var others := Others(ActiveOnly(reservations), own);
      var passed := EvaluateGuard(c.(reservations := others), p);
      if !passed {
        return WheelReject;
      }
      var capital := AssignmentCapital(p);
      var total, ofName := SumSelected(others, p.contract.underlying);
      var heldTotal := SumValues(c.held);
      OthersOfActive(reservations, own, p.contract.underlying);
      var postName, postAggregate := Get(c.held, p.contract.underlying) + ofName + capital, heldTotal + total + capital;
      if DelegatedAuto(c.base, capital, postName, postAggregate, c.policy) {
        return WheelAuto;
      }
      return WheelApproval;
    }

    method AuthorizeAndReserve(accountId: string, expectedVersion: string, p: WheelProposal, c: WheelContext,
                               granted: bool, runId: string, attempt: int)
      returns (r: Result<AuthorizedOrder>)
      modifies this
      ensures (Rows(), r) == Authorize(old(Rows()), accountId, expectedVersion, p, c, granted, runId, attempt)
    {
      hide FinalRecheck;
      var id := LogicalId(p, runId, attempt);
      if !granted || account != Some(accountId) || snapshotVersion != Some(expectedVersion) {
        return Err;
      }
      var existing := OrderOf(orders, id);
      if existing.Some? {
        var o := existing.value;
        if o.occSymbol != p.contract.occSymbol || o.status.Unknown? || o.reservationId.None? || o.capital.None? {
          return Err;
        }
        return Ok(AuthorizedOrder(id, o.reservationId.value, o.capital.value, o.status));
      }
      var ok := Recheck(p, c);
      if !ok || ReservationOf(reservations, ForOrder(id)).Some? {
        return Err;
      }
      reservations := reservations + [NewReservation(p, id)];
      orders := orders + [WheelOrder(id, p.contract.occSymbol, Authorized, Some(ForOrder(id)),
                                     Some(AssignmentCapital(p)), expectedVersion)];
      return Ok(AuthorizedOrder(id, ForOrder(id), AssignmentCapital(p), Authorized));
    }

    method RecordWheelOrderState(id: WheelOrderId, state: WheelOrderState, proof: Proof) returns (r: Result<bool>)
      modifies this
      ensures (Rows(), r) == RecordState(old(Rows()), id, state, proof)
    {
      var existing := OrderOf(orders, id);
      if (proof.filled.Some? && proof.filled.value < 0) || existing.None? {
        return Err;
      }
      SetOrderStatus(id, state);
      if !ProvenNoExposure(state, proof) || existing.value.reservationId.None? {
        return Ok(false);
      }
      var updated := Release(existing.value.reservationId.value);
      return Ok(updated);
    }

    method PersistState(underlying: Option<Symbol>, state: WheelState)
      modifies this`states
      ensures states == if underlying.Some? && !Blank(underlying.value) then old(states)[underlying.value := state] else old(states)
    {
      if underlying.Some? && !Blank(underlying.value) {
        states := states[underlying.value := state];
      }
    }

    method ReconcileOrder(q: Query) returns (r: Reconciled)
      modifies this
      ensures (Rows(), r) == ReconcileWheel(old(Rows()), q)
    {
      hide AssignmentAgrees, ExpiryAgrees, ShortPutAgrees, BrokerAgrees, LocalAgrees;
      if !QueryValid(q) {
        return Doubtful;
      }
      var o := OrderOf(orders, q.id);
      if o.None? {
        PersistState(if q.position.Some? then Some(q.position.value.underlying) else None, UnknownState);
        return Doubtful;
      }
      var row := if o.value.reservationId.Some? then ReservationOf(reservations, o.value.reservationId.value) else None;
      var underlying := if row.Some? then Some(row.value.underlying) else None;
      AgreementNeedsRow(Rows(), q, o.value);
      var doubtful := !LocalAgrees(Rows(), q, o.value) || !BrokerAgrees(q);
      if !doubtful && q.assignment.Some? && AssignmentAgrees(q, q.assignment.value) {
        var converted := Converted(Rows(), q, q.assignment.value, row.value);
        lots, states := converted.lots, states[row.value.underlying := SharesHeld];
        var released := Release(row.value.id);
        return Agreed(SharesHeld);
      }
      if !doubtful && q.assignment.None? && q.expiry.Some? && ExpiryAgrees(q, q.expiry.value) {
        var released := Release(row.value.id);
        states := states[row.value.underlying := Cash];
        return Agreed(Cash);
      }
      if !doubtful && q.assignment.None? && q.expiry.None? && ShortPutAgrees(q, row.value.underlying) {
        states := states[row.value.underlying := ShortPutOpen];
        return Agreed(ShortPutOpen);
      }
      PersistState(underlying, UnknownState);
      return Doubtful;
    }
  }

  lemma AgreementNeedsRow(w: WheelTables, q: Query, o: WheelOrder)
    ensures LocalAgrees(w, q, o) ==> o.reservationId.Some? && ReservationOf(w.reservations, o.reservationId.value).Some?
    ensures BrokerAgrees(q) ==> q.broker.Some?
  {
  }
}
