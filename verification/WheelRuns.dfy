/** Whole runs of the Wheel ledger: caps, single reservation, absorbing release, and
    conservation of committed capital across assignment. */
module WheelRuns {
  import opened Domain
  import opened Liquidity
  import opened Money
  import opened Results
  import opened Sums
  import opened Unresolved
  import opened WheelExposure
  import opened WheelLedger

  // ---- the invariant ----

  predicate RowOfOrder(r: WheelReservation, orders: seq<WheelOrder>) {
    r.id.ForOrder? && r.cashDeployment && r.amount >= 0.0 && OrderOf(orders, r.id.order).Some?
  }

  predicate OrderBound(o: WheelOrder) {
    o.reservationId == Some(ForOrder(o.id)) && o.capital.Some?
  }

  function StoredCost(): StoredLot -> real {
    (s: StoredLot) => LotCost(s.lot.shares, s.lot.basis)
  }

  predicate Backs(r: WheelReservation, lot: StoredLot) {
    && r.id == ForOrder(lot.order) && !r.active && r.underlying == lot.lot.underlying
    && r.amount == LotCost(lot.lot.shares, lot.lot.basis)
  }

  /** The reservation behind a share lot is released, and its capital is the cost of the lot. */
  predicate LotClosed(lot: StoredLot, rs: seq<WheelReservation>) {
    exists r <- rs :: Backs(r, lot)
  }

  predicate DistinctLots(lots: seq<StoredLot>) {
    forall i, j | 0 <= i < j < |lots| :: lots[i].order != lots[j].order
  }

  /** Account, risk base and binding time are bound together. */
  predicate BoundTogether(w: WheelTables) {
    w.account.Some? == w.base.Some? == w.boundAt.Some?
  }

  ghost predicate WithinCaps(w: WheelTables) {
    w.base.Some? ==>
      && Committed(w.reservations) <= w.base.value * DEFAULT_POLICY.autoAggregate
      && forall u :: CommittedFor(w.reservations, u) <= w.base.value * DEFAULT_POLICY.autoUnderlying
  }

  ghost predicate WheelInv(w: WheelTables) {
    && DistinctIds(w.reservations)
    && (forall r <- w.reservations :: RowOfOrder(r, w.orders))
    && (forall o <- w.orders :: OrderBound(o))
    && (forall lot <- w.lots :: LotClosed(lot, w.reservations))
    && DistinctLots(w.lots) && BoundTogether(w)
    && (w.base.None? ==> w.reservations == [])
    && (w.base.Some? ==> w.base.value > 0.0)
    && WithinCaps(w)
  }

  // ---- releasing ----

  /** At most one row is released. */
  lemma ReleasesOne(rs: seq<WheelReservation>, i: nat)
    requires DistinctIds(rs) && i < |rs| && rs[i].Counts()
    ensures ReleasedRows(rs, rs[i].id) == rs[i := rs[i].(active := false)]
  {
    forall k | 0 <= k < |rs| && k != i ensures rs[k].id != rs[i].id {
      if k < i {
        assert rs[k].id != rs[i].id;
      } else {
        assert rs[i].id != rs[k].id;
      }
    }
  }

  /** Releasing one counted row takes exactly its amount away. */
  lemma ReleaseTakesAmount(rs: seq<WheelReservation>, r: WheelReservation)
    requires DistinctIds(rs) && r in rs && r.Counts()
    ensures Committed(ReleasedRows(rs, r.id)) == Committed(rs) - r.amount
  {
    var i :| 0 <= i < |rs| && rs[i] == r;
    ReleasesOne(rs, i);
    SumUpdate(rs, i, r.(active := false), CommittedOf());
  }

  /** What any step may do to existing reservations: keep them, or release them. */
  predicate Absorbs(a: seq<WheelReservation>, b: seq<WheelReservation>) {
    && |a| <= |b|
    && forall i | 0 <= i < |a| :: b[i] == a[i] || (a[i].active && b[i] == a[i].(active := false))
  }

  lemma AbsorbedLots(lots: seq<StoredLot>, a: seq<WheelReservation>, b: seq<WheelReservation>)
    requires Absorbs(a, b) && forall lot <- lots :: LotClosed(lot, a)
    ensures forall lot <- lots :: LotClosed(lot, b)
  {
    forall lot <- lots ensures LotClosed(lot, b) {
      var i :| 0 <= i < |a| && Backs(a[i], lot);
      assert b[i] == a[i] && b[i] in b;
    }
  }

  /** Reservations released, order rows relabelled: the frame of every step but the insert. */
  predicate Quiet(w: WheelTables, v: WheelTables) {
    && v.base == w.base && v.account == w.account && v.boundAt == w.boundAt && |v.reservations| == |w.reservations| && Absorbs(w.reservations, v.reservations)
    && |v.orders| == |w.orders|
    && (forall i | 0 <= i < |w.orders| ::
          v.orders[i].id == w.orders[i].id && v.orders[i].reservationId == w.orders[i].reservationId
          && v.orders[i].capital == w.orders[i].capital)
  }

  lemma QuietOrders(w: WheelTables, v: WheelTables, key: WheelOrderId)
    requires Quiet(w, v)
    ensures OrderOf(v.orders, key).Some? <==> OrderOf(w.orders, key).Some?
  {
    if o :| o in w.orders && o.id == key {
      var i :| 0 <= i < |w.orders| && w.orders[i] == o;
      assert v.orders[i] in v.orders && v.orders[i].id == key;
    }
    if o :| o in v.orders && o.id == key {
      var i :| 0 <= i < |v.orders| && v.orders[i] == o;
      assert w.orders[i] in w.orders && w.orders[i].id == key;
    }
  }

  lemma QuietCaps(w: WheelTables, v: WheelTables)
    requires WithinCaps(w) && Quiet(w, v) && forall r <- w.reservations :: r.amount >= 0.0
    ensures WithinCaps(v)
  {
    forall u
      ensures CommittedFor(v.reservations, u) <= CommittedFor(w.reservations, u)
      ensures Committed(v.reservations) <= Committed(w.reservations)
    {
      SumZipLe(v.reservations, w.reservations, CommittedIn(u));
      SumZipLe(v.reservations, w.reservations, CommittedOf());
    }
    assert CommittedFor(v.reservations, "") <= CommittedFor(w.reservations, "");
  }

  lemma QuietKeeps(w: WheelTables, v: WheelTables)
    requires WheelInv(w) && Quiet(w, v)
    requires DistinctLots(v.lots) && forall lot <- v.lots :: lot in w.lots || LotClosed(lot, v.reservations)
    ensures WheelInv(v)
  {
    QuietCaps(w, v);
    AbsorbedLots(w.lots, w.reservations, v.reservations);
    forall r <- v.reservations ensures RowOfOrder(r, v.orders) {
      var i :| 0 <= i < |v.reservations| && v.reservations[i] == r;
      assert RowOfOrder(w.reservations[i], w.orders);
      QuietOrders(w, v, r.id.order);
    }
    forall o <- v.orders ensures OrderBound(o) {
      var i :| 0 <= i < |v.orders| && v.orders[i] == o;
      assert OrderBound(w.orders[i]);
    }
  }

  // ---- authorizing ----

  predicate NonNegativeValues(held: map<Symbol, real>) {
    forall u <- held :: held[u] >= 0.0
  }

  lemma TotalNonNegative(held: map<Symbol, real>)
    requires NonNegativeValues(held)
    ensures TotalOf(held) >= 0.0
  {
    SumNonNegative(ListOf(held.Keys), ValueIn(held));
  }

  lemma InsertedCaps(w: WheelTables, p: WheelProposal, c: WheelContext, id: WheelOrderId, u: Symbol)
    requires WheelInv(w) && FinalRecheck(w, p, c) && NonNegativeValues(c.held)
    ensures var after := w.reservations + [NewReservation(p, id)];
            && Committed(after) <= c.base * DEFAULT_POLICY.autoAggregate
            && CommittedFor(after, u) <= c.base * DEFAULT_POLICY.autoUnderlying
  {
    hide TotalOf;
    var r := NewReservation(p, id);
    SumSnoc(w.reservations, r, CommittedOf());
    SumSnoc(w.reservations, r, CommittedIn(u));
    FilteredSums(w.reservations, r.underlying);
    TotalNonNegative(c.held);
    assert CommittedFor(w.reservations, u) <= w.base.value * DEFAULT_POLICY.autoUnderlying;
  }

  lemma CapitalPositive(w: WheelTables, p: WheelProposal, c: WheelContext)
    requires FinalRecheck(w, p, c)
    ensures AssignmentCapital(p) > 0.0
  {
  }

  lemma {:induction false} OrderOfAppend(orders: seq<WheelOrder>, o: WheelOrder, key: WheelOrderId)
    ensures OrderOf(orders + [o], key).Some? <==> OrderOf(orders, key).Some? || o.id == key
  {
    assert o in orders + [o] && forall x <- orders :: x in orders + [o];
    assert forall x <- orders + [o] :: x in orders || x == o;
  }

  lemma AuthorizeKeeps(w: WheelTables, account: string, version: string, p: WheelProposal, c: WheelContext,
                       granted: bool, runId: string, attempt: int)
    requires WheelInv(w) && NonNegativeValues(c.held)
    ensures WheelInv(Authorize(w, account, version, p, c, granted, runId, attempt).0)
    ensures Absorbs(w.reservations, Authorize(w, account, version, p, c, granted, runId, attempt).0.reservations)
  {
    hide FinalRecheck, WithinCaps, Committed, CommittedFor;
    var id := LogicalId(p, runId, attempt);
    var v := Authorize(w, account, version, p, c, granted, runId, attempt).0;
    if v != w {
      var r := NewReservation(p, id);
      var o := v.orders[|w.orders|];
      assert v.reservations == w.reservations + [r] && v.orders == w.orders + [o];
      CapitalPositive(w, p, c);
      InsertKeepsCaps(w, v, p, c, id);
      OrderOfAppend(w.orders, o, id);
      forall x <- v.reservations ensures RowOfOrder(x, v.orders) {
        if x in w.reservations {
          assert RowOfOrder(x, w.orders);
          OrderOfAppend(w.orders, o, x.id.order);
        }
      }
      AbsorbedLots(w.lots, w.reservations, v.reservations);
    }
  }

  lemma InsertKeepsCaps(w: WheelTables, v: WheelTables, p: WheelProposal, c: WheelContext, id: WheelOrderId)
    requires WheelInv(w) && FinalRecheck(w, p, c) && NonNegativeValues(c.held)
    requires v.reservations == w.reservations + [NewReservation(p, id)] && v.base == w.base
    ensures WithinCaps(v) && v.base.Some?
  {
    hide GuardPasses, Committed, CommittedFor, WheelInv;
    forall u
      ensures Committed(v.reservations) <= c.base * DEFAULT_POLICY.autoAggregate
      ensures CommittedFor(v.reservations, u) <= c.base * DEFAULT_POLICY.autoUnderlying
    {
      InsertedCaps(w, p, c, id, u);
    }
    InsertedCaps(w, p, c, id, "");
  }

  /** The final recheck of an order that was just reserved, in the same context and under
      the same policy, sees the exposures that the authorization saw, and says AUTO. */
  lemma FinalRecheckRepeats(w: WheelTables, account: string, version: string, p: WheelProposal, c: WheelContext,
                            granted: bool, runId: string, attempt: int)
    requires c.policy == DEFAULT_POLICY
    requires var v := Authorize(w, account, version, p, c, granted, runId, attempt).0; v.orders != w.orders
    ensures var v := Authorize(w, account, version, p, c, granted, runId, attempt).0;
            FinalDecision(v.reservations, ForOrder(LogicalId(p, runId, attempt)), p, c).WheelAuto?
  {
    hide GuardPasses, DelegatedAuto;
    var id := LogicalId(p, runId, attempt);
    var r := NewReservation(p, id);
    ActiveOnlyAppend(w.reservations, r);
    OthersDropLast(ActiveOnly(w.reservations), r);
    assert Others(ActiveOnly(w.reservations + [r]), ForOrder(id)) == ActiveOnly(w.reservations);
  }

  // ---- recording and reconciling ----

  lemma RecordQuiet(w: WheelTables, id: WheelOrderId, state: WheelOrderState, proof: Proof)
    ensures Quiet(w, RecordState(w, id, state, proof).0) && RecordState(w, id, state, proof).0.lots == w.lots
  {
    hide ProvenNoExposure;
  }

  lemma RecordKeeps(w: WheelTables, id: WheelOrderId, state: WheelOrderState, proof: Proof)
    requires WheelInv(w)
    ensures WheelInv(RecordState(w, id, state, proof).0)
    ensures Absorbs(w.reservations, RecordState(w, id, state, proof).0.reservations)
  {
    assert DistinctLots(w.lots);
    hide WheelInv, DistinctLots, RecordState;
    RecordQuiet(w, id, state, proof);
    QuietKeeps(w, RecordState(w, id, state, proof).0);
  }

  lemma {:induction false} UpsertMembers(lots: seq<StoredLot>, lot: StoredLot)
    ensures forall x <- UpsertLot(lots, lot) :: x in lots || x == lot
  {
    if lots != [] {
      UpsertMembers(lots[1..], lot);
    }
  }

  /** A lot of an order whose reservation still counts cannot exist. */
  lemma ActiveHasNoLot(w: WheelTables, r: WheelReservation)
    requires WheelInv(w) && r in w.reservations && r.active && r.id.ForOrder?
    ensures forall lot <- w.lots :: lot.order != r.id.order
  {
    forall lot <- w.lots ensures lot.order != r.id.order {
      assert LotClosed(lot, w.reservations);
      var q :| q in w.reservations && Backs(q, lot);
      var i :| 0 <= i < |w.reservations| && w.reservations[i] == q;
      var j :| 0 <= j < |w.reservations| && w.reservations[j] == r;
      assert i != j;
      assert w.reservations[i].id != w.reservations[j].id by {
        if j < i {
          assert w.reservations[j].id != w.reservations[i].id;
        }
      }
    }
  }

  lemma {:induction false} FreshLotAppends(lots: seq<StoredLot>, lot: StoredLot)
    requires forall x <- lots :: x.order != lot.order
    ensures UpsertLot(lots, lot) == lots + [lot]
  {
    if lots != [] {
      FreshLotAppends(lots[1..], lot);
    }
  }

  /** The reservation that a query's local facts name. */
  function OwnRow(w: WheelTables, q: Query): (r: WheelReservation)
    requires OrderOf(w.orders, q.id).Some? && LocalAgrees(w, q, OrderOf(w.orders, q.id).value)
    ensures r in w.reservations && r.active && r.cashDeployment && r.amount == q.capital
  {
    ReservationOf(w.reservations, OrderOf(w.orders, q.id).value.reservationId.value).value
  }

  lemma OwnRowId(w: WheelTables, q: Query)
    requires WheelInv(w) && OrderOf(w.orders, q.id).Some? && LocalAgrees(w, q, OrderOf(w.orders, q.id).value)
    ensures OwnRow(w, q).id == ForOrder(q.id)
  {
    assert OrderBound(OrderOf(w.orders, q.id).value);
  }

  predicate IsAssignment(w: WheelTables, q: Query) {
    ReconcileWheel(w, q).1 == Agreed(SharesHeld)
  }

  lemma AssignmentMeans(w: WheelTables, q: Query)
    requires IsAssignment(w, q)
    ensures OrderOf(w.orders, q.id).Some? && LocalAgrees(w, q, OrderOf(w.orders, q.id).value)
    ensures BrokerAgrees(q) && q.assignment.Some? && AssignmentAgrees(q, q.assignment.value)
    ensures ReconcileWheel(w, q).0 == Converted(w, q, q.assignment.value, OwnRow(w, q))
  {
  }

  lemma ReconcileQuiet(w: WheelTables, q: Query)
    ensures Quiet(w, ReconcileWheel(w, q).0)
    ensures !IsAssignment(w, q) ==> ReconcileWheel(w, q).0.lots == w.lots
  {
    hide AssignmentAgrees, ExpiryAgrees, ShortPutAgrees, BrokerAgrees;
  }

  lemma ReconcileKeeps(w: WheelTables, q: Query)
    requires WheelInv(w)
    ensures WheelInv(ReconcileWheel(w, q).0)
    ensures Absorbs(w.reservations, ReconcileWheel(w, q).0.reservations)
  {
    var v := ReconcileWheel(w, q).0;
    ReconcileQuiet(w, q);
    hide WheelInv, ReconcileWheel, AssignmentAgrees, ExpiryAgrees, ShortPutAgrees, BrokerAgrees, LocalAgrees;
    if IsAssignment(w, q) {
      AssignmentMeans(w, q);
      ClosedByAssignment(w, q);
      UpsertMembers(w.lots, NewLot(q, OwnRow(w, q).underlying));
      AgreementExcludesLot(w, q);
      FreshLotAppends(w.lots, NewLot(q, OwnRow(w, q).underlying));
    }
    LotsStayDistinct(w, v);
    QuietKeeps(w, v);
  }

  lemma LotsStayDistinct(w: WheelTables, v: WheelTables)
    requires WheelInv(w)
    requires v.lots == w.lots
             || exists lot :: v.lots == w.lots + [lot] && forall x <- w.lots :: x.order != lot.order
    ensures DistinctLots(v.lots)
  {
  }

  function NewLot(q: Query, underlying: Symbol): StoredLot
    requires BrokerAgrees(q) && q.assignment.Some? && AssignmentAgrees(q, q.assignment.value)
  {
    StoredLot(q.id, ShareLot(underlying, ExpectedShares(q).Floor, q.capital / ExpectedShares(q),
                             q.assignment.value.afterMarketValue))
  }

  lemma ClosedByAssignment(w: WheelTables, q: Query)
    requires WheelInv(w) && IsAssignment(w, q)
    requires OrderOf(w.orders, q.id).Some? && LocalAgrees(w, q, OrderOf(w.orders, q.id).value)
    ensures BrokerAgrees(q) && q.assignment.Some? && AssignmentAgrees(q, q.assignment.value)
    ensures ReconcileWheel(w, q).0.lots == UpsertLot(w.lots, NewLot(q, OwnRow(w, q).underlying))
    ensures LotClosed(NewLot(q, OwnRow(w, q).underlying), ReconcileWheel(w, q).0.reservations)
  {
    AssignmentMeans(w, q);
    OwnRowId(w, q);
    var r := OwnRow(w, q);
    var after := ReconcileWheel(w, q).0.reservations;
    var i :| 0 <= i < |w.reservations| && w.reservations[i] == r;
    LotIsWorthItsCapital(q, r.underlying);
    assert after[i] == r.(active := false) && after[i] in after;
    assert Backs(after[i], NewLot(q, r.underlying));
  }

  // ---- assignment conserves committed capital ----

  /** Active commitment plus the cost of every share lot. */
  function CapitalAtWork(w: WheelTables): real {
    Committed(w.reservations) + SumBy(w.lots, StoredCost())
  }

  lemma LotIsWorthItsCapital(q: Query, underlying: Symbol)
    requires BrokerAgrees(q) && q.assignment.Some? && AssignmentAgrees(q, q.assignment.value)
    ensures StoredCost()(NewLot(q, underlying)) == q.capital
  {
    var shares := ExpectedShares(q);
    assert shares.Floor as real == shares;
    assert shares * (q.capital / shares) == q.capital;
  }

  /** A reconciled assignment moves a reservation into a lot of the same capital: the sum
      is unchanged, no existing lot is overwritten, and the order has no second one. */
  lemma AssignmentConserves(w: WheelTables, q: Query)
    requires WheelInv(w) && IsAssignment(w, q)
    ensures var v := ReconcileWheel(w, q).0;
            && CapitalAtWork(v) == CapitalAtWork(w)
            && |v.lots| == |w.lots| + 1 && v.lots[..|w.lots|] == w.lots && v.lots[|w.lots|].order == q.id
            && (forall lot <- w.lots :: lot.order != q.id)
            && Committed(v.reservations) == Committed(w.reservations) - q.capital
  {
    AssignmentMeans(w, q);
    OwnRowId(w, q);
    ClosedByAssignment(w, q);
    var r := OwnRow(w, q);
    var lot := NewLot(q, r.underlying);
    ActiveHasNoLot(w, r);
    ReleaseTakesAmount(w.reservations, r);
    FreshLotAppends(w.lots, lot);
    SumSnoc<StoredLot>(w.lots, lot, StoredCost());
    LotIsWorthItsCapital(q, r.underlying);
  }

  lemma AgreementExcludesLot(w: WheelTables, q: Query)
    requires WheelInv(w) && OrderOf(w.orders, q.id).Some? && LocalAgrees(w, q, OrderOf(w.orders, q.id).value)
    ensures forall lot <- w.lots :: lot.order != q.id
  {
    OwnRowId(w, q);
    ActiveHasNoLot(w, OwnRow(w, q));
  }

  /** After an assignment every further reconciliation of the order is in doubt. */
  lemma AssignedOnce(w: WheelTables, q: Query)
    requires WheelInv(w) && exists lot <- w.lots :: lot.order == q.id
    ensures ReconcileWheel(w, q).1 == Doubtful
  {
    var o := OrderOf(w.orders, q.id);
    if o.Some? && LocalAgrees(w, q, o.value) {
      AgreementExcludesLot(w, q);
    }
  }

  /** An UNKNOWN reconciliation changes no reservation, lot or order. */
  lemma DoubtChangesNothing(w: WheelTables, q: Query)
    requires ReconcileWheel(w, q).1 == Doubtful
    ensures var v := ReconcileWheel(w, q).0;
            v.reservations == w.reservations && v.lots == w.lots && v.orders == w.orders && v.base == w.base
  {
  }

  /** Releasing needs the whole proof, in both directions. */
  lemma RecordReleasesIffProven(w: WheelTables, id: WheelOrderId, state: WheelOrderState, proof: Proof)
    requires WheelInv(w) && OrderOf(w.orders, id).Some?
    requires ReservationOf(w.reservations, ForOrder(id)).Some? && ReservationOf(w.reservations, ForOrder(id)).value.active
    ensures RecordState(w, id, state, proof).1 == Ok(true) <==> ProvenNoExposure(state, proof)
    ensures RecordState(w, id, state, proof).0.reservations != w.reservations <==> ProvenNoExposure(state, proof)
  {
    assert OrderBound(OrderOf(w.orders, id).value);
    var r := ReservationOf(w.reservations, ForOrder(id)).value;
    var i :| 0 <= i < |w.reservations| && w.reservations[i] == r;
    assert RowOfOrder(r, w.orders);
    assert ReleasedRows(w.reservations, ForOrder(id))[i] != w.reservations[i];
  }

  // ---- runs ----

  datatype WheelStep =
    | BindAccount(account: string, openingCash: real, now: Instant)
    | NewSnapshot(version: string)
    | AuthorizeOrder(account: string, version: string, proposal: WheelProposal, context: WheelContext,
                     granted: bool, runId: string, attempt: int)
    | RecordOrder(id: WheelOrderId, state: WheelOrderState, proof: Proof)
    | ReconcileOrder(query: Query)

  ghost function ApplyWheel(w: WheelTables, step: WheelStep): WheelTables {
    match step
    case BindAccount(account, cash, now) =>
      var bound := Bootstrap(w, account, cash, now);
      if bound.Bound? then bound.tables else w
    case NewSnapshot(version) =>
      var renewed := WithVersion(w, version);
      if renewed.Ok? then renewed.value else w
    case AuthorizeOrder(account, version, p, c, granted, runId, attempt) =>
      Authorize(w, account, version, p, c, granted, runId, attempt).0
    case RecordOrder(id, state, proof) => RecordState(w, id, state, proof).0
    case ReconcileOrder(q) => ReconcileWheel(w, q).0
  }

  /** Held exposures are values of shares, never negative. */
  predicate HeldIsNonNegative(step: WheelStep) {
    step.AuthorizeOrder? ==> NonNegativeValues(step.context.held)
  }

  ghost function RunWheel(w: WheelTables, steps: seq<WheelStep>): WheelTables {
    if steps == [] then w else ApplyWheel(RunWheel(w, steps[..|steps| - 1]), steps[|steps| - 1])
  }

  function EmptyWheel(): WheelTables {
    WheelTables(None, None, None, None, [], [], [], map[])
  }

  lemma WheelStepKeeps(w: WheelTables, step: WheelStep)
    requires WheelInv(w) && HeldIsNonNegative(step)
    ensures WheelInv(ApplyWheel(w, step)) && Absorbs(w.reservations, ApplyWheel(w, step).reservations)
    ensures w.account.Some? ==> SameBinding(w, ApplyWheel(w, step))
  {
    match step
    case BindAccount(account, cash, now) => BootstrapKeeps(w, account, cash, now);
    case NewSnapshot(version) => QuietKeeps(w, ApplyWheel(w, step));
    case AuthorizeOrder(account, version, p, c, granted, runId, attempt) =>
      hide FinalRecheck, WheelInv;
      AuthorizeKeeps(w, account, version, p, c, granted, runId, attempt);
    case RecordOrder(id, state, proof) => RecordKeeps(w, id, state, proof);
    case ReconcileOrder(q) =>
      hide WheelInv;
      ReconcileKeeps(w, q);
      ReconcileQuiet(w, q);
  }

  lemma BootstrapKeeps(w: WheelTables, account: string, cash: real, now: Instant)
    requires WheelInv(w)
    ensures var bound := Bootstrap(w, account, cash, now);
            && !bound.IncompleteBinding?
            && (bound.Bound? ==> WheelInv(bound.tables) && Absorbs(w.reservations, bound.tables.reservations))
  {
    var bound := Bootstrap(w, account, cash, now);
    if bound.Bound? && bound.tables != w {
      assert bound.tables.reservations == [];
      assert forall u :: CommittedFor([], u) == 0.0;
    }
  }

  predicate SameBinding(w: WheelTables, v: WheelTables) {
    v.account == w.account && v.base == w.base && v.boundAt == w.boundAt
  }

  lemma {:induction false} WheelRunKeeps(w: WheelTables, steps: seq<WheelStep>)
    requires WheelInv(w) && forall step <- steps :: HeldIsNonNegative(step)
    ensures WheelInv(RunWheel(w, steps))
    ensures w.account.Some? ==> SameBinding(w, RunWheel(w, steps))
    ensures |w.reservations| <= |RunWheel(w, steps).reservations|
    ensures forall i | 0 <= i < |w.reservations| && !w.reservations[i].active ::
              RunWheel(w, steps).reservations[i] == w.reservations[i]
  {
    hide WheelInv, ApplyWheel, HeldIsNonNegative;
    if steps != [] {
      var before := steps[..|steps| - 1];
      WheelRunKeeps(w, before);
      WheelStepKeeps(RunWheel(w, before), steps[|steps| - 1]);
    }
  }

  /** Wheel caps over whole runs: active assignment capital stays within 20% of the bound
      risk base in total and within 10% for every underlying. */
  lemma CapsHoldInEveryRun(steps: seq<WheelStep>, u: Symbol)
    requires forall step <- steps :: HeldIsNonNegative(step)
    ensures var w := RunWheel(EmptyWheel(), steps);
            w.base.Some? ==>
              && Committed(w.reservations) <= w.base.value * 0.20
              && CommittedFor(w.reservations, u) <= w.base.value * 0.10
  {
    EmptyWheelIsSound();
    WheelRunKeeps(EmptyWheel(), steps);
  }

  lemma EmptyWheelIsSound()
    ensures WheelInv(EmptyWheel())
  {
  }

  /** The first binding is for good: whatever follows, another account is refused, the same
      account finds its base unchanged, and the binding is never incomplete. */
  lemma BoundForGood(first: seq<WheelStep>, more: seq<WheelStep>, account: string, cash: real, now: Instant)
    requires forall step <- first :: HeldIsNonNegative(step)
    requires forall step <- more :: HeldIsNonNegative(step)
    ensures var w := RunWheel(EmptyWheel(), first);
            var v := RunWheel(w, more);
            var bound := Bootstrap(v, account, cash, now);
            && !bound.IncompleteBinding?
            && (w.account.Some? ==> SameBinding(w, v) && w.base.Some?)
            && (w.account.Some? && !Blank(account) && cash > 0.0 ==>
                  bound == if w.account == Some(account) then Bound(v) else AccountMismatch)
  {
    EmptyWheelIsSound();
    WheelRunKeeps(EmptyWheel(), first);
    var w := RunWheel(EmptyWheel(), first);
    WheelRunKeeps(w, more);
    BootstrapKeeps(RunWheel(w, more), account, cash, now);
  }

  /** Each logical order reserves at most once, and a released reservation never returns. */
  lemma ReservesOnce(first: seq<WheelStep>, more: seq<WheelStep>, i: nat)
    requires forall step <- first :: HeldIsNonNegative(step)
    requires forall step <- more :: HeldIsNonNegative(step)
    requires i < |RunWheel(EmptyWheel(), first).reservations|
    ensures var w := RunWheel(EmptyWheel(), first);
            var v := RunWheel(w, more);
            && i < |v.reservations| && v.reservations[i].id == w.reservations[i].id
            && (!w.reservations[i].active ==> v.reservations[i] == w.reservations[i])
            && forall j | 0 <= j < |v.reservations| && j != i :: v.reservations[j].id != w.reservations[i].id
  {
    EmptyWheelIsSound();
    WheelRunKeeps(EmptyWheel(), first);
    var w := RunWheel(EmptyWheel(), first);
    WheelRunKeeps(w, more);
    IdsStay(w, more, i);
    var v := RunWheel(w, more);
    assert DistinctIds(v.reservations);
  }

  lemma {:induction false} IdsStay(w: WheelTables, steps: seq<WheelStep>, i: nat)
    requires WheelInv(w) && (forall step <- steps :: HeldIsNonNegative(step)) && i < |w.reservations|
    ensures i < |RunWheel(w, steps).reservations| && RunWheel(w, steps).reservations[i].id == w.reservations[i].id
  {
    hide WheelInv, ApplyWheel, HeldIsNonNegative;
    if steps != [] {
      var before := steps[..|steps| - 1];
      IdsStay(w, before, i);
      WheelRunKeeps(w, before);
      WheelStepKeeps(RunWheel(w, before), steps[|steps| - 1]);
    }
  }
}
