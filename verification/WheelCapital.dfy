/** Capital over whole runs of the Wheel ledger: what is committed or tied up in assigned
    shares stays within the caps, and all capital ever reserved is accounted for. */
module WheelCapital {
  import opened Domain
  import opened Liquidity
  import opened Results
  import opened Sums
  import opened Unresolved
  import opened WheelExposure
  import opened WheelLedger
  import opened WheelRuns

  function CostFor(u: Symbol): StoredLot -> real {
    (s: StoredLot) => if s.lot.underlying == u then LotCost(s.lot.shares, s.lot.basis) else 0.0
  }

  /** Active commitment plus the cost of the share lots, of one underlying. */
  function CapitalIn(w: WheelTables, u: Symbol): real {
    CommittedFor(w.reservations, u) + SumBy(w.lots, CostFor(u))
  }

  ghost predicate CapitalWithinCaps(w: WheelTables) {
    w.base.Some? ==>
      && CapitalAtWork(w) <= w.base.value * DEFAULT_POLICY.autoAggregate
      && forall u :: CapitalIn(w, u) <= w.base.value * DEFAULT_POLICY.autoUnderlying
  }

  // ---- held exposure that knows the lots ----

  /** Held exposure is at least the cost of the stored lots, for every underlying. */
  ghost predicate CoversLots(held: map<Symbol, real>, lots: seq<StoredLot>) {
    NonNegativeValues(held) && forall u :: Get(held, u) >= SumBy(lots, CostFor(u))
  }

  function PlainLots(lots: seq<StoredLot>): (r: seq<ShareLot>)
    ensures |r| == |lots| && forall i | 0 <= i < |lots| :: r[i] == lots[i].lot
  {
    seq(|lots|, i requires 0 <= i < |lots| => lots[i].lot)
  }

  lemma CostNonNegative(lot: StoredLot)
    ensures LotCost(lot.lot.shares, lot.lot.basis) >= 0.0
  {
  }

  lemma CostsNonNegative(lots: seq<StoredLot>, u: Symbol)
    ensures SumBy(lots, CostFor(u)) >= 0.0
  {
    forall s <- lots ensures CostFor(u)(s) >= 0.0 {
      CostNonNegative(s);
    }
    SumNonNegative(lots, CostFor(u));
  }

  /** The held exposure that `compute_wheel_exposure` derives from the stored lots does. */
  lemma ExposureCoversLots(held: map<Symbol, real>, lots: seq<StoredLot>)
    requires forall u :: Get(held, u) == HeldExposure(PlainLots(lots), u)
    ensures CoversLots(held, lots)
  {
    forall u
      ensures Get(held, u) >= SumBy(lots, CostFor(u)) >= 0.0
    {
      SumMapped<ShareLot, StoredLot>(PlainLots(lots), lots, CostIn(u), CostFor(u));
      CostsNonNegative(lots, u);
    }
    forall u <- held ensures held[u] >= 0.0 {
      assert Get(held, u) >= 0.0;
    }
  }

  function UnderlyingOf(): StoredLot -> Symbol {
    (s: StoredLot) => s.lot.underlying
  }

  lemma CostIsGroup(lots: seq<StoredLot>, u: Symbol)
    ensures GroupSum<StoredLot, Symbol>(lots, UnderlyingOf(), StoredCost())(u) == SumBy(lots, CostFor(u))
  {
    SumEq<StoredLot>(lots, InGroup<StoredLot, Symbol>(UnderlyingOf(), StoredCost(), u), CostFor(u));
  }

  lemma UnheldCostsNothing(held: map<Symbol, real>, lots: seq<StoredLot>, i: nat)
    requires CoversLots(held, lots) && i < |lots| && lots[i].lot.underlying !in held
    ensures StoredCost()(lots[i]) == 0.0
  {
    var u := lots[i].lot.underlying;
    forall s <- lots ensures CostFor(u)(s) >= 0.0 {
      CostNonNegative(s);
    }
    TermLeSum(lots, i, CostFor(u));
    CostNonNegative(lots[i]);
    assert Get(held, u) == 0.0;
  }

  /** Then the total held exposure is at least the cost of all lots. */
  lemma TotalCoversLots(held: map<Symbol, real>, lots: seq<StoredLot>)
    requires CoversLots(held, lots)
    ensures TotalOf(held) >= SumBy(lots, StoredCost())
  {
    var keys := ListOf(held.Keys);
    forall s <- lots ensures UnderlyingOf()(s) in keys || StoredCost()(s) == 0.0 {
      var i :| 0 <= i < |lots| && lots[i] == s;
      if s.lot.underlying !in held {
        UnheldCostsNothing(held, lots, i);
      }
    }
    SumByGroups<StoredLot, Symbol>(lots, keys, UnderlyingOf(), StoredCost());
    forall u <- keys
      ensures GroupSum<StoredLot, Symbol>(lots, UnderlyingOf(), StoredCost())(u) <= ValueIn(held)(u)
    {
      CostIsGroup(lots, u);
    }
    SumLe(keys, GroupSum<StoredLot, Symbol>(lots, UnderlyingOf(), StoredCost()), ValueIn(held));
  }

  // ---- the caps include assigned shares ----

  lemma InsertedCapital(w: WheelTables, p: WheelProposal, c: WheelContext, id: WheelOrderId, u: Symbol)
    requires CapitalWithinCaps(w) && FinalRecheck(w, p, c) && CoversLots(c.held, w.lots)
    ensures var v := w.(reservations := w.reservations + [NewReservation(p, id)]);
            && CapitalAtWork(v) <= c.base * DEFAULT_POLICY.autoAggregate
            && CapitalIn(v, u) <= c.base * DEFAULT_POLICY.autoUnderlying
  {
    hide TotalOf, GuardPasses;
    var r := NewReservation(p, id);
    SumSnoc(w.reservations, r, CommittedOf());
    SumSnoc(w.reservations, r, CommittedIn(u));
    FilteredSums(w.reservations, r.underlying);
    TotalCoversLots(c.held, w.lots);
    assert Get(c.held, r.underlying) >= SumBy(w.lots, CostFor(r.underlying));
    assert CapitalIn(w, u) <= c.base * DEFAULT_POLICY.autoUnderlying;
  }

  lemma AuthorizeKeepsCapital(w: WheelTables, account: string, version: string, p: WheelProposal, c: WheelContext,
                              granted: bool, runId: string, attempt: int)
    requires CapitalWithinCaps(w) && CoversLots(c.held, w.lots)
    ensures CapitalWithinCaps(Authorize(w, account, version, p, c, granted, runId, attempt).0)
  {
    hide FinalRecheck, CapitalAtWork, CapitalIn, CoversLots;
    var v := Authorize(w, account, version, p, c, granted, runId, attempt).0;
    if v != w {
      var id := LogicalId(p, runId, attempt);
      RecheckBase(w, p, c);
      forall u
        ensures CapitalIn(v, u) <= c.base * DEFAULT_POLICY.autoUnderlying
        ensures CapitalAtWork(v) <= c.base * DEFAULT_POLICY.autoAggregate
      {
        InsertedCapital(w, p, c, id, u);
        SameCapital(v, w.(reservations := w.reservations + [NewReservation(p, id)]), u);
      }
      assert CapitalIn(v, "") <= c.base * DEFAULT_POLICY.autoUnderlying;
    }
  }

  lemma RecheckBase(w: WheelTables, p: WheelProposal, c: WheelContext)
    requires FinalRecheck(w, p, c)
    ensures w.base == Some(c.base)
  {
    hide GuardPasses;
  }

  lemma SameCapital(w: WheelTables, v: WheelTables, u: Symbol)
    requires v.reservations == w.reservations && v.lots == w.lots
    ensures CapitalIn(v, u) == CapitalIn(w, u) && CapitalAtWork(v) == CapitalAtWork(w)
  {
  }

  lemma QuietCapital(w: WheelTables, v: WheelTables)
    requires CapitalWithinCaps(w) && Quiet(w, v) && v.lots == w.lots
    requires forall r <- w.reservations :: r.amount >= 0.0
    ensures CapitalWithinCaps(v)
  {
    forall u
      ensures CommittedFor(v.reservations, u) <= CommittedFor(w.reservations, u)
      ensures Committed(v.reservations) <= Committed(w.reservations)
    {
      SumZipLe(v.reservations, w.reservations, CommittedIn(u));
      SumZipLe(v.reservations, w.reservations, CommittedOf());
    }
    assert CommittedFor(v.reservations, "") <= CommittedFor(w.reservations, "");
    if w.base.Some? {
      forall u ensures CapitalIn(v, u) <= w.base.value * DEFAULT_POLICY.autoUnderlying {
        assert CapitalIn(w, u) <= w.base.value * DEFAULT_POLICY.autoUnderlying;
      }
    }
  }

  /** What an assignment does to reservations and lots. */
  lemma AssignmentShape(w: WheelTables, q: Query) returns (i: nat, lot: StoredLot)
    requires WheelInv(w) && IsAssignment(w, q)
    ensures i < |w.reservations|
    ensures var r, v := w.reservations[i], ReconcileWheel(w, q).0;
            && r.Counts() && Backs(r.(active := false), lot) && lot.order == q.id
            && v.reservations == w.reservations[i := r.(active := false)]
            && v.lots == w.lots + [lot] && v.base == w.base && v.orders == w.orders
  {
    AssignmentMeans(w, q);
    OwnRowId(w, q);
    var r := OwnRow(w, q);
    ClosedByAssignment(w, q);
    AgreementExcludesLot(w, q);
    lot := NewLot(q, r.underlying);
    LotIsWorthItsCapital(q, r.underlying);
    FreshLotAppends(w.lots, lot);
    i :| 0 <= i < |w.reservations| && w.reservations[i] == r;
    ReleasesOne(w.reservations, i);
  }

  /** An assignment moves capital within its underlying. */
  lemma AssignmentKeepsCapital(w: WheelTables, q: Query, u: Symbol)
    requires WheelInv(w) && IsAssignment(w, q)
    ensures CapitalIn(ReconcileWheel(w, q).0, u) == CapitalIn(w, u)
    ensures CapitalAtWork(ReconcileWheel(w, q).0) == CapitalAtWork(w)
  {
    hide WheelInv, ReconcileWheel, IsAssignment;
    var i, lot := AssignmentShape(w, q);
    var closed := w.reservations[i].(active := false);
    SumUpdate(w.reservations, i, closed, CommittedIn(u));
    SumUpdate(w.reservations, i, closed, CommittedOf());
    SumSnoc<StoredLot>(w.lots, lot, CostFor(u));
    SumSnoc<StoredLot>(w.lots, lot, StoredCost());
  }

  lemma AmountsNonNegative(w: WheelTables)
    requires WheelInv(w)
    ensures forall r <- w.reservations :: r.amount >= 0.0
  {
    assert forall r <- w.reservations :: RowOfOrder(r, w.orders);
  }

  lemma ReconcileKeepsCapital(w: WheelTables, q: Query)
    requires WheelInv(w) && CapitalWithinCaps(w)
    ensures CapitalWithinCaps(ReconcileWheel(w, q).0)
  {
    AmountsNonNegative(w);
    ReconcileQuiet(w, q);
    var v := ReconcileWheel(w, q).0;
    if IsAssignment(w, q) {
      forall u
        ensures CapitalIn(v, u) == CapitalIn(w, u) && CapitalAtWork(v) == CapitalAtWork(w)
      {
        AssignmentKeepsCapital(w, q, u);
      }
      hide ReconcileWheel, CapitalIn, CapitalAtWork, IsAssignment, WheelInv;
      assert CapitalIn(v, "") == CapitalIn(w, "");
    } else {
      hide ReconcileWheel, IsAssignment, WheelInv, Quiet;
      QuietCapital(w, v);
    }
  }

  // ---- where all capital is ----

  predicate HasLot(lots: seq<StoredLot>, id: ReservationId) {
    exists s <- lots :: ForOrder(s.order) == id
  }

  /** Capital of a released reservation that no share lot took over. */
  function ReturnedOf(lots: seq<StoredLot>): WheelReservation -> real {
    (r: WheelReservation) => if !r.active && !HasLot(lots, r.id) then r.amount else 0.0
  }

  function Returned(w: WheelTables): real {
    SumBy(w.reservations, ReturnedOf(w.lots))
  }

  /** All capital ever reserved is committed, tied up in lots, or returned. */
  ghost predicate CapitalAccounted(w: WheelTables) {
    SumBy(w.reservations, AmountOfRow()) == CapitalAtWork(w) + Returned(w)
  }

  lemma ReleaseAccounted(w: WheelTables, v: WheelTables, id: ReservationId)
    requires WheelInv(w) && CapitalAccounted(w)
    requires v.reservations == ReleasedRows(w.reservations, id) && v.lots == w.lots
    ensures CapitalAccounted(v)
  {
    if exists r <- w.reservations :: r.id == id && r.Counts() {
      var i :| 0 <= i < |w.reservations| && w.reservations[i].id == id && w.reservations[i].Counts();
      var r := w.reservations[i];
      var closed := r.(active := false);
      assert RowOfOrder(r, w.orders);
      ActiveHasNoLot(w, r);
      hide WheelInv;
      ReleasesOneHere(w, i);
      SumUpdate(w.reservations, i, closed, AmountOfRow());
      SumUpdate(w.reservations, i, closed, CommittedOf());
      SumUpdate(w.reservations, i, closed, ReturnedOf(w.lots));
    } else {
      assert v.reservations == w.reservations;
    }
  }

  lemma ReleasesOneHere(w: WheelTables, i: nat)
    requires WheelInv(w) && i < |w.reservations| && w.reservations[i].Counts()
    ensures ReleasedRows(w.reservations, w.reservations[i].id) == w.reservations[i := w.reservations[i].(active := false)]
  {
    ReleasesOne(w.reservations, i);
  }

  lemma AssignmentAccounted(w: WheelTables, q: Query)
    requires WheelInv(w) && IsAssignment(w, q) && CapitalAccounted(w)
    ensures CapitalAccounted(ReconcileWheel(w, q).0)
  {
    var v := ReconcileWheel(w, q).0;
    AssignmentKeepsCapital(w, q, "");
    var i, lot := AssignmentShape(w, q);
    var rs, closed := w.reservations, w.reservations[i].(active := false);
    assert DistinctIds(rs);
    hide WheelInv, ReconcileWheel, IsAssignment;
    SumUpdate(rs, i, closed, AmountOfRow());
    forall k | 0 <= k < |rs| ensures ReturnedOf(v.lots)(v.reservations[k]) == ReturnedOf(w.lots)(rs[k]) {
      assert forall s <- v.lots :: s in w.lots || s == lot;
      assert lot in v.lots && forall s <- w.lots :: s in v.lots;
      if k < i {
        assert rs[k].id != rs[i].id;
      } else if i < k {
        assert rs[i].id != rs[k].id;
      }
    }
    SumMapped<WheelReservation, WheelReservation>(v.reservations, rs, ReturnedOf(v.lots), ReturnedOf(w.lots));
  }

  lemma InsertAccounted(w: WheelTables, v: WheelTables, r: WheelReservation)
    requires CapitalAccounted(w) && v.reservations == w.reservations + [r] && v.lots == w.lots && r.Counts()
    ensures CapitalAccounted(v)
  {
    SumSnoc(w.reservations, r, AmountOfRow());
    SumSnoc(w.reservations, r, CommittedOf());
    SumSnoc(w.reservations, r, ReturnedOf(w.lots));
  }

  lemma ReconcileAccounted(w: WheelTables, q: Query)
    requires WheelInv(w) && CapitalAccounted(w)
    ensures CapitalAccounted(ReconcileWheel(w, q).0)
  {
    hide CapitalAccounted, WheelInv, AssignmentAgrees, ExpiryAgrees, ShortPutAgrees, BrokerAgrees;
    if IsAssignment(w, q) {
      AssignmentAccounted(w, q);
    } else {
      var v := ReconcileWheel(w, q).0;
      if v.reservations == w.reservations {
        SameAccounted(w, v);
      } else {
        ReleaseAccounted(w, v, OwnRow(w, q).id);
      }
    }
  }

  lemma SameAccounted(w: WheelTables, v: WheelTables)
    requires CapitalAccounted(w) && v.reservations == w.reservations && v.lots == w.lots
    ensures CapitalAccounted(v)
  {
  }

  lemma RecordAccounted(w: WheelTables, id: WheelOrderId, state: WheelOrderState, proof: Proof)
    requires WheelInv(w) && CapitalAccounted(w)
    ensures CapitalAccounted(RecordState(w, id, state, proof).0)
  {
    hide CapitalAccounted, WheelInv;
    var v := RecordState(w, id, state, proof).0;
    if v.reservations == w.reservations {
      SameAccounted(w, v);
    } else {
      ReleaseAccounted(w, v, OrderOf(w.orders, id).value.reservationId.value);
    }
  }

  // ---- runs ----

  /** Every authorization of the run is given held exposure that covers the stored lots. */
  ghost predicate KnowsLots(w: WheelTables, steps: seq<WheelStep>) {
    steps == [] ||
    var before, last := steps[..|steps| - 1], steps[|steps| - 1];
    KnowsLots(w, before) && (last.AuthorizeOrder? ==> CoversLots(last.context.held, RunWheel(w, before).lots))
  }

  lemma AuthorizeAccounted(w: WheelTables, account: string, version: string, p: WheelProposal, c: WheelContext,
                           granted: bool, runId: string, attempt: int)
    requires CapitalAccounted(w)
    ensures CapitalAccounted(Authorize(w, account, version, p, c, granted, runId, attempt).0)
  {
    hide CapitalAccounted, FinalRecheck;
    var v := Authorize(w, account, version, p, c, granted, runId, attempt).0;
    if v != w {
      InsertAccounted(w, v, NewReservation(p, LogicalId(p, runId, attempt)));
    }
  }

  lemma StepAccounted(w: WheelTables, step: WheelStep)
    requires WheelInv(w) && CapitalAccounted(w)
    ensures CapitalAccounted(ApplyWheel(w, step))
  {
    hide CapitalAccounted, WheelInv, Authorize, RecordState, ReconcileWheel;
    match step
    case BindAccount(_, _, _) => SameAccounted(w, ApplyWheel(w, step));
    case NewSnapshot(_) => SameAccounted(w, ApplyWheel(w, step));
    case AuthorizeOrder(account, version, p, c, granted, runId, attempt) =>
      AuthorizeAccounted(w, account, version, p, c, granted, runId, attempt);
    case RecordOrder(id, state, proof) => RecordAccounted(w, id, state, proof);
    case ReconcileOrder(q) => ReconcileAccounted(w, q);
  }

  /** Conservation over whole runs: all capital ever reserved is committed, is the cost of the
      share lots, or was returned; and every lot took over one reservation of its own order,
      underlying and capital. */
  lemma {:induction false} RunsConserveCapital(steps: seq<WheelStep>)
    requires forall step <- steps :: HeldIsNonNegative(step)
    ensures var w := RunWheel(EmptyWheel(), steps);
            && SumBy(w.reservations, AmountOfRow()) == CapitalAtWork(w) + Returned(w)
            && (forall i, j | 0 <= i < j < |w.lots| :: w.lots[i].order != w.lots[j].order)
            && forall lot <- w.lots :: exists r <- w.reservations :: Backs(r, lot)
  {
    EmptyWheelIsSound();
    WheelRunKeeps(EmptyWheel(), steps);
    var w := RunWheel(EmptyWheel(), steps);
    forall lot <- w.lots ensures exists r <- w.reservations :: Backs(r, lot) {
      assert LotClosed(lot, w.reservations);
    }
    if steps != [] {
      var before := steps[..|steps| - 1];
      RunsConserveCapital(before);
      WheelRunKeeps(EmptyWheel(), before);
      hide WheelInv, ApplyWheel, HeldIsNonNegative;
      StepAccounted(RunWheel(EmptyWheel(), before), steps[|steps| - 1]);
    }
  }

  lemma StepKeepsCapital(w: WheelTables, step: WheelStep)
    requires WheelInv(w) && CapitalWithinCaps(w)
    requires step.AuthorizeOrder? ==> CoversLots(step.context.held, w.lots)
    ensures CapitalWithinCaps(ApplyWheel(w, step))
  {
    hide Authorize, ReconcileWheel;
    match step
    case BindAccount(account, cash, now) => BoundCapital(w, account, cash, now);
    case NewSnapshot(_) =>
      hide WheelInv, CapitalWithinCaps;
      SameWithinCaps(w, ApplyWheel(w, step));
    case AuthorizeOrder(account, version, p, c, granted, runId, attempt) =>
      hide CapitalWithinCaps, WheelInv, CoversLots;
      AuthorizeKeepsCapital(w, account, version, p, c, granted, runId, attempt);
    case RecordOrder(id, state, proof) =>
      AmountsNonNegative(w);
      hide CapitalWithinCaps, WheelInv;
      QuietCapital(w, ApplyWheel(w, step));
    case ReconcileOrder(q) =>
      hide CapitalWithinCaps, WheelInv;
      ReconcileKeepsCapital(w, q);
  }

  lemma SameWithinCaps(w: WheelTables, v: WheelTables)
    requires CapitalWithinCaps(w) && v.reservations == w.reservations && v.lots == w.lots && v.base == w.base
    ensures CapitalWithinCaps(v)
  {
    forall u ensures CapitalIn(v, u) == CapitalIn(w, u) && CapitalAtWork(v) == CapitalAtWork(w) {
      SameCapital(w, v, u);
    }
  }

  lemma BoundCapital(w: WheelTables, account: string, cash: real, now: Instant)
    requires WheelInv(w) && CapitalWithinCaps(w)
    ensures CapitalWithinCaps(ApplyWheel(w, BindAccount(account, cash, now)))
  {
    var v := ApplyWheel(w, BindAccount(account, cash, now));
    if v != w {
      assert w.reservations == [] && w.lots == [] by {
        NoRowsNoLots(w);
      }
      assert forall u :: CapitalIn(v, u) == 0.0;
    }
  }

  lemma NoRowsNoLots(w: WheelTables)
    requires WheelInv(w) && w.base.None?
    ensures w.reservations == [] && w.lots == []
  {
    LotsNeedRows(w.lots, w.reservations);
  }

  lemma LotsNeedRows(lots: seq<StoredLot>, rs: seq<WheelReservation>)
    requires forall lot <- lots :: LotClosed(lot, rs)
    ensures lots != [] ==> rs != []
  {
    if lots != [] {
      assert LotClosed(lots[0], rs);
      var r :| r in rs && Backs(r, lots[0]);
    }
  }

  lemma {:induction false} RunKeepsCapital(steps: seq<WheelStep>)
    requires KnowsLots(EmptyWheel(), steps)
    ensures WheelInv(RunWheel(EmptyWheel(), steps)) && CapitalWithinCaps(RunWheel(EmptyWheel(), steps))
  {
    hide WheelInv, ApplyWheel, CapitalWithinCaps;
    if steps == [] {
      EmptyWheelIsSound();
      EmptyCapital();
    } else {
      var before, last := steps[..|steps| - 1], steps[|steps| - 1];
      RunKeepsCapital(before);
      StepKeepsCapital(RunWheel(EmptyWheel(), before), last);
      WheelStepKeeps(RunWheel(EmptyWheel(), before), last);
    }
  }

  lemma EmptyCapital()
    ensures CapitalWithinCaps(EmptyWheel())
  {
  }

  /** The caps include assigned shares: where authorizations know the cost of the stored
      lots, commitment plus lot cost stays within 20% of the bound risk base in total and
      within 10% for every underlying, over whole runs. */
  lemma CapitalHoldsInEveryRun(steps: seq<WheelStep>, u: Symbol)
    requires KnowsLots(EmptyWheel(), steps)
    ensures var w := RunWheel(EmptyWheel(), steps);
            w.base.Some? ==>
              && CapitalAtWork(w) <= w.base.value * 0.20
              && CapitalIn(w, u) <= w.base.value * 0.10
  {
    RunKeepsCapital(steps);
    hide WheelInv, CapitalIn, CapitalAtWork, KnowsLots;
    var w := RunWheel(EmptyWheel(), steps);
    if w.base.Some? {
      assert CapitalIn(w, u) <= w.base.value * DEFAULT_POLICY.autoUnderlying;
    }
  }
}
