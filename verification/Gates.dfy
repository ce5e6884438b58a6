/** Who may trade, over the rows and the call alone: exactly when evaluate-and-reserve and the
    intents transaction answer what they answer, and what that means for whole runs. Doubt
    about the broker never creates a trade, and no order exists without an approval that was
    needed for it. */
module Gates {
  import opened Authority
  import opened Calendar
  import Capacity
  import opened Compare
  import opened Decision
  import opened Domain
  import opened Execution
  import opened Guard
  import opened LedgerRuns
  import opened LedgerSteps
  import opened Orchestration
  import Proceeds
  import opened Reconcile
  import opened Records
  import opened Requirements
  import ReserveRuns
  import opened Results
  import opened States
  import opened Sums
  import opened Sync
  import opened Tables
  import opened Unresolved

  // ---- one call ----

  /** The latest snapshot is RECONCILED, the one that the caller expects, and not too old. */
  predicate FreshSnapshot(t: Tables, cfg: Settings, call: Call) {
    t.snapshot.Some? &&
    var s := t.snapshot.value;
    s.reconciled && call.expectedVersion == Some(s.version) && 0 <= call.now - s.capturedAt <= cfg.maxSnapshotAge
  }

  predicate NewId(t: Tables, p: Proposal) {
    forall row <- t.proposals :: row.proposal.proposalId != p.proposalId
  }

  /** No order id or leg index twice, and no order id of a stored proposal. */
  predicate FreeNames(t: Tables, p: Proposal) {
    && (forall i, j | 0 <= i < j < |p.legs| ::
          p.legs[i].clientOrderId != p.legs[j].clientOrderId && p.legs[i].legIndex != p.legs[j].legIndex)
    && forall l <- p.legs, row <- t.proposals, m <- row.proposal.legs :: m.clientOrderId != l.clientOrderId
  }

  lemma FreshIff(t: Tables, cfg: Settings, call: Call)
    ensures SnapshotUsable(t, cfg, call) <==> FreshSnapshot(t, cfg, call)
  {
  }

  lemma FreeIff(t: Tables, p: Proposal)
    ensures IdentityFree(t, p) <==> FreeNames(t, p)
  {
    if IdentityFree(t, p) {
      forall i, j | 0 <= i < j < |p.legs| ensures p.legs[i].clientOrderId != p.legs[j].clientOrderId {
        assert LegIds(p.legs)[i] != LegIds(p.legs)[j];
      }
      forall l <- p.legs, row <- t.proposals, m <- row.proposal.legs ensures m.clientOrderId != l.clientOrderId {
        assert m.clientOrderId in StoredLegIds(t.proposals);
      }
    }
    if FreeNames(t, p) {
      forall i, j | 0 <= i < j < |p.legs| ensures LegIds(p.legs)[i] != LegIds(p.legs)[j] {
        assert p.legs[i].clientOrderId != p.legs[j].clientOrderId;
      }
    }
  }

  lemma NewIff(t: Tables, p: Proposal)
    ensures RowOf(t.proposals, p.proposalId).None? <==> NewId(t, p)
  {
  }

  /** A new id is blocked without a trace unless the snapshot is fresh and the quotes are usable;
      otherwise it is decided, or raises on names that are taken. What is decided is stored
      with the decision, its snapshot and its expiry, and reserved exactly if automatic. */
  lemma NewIdAnswers(t: Tables, p: Proposal, cfg: Settings, call: Call)
    requires NewId(t, p)
    ensures var (u, outcome) := EvaluateAndReserve(t, p, cfg, call);
            && (outcome == Blocked(false) <==> !(FreshSnapshot(t, cfg, call) && call.quotesUsable))
            && (outcome.Raised? <==> FreshSnapshot(t, cfg, call) && call.quotesUsable && !FreeNames(t, p))
            && (outcome.Decided? <==> FreshSnapshot(t, cfg, call) && call.quotesUsable && FreeNames(t, p))
            && (!outcome.Decided? ==> u == t)
            && (outcome.Decided? ==>
                  var authority := outcome.authority;
                  && authority == DecisionOf(p, ContextOf(t, cfg, call, None))
                  && u.proposals == t.proposals
                       + [ProposalRow(p, authority, if authority.NeedsApproval? then Some(call.now + cfg.approvalExpiry) else None,
                                      t.snapshot.value.version)]
                  && (authority.Auto? <==> |u.history| == |t.history| + 1)
                  && (!authority.Auto? ==> u.reservations == t.reservations && u.history == t.history)
                  && (authority.Auto? ==> Reserved(t, u, p, call.now))
                  && u.orders == t.orders && u.snapshot == t.snapshot && u.unknown == t.unknown && u.events == t.events)
  {
    hide DecisionOf, ContextOf, IdentityFree, SnapshotUsable, FreshSnapshot, FreeNames, NewRows;
    NewIff(t, p);
    FreshIff(t, cfg, call);
    FreeIff(t, p);
    FreshHasSnapshot(t, cfg, call);
    AggregateIs(p);
  }

  /** The rows of the proposal and its history row were added. */
  predicate Reserved(t: Tables, u: Tables, p: Proposal, now: Instant) {
    && u.reservations == t.reservations + NewRows(p, |t.reservations|)
    && u.history == t.history + [AutonomousExecution(p.proposalId, now, SumBy(p.legs, CostOf()))]
  }

  lemma FreshHasSnapshot(t: Tables, cfg: Settings, call: Call)
    ensures FreshSnapshot(t, cfg, call) ==> t.snapshot.Some?
  {
  }

  /** A known id changes nothing. Another payload is blocked; the same one repeats its recorded
      authority while the snapshot is fresh, the kill switch is off and an approval that it
      needs has not expired. */
  lemma KnownIdAnswers(t: Tables, p: Proposal, cfg: Settings, call: Call, row: ProposalRow)
    requires RowOf(t.proposals, p.proposalId) == Some(row)
    ensures var (u, outcome) := EvaluateAndReserve(t, p, cfg, call);
            var current := FreshSnapshot(t, cfg, call) && !call.killSwitch
                           && (row.authority == NeedsApproval ==> row.expiresAt.Some? && call.now < row.expiresAt.value);
            && u == t
            && outcome == (if row.proposal != p then Blocked(false)
                           else if current then Replayed(row.authority) else Blocked(true))
  {
    hide DecisionOf, ContextOf, IdentityFree, SnapshotUsable, FreshSnapshot;
    FreshIff(t, cfg, call);
  }

  /** What the policy context reads, and where from. */
  lemma ContextReads(t: Tables, cfg: Settings, call: Call, excluding: Option<string>)
    requires t.snapshot.Some?
    ensures var c, s := ContextOf(t, cfg, call, excluding), t.snapshot.value;
            && c.cash == s.cash && c.positions == s.positions && c.tradable == s.tradable
            && c.prices == call.prices && c.killSwitch == call.killSwitch && c.paperVerified == call.environmentVerified
            && c.sessionOpen == call.sessionOpen && c.now == call.now
            && c.operatingReserve == cfg.operatingReserve && c.minTradeNotional == cfg.minTradeNotional
            && c.concentrationMax == cfg.concentrationMax && c.permitted == cfg.permitted
            && c.authority == cfg.authority && c.calendar == cfg.calendar && c.settlementEvents == t.events
            && (excluding.None? ==> c.history == t.history)
            && SumBy(c.obligations, ObligationsOwed()) == SumBy(cfg.obligations, ObligationsOwed())
                                                         + SumBy(t.reservations, CashHeld(excluding))
  {
    hide UnresolvedIn, CashObligations, ActiveRows;
    OwedBesides(t.reservations, excluding, DateOf(call.now));
    SumAppend<Obligation>(cfg.obligations, CashObligations(ActiveRows(t.reservations, excluding), DateOf(call.now)), ObligationsOwed());
  }

  function ObligationsOwed(): Obligation -> real {
    (o: Obligation) => o.amount
  }

  /** Cash that an active reservation of another proposal holds. */
  function CashHeld(excluding: Option<string>): Reservation -> real {
    (r: Reservation) =>
      if r.active && r.kind == CashDeployment && excluding != Some(r.proposalId) && r.amount.Some? then r.amount.value else 0.0
  }

  lemma {:induction false} OwedBesides(rs: seq<Reservation>, excluding: Option<string>, due: Day)
    ensures SumBy(CashObligations(ActiveRows(rs, excluding), due), ObligationsOwed()) == SumBy(rs, CashHeld(excluding))
  {
    if rs != [] {
      OwedBesides(rs[1..], excluding, due);
      var rest := ActiveRows(rs[1..], excluding);
      if rs[0].active && excluding != Some(rs[0].proposalId) {
        assert ActiveRows(rs, excluding) == [rs[0]] + rest && ([rs[0]] + rest)[1..] == rest;
        OwedHead(rs[0], rest, due);
      } else {
        assert ActiveRows(rs, excluding) == rest;
      }
    }
  }

  lemma OwedHead(r: Reservation, rest: seq<Reservation>, due: Day)
    ensures SumBy(CashObligations([r] + rest, due), ObligationsOwed())
         == SumBy(CashObligations(rest, due), ObligationsOwed())
            + if r.kind == CashDeployment && r.amount.Some? then r.amount.value else 0.0
  {
    assert ([r] + rest)[1..] == rest;
    if r.kind.CashDeployment? && AmountOf(r) > 0.0 {
      var one: seq<Obligation> := [CashObligation(r, due)];
      assert CashObligations([r] + rest, due) == one + CashObligations(rest, due);
      SumAppend<Obligation>(one, CashObligations(rest, due), ObligationsOwed());
      SumOne<Obligation>(one[0], ObligationsOwed());
    } else {
      assert CashObligations([r] + rest, due) == CashObligations(rest, due);
    }
  }

  /** The authority history leaves out the executions of the excluded proposal, and nothing else. */
  lemma {:induction false} HistoryReads(rows: seq<AutonomousExecution>, excluding: Option<string>, h: AutonomousExecution)
    ensures multiset(HistoryRows(rows, excluding))[h] == if excluding == Some(h.proposalId) then 0 else multiset(rows)[h]
  {
    if rows != [] {
      HistoryReads(rows[1..], excluding, h);
      assert rows == [rows[0]] + rows[1..];
    }
  }

  // ---- unresolved orders ----

  /** The ledger knows an order by an active reservation or a lost row of another proposal, by an
      execution row, or as a leg of the excluded proposal. */
  ghost predicate KnownHere(t: Tables, excluding: Option<string>, id: OrderId) {
    || (exists r <- t.reservations :: r.active && excluding != Some(r.proposalId) && r.clientOrderId == Some(id))
    || (exists u <- t.unknown :: excluding != Some(u.proposalId) && u.clientOrderId == id)
    || (exists o <- t.orders :: o.id == id)
    || (exists row <- t.proposals ::
          && excluding == Some(row.proposal.proposalId) && RowOf(t.proposals, row.proposal.proposalId) == Some(row)
          && exists l <- row.proposal.legs :: l.clientOrderId == id)
  }

  /** A sale that another proposal has reserved. */
  predicate PendingSale(t: Tables, excluding: Option<string>, o: UnresolvedOrder) {
    exists r <- t.reservations ::
      && r.active && excluding != Some(r.proposalId)
      && r.kind == SellQuantity && r.symbol == Some(o.symbol) && r.quantity.Some? && o.quantity == r.quantity
      && o.side == Sell && o.filled == Some(0.0) && o.state == AutoAuthorized
      && o.clientOrderId == Some(if r.clientOrderId.Some? then r.clientOrderId.value else ReservationRef(r.reservationId))
  }

  /** An order of another proposal that got lost. */
  predicate LostOrder(t: Tables, excluding: Option<string>, o: UnresolvedOrder) {
    exists u <- t.unknown ::
      && excluding != Some(u.proposalId)
      && o.symbol == u.symbol && o.side == u.side && o.clientOrderId == Some(u.clientOrderId) && o.state == u.state
      && o.quantity == u.quantity && o.filled == u.filled
  }

  /** An order that the broker may still work and the ledger does not know. */
  ghost predicate ForeignOrder(t: Tables, excluding: Option<string>, o: UnresolvedOrder)
    requires t.snapshot.Some?
  {
    exists b <- t.snapshot.value.orders ::
      && !KnownHere(t, excluding, b.clientOrderId) && UnresolvedAtBroker(b.mappedState)
      && o.symbol == b.symbol && o.side == b.side && o.clientOrderId == Some(b.clientOrderId)
      && o.state == b.mappedState && o.quantity == b.quantity && o.filled == b.filled
  }

  lemma {:induction false} ActiveRowsAre(rs: seq<Reservation>, excluding: Option<string>, r: Reservation)
    ensures r in ActiveRows(rs, excluding) <==> r in rs && r.active && excluding != Some(r.proposalId)
  {
    if rs != [] {
      ActiveRowsAre(rs[1..], excluding, r);
      assert r in rs <==> r == rs[0] || r in rs[1..];
    }
  }

  lemma {:induction false} UnknownRowsAre(rows: seq<UnknownOrder>, excluding: Option<string>, u: UnknownOrder)
    ensures u in UnknownRows(rows, excluding) <==> u in rows && excluding != Some(u.proposalId)
  {
    if rows != [] {
      UnknownRowsAre(rows[1..], excluding, u);
      assert u in rows <==> u == rows[0] || u in rows[1..];
    }
  }

  lemma KnownIff(t: Tables, excluding: Option<string>, id: OrderId)
    ensures id in LocalIds(t, ActiveRows(t.reservations, excluding), UnknownRows(t.unknown, excluding), excluding)
       <==> KnownHere(t, excluding, id)
  {
    hide ActiveRows, UnknownRows, RowOf;
    forall r: Reservation { ActiveRowsAre(t.reservations, excluding, r); }
    forall u: UnknownOrder { UnknownRowsAre(t.unknown, excluding, u); }
    if excluding.Some? {
      RowIsThere(t, excluding.value);
    }
  }

  lemma RowIsThere(t: Tables, pid: string)
    ensures LegsOf(t, pid) == if RowOf(t.proposals, pid).Some? then RowOf(t.proposals, pid).value.proposal.legs else []
    ensures RowOf(t.proposals, pid).Some? ==>
              RowOf(t.proposals, pid).value in t.proposals && RowOf(t.proposals, pid).value.proposal.proposalId == pid
  {
  }

  /** The unresolved orders of a context are merged from exactly these. */
  lemma UnresolvedReads(t: Tables, excluding: Option<string>) returns (orders: seq<UnresolvedOrder>)
    requires t.snapshot.Some?
    ensures UnresolvedIn(t, excluding) == Merged(orders)
    ensures forall o :: o in orders <==>
              PendingSale(t, excluding, o) || LostOrder(t, excluding, o) || ForeignOrder(t, excluding, o)
  {
    hide KnownHere, LocalIds, Merged, FromReservations, FromUnknown, FromBroker;
    var active, unknown := ActiveRows(t.reservations, excluding), UnknownRows(t.unknown, excluding);
    var known := LocalIds(t, active, unknown, excluding);
    orders := ContextOrders(active, unknown, t.snapshot.value.orders, known);
    forall o: UnresolvedOrder
      ensures o in orders <==> PendingSale(t, excluding, o) || LostOrder(t, excluding, o) || ForeignOrder(t, excluding, o)
    {
      PendingIff(t, excluding, o);
      LostIff(t, excluding, o);
      ForeignIff(t, excluding, o);
    }
  }

  lemma PendingIff(t: Tables, excluding: Option<string>, o: UnresolvedOrder)
    ensures o in FromReservations(ActiveRows(t.reservations, excluding)) <==> PendingSale(t, excluding, o)
  {
    hide FromReservations, ActiveRows;
    ReservationSources(ActiveRows(t.reservations, excluding), o);
    forall r: Reservation { ActiveRowsAre(t.reservations, excluding, r); }
  }

  lemma LostIff(t: Tables, excluding: Option<string>, o: UnresolvedOrder)
    ensures o in FromUnknown(UnknownRows(t.unknown, excluding)) <==> LostOrder(t, excluding, o)
  {
    hide FromUnknown, UnknownRows;
    UnknownSources(UnknownRows(t.unknown, excluding), o);
    forall u: UnknownOrder { UnknownRowsAre(t.unknown, excluding, u); }
  }

  lemma ForeignIff(t: Tables, excluding: Option<string>, o: UnresolvedOrder)
    requires t.snapshot.Some?
    ensures var known := LocalIds(t, ActiveRows(t.reservations, excluding), UnknownRows(t.unknown, excluding), excluding);
            o in FromBroker(t.snapshot.value.orders, known) <==> ForeignOrder(t, excluding, o)
  {
    hide KnownHere, LocalIds, FromBroker;
    var known := LocalIds(t, ActiveRows(t.reservations, excluding), UnknownRows(t.unknown, excluding), excluding);
    BrokerSources(t.snapshot.value.orders, known, o);
    forall id: OrderId { KnownIff(t, excluding, id); }
  }

  /** Exactly when evaluate-and-reserve trades by itself. */
  lemma ReservesAutomaticallyIff(t: Tables, p: Proposal, cfg: Settings, call: Call)
    ensures EvaluateAndReserve(t, p, cfg, call).1 == Decided(Auto)
       <==> && NewId(t, p) && FreshSnapshot(t, cfg, call) && call.quotesUsable && FreeNames(t, p)
            && var c := ContextOf(t, cfg, call, None);
               Acceptable(p, c) && |p.legs| <= 12 && AnyFillIsSafe(p, c) && Delegated(p, c)
  {
    hide EvaluateAndReserve, DecisionOf, ContextOf, FreshSnapshot, FreeNames, Acceptable, AnyFillIsSafe, Delegated;
    FreshHasSnapshot(t, cfg, call);
    if NewId(t, p) {
      NewIdAnswers(t, p, cfg, call);
      if t.snapshot.Some? {
        DecisionIff(p, ContextOf(t, cfg, call, None));
      }
    } else {
      NewIff(t, p);
      KnownIdAnswers(t, p, cfg, call, RowOf(t.proposals, p.proposalId).value);
    }
  }

  // ---- starting an execution ----

  /** The recorded proposal was waiting for an approval that has not expired. */
  predicate AwaitsApproval(row: ProposalRow, now: Instant) {
    row.authority == NeedsApproval && row.expiresAt.Some? && now < row.expiresAt.value
  }

  /** Shares or cash of the proposal are actively reserved. */
  predicate HoldsCapacity(t: Tables, pid: string) {
    exists r <- t.reservations :: r.active && r.proposalId == pid && (r.kind == SellQuantity || r.kind == CashDeployment)
  }

  /** Everything that must be so before the first order of a proposal exists. */
  ghost predicate Cleared(t: Tables, p: Proposal, cfg: Settings, call: Call) {
    && (forall o <- t.orders :: o.proposalId != p.proposalId)
    && FreshSnapshot(t, cfg, call) && !call.killSwitch && call.quotesUsable
    && exists row <- t.proposals ::
         && RowOf(t.proposals, p.proposalId) == Some(row) && row.proposal == p
         && (row.authority == Auto ==> HoldsCapacity(t, p.proposalId))
         && var decision := DecisionOf(p, ContextOf(t, cfg, call, Some(p.proposalId)));
            decision == Auto || (decision == NeedsApproval && call.granted && AwaitsApproval(row, call.now))
  }

  predicate FreshOrderIds(t: Tables, p: Proposal) {
    && (forall i, j | 0 <= i < j < |p.legs| :: p.legs[i].clientOrderId != p.legs[j].clientOrderId)
    && forall l <- p.legs, o <- t.orders :: o.id != l.clientOrderId
  }

  /** The row that waits for its submit. */
  function Unsent(l: Leg, pid: string): ExecutionOrder {
    ExecutionOrder(l.clientOrderId, pid, l.legIndex, l.symbol, l.side, l.quantity, 0.0, l.quantity,
                   ExecutionState.Submitting, None, None, l.referencePrice, 0.0, 0.0)
  }

  lemma CapacityIff(t: Tables, pid: string)
    ensures HasCapacity(t, pid) <==> HoldsCapacity(t, pid)
  {
  }

  lemma ClearedIff(t: Tables, p: Proposal, cfg: Settings, call: Call)
    ensures MayStart(t, p, cfg, call) <==> Cleared(t, p, cfg, call)
  {
    hide DecisionOf, ContextOf, SnapshotUsable, FreshSnapshot, HasCapacity, HoldsCapacity;
    FreshIff(t, cfg, call);
    FreshHasSnapshot(t, cfg, call);
    CapacityIff(t, p.proposalId);
    if RowOf(t.proposals, p.proposalId).Some? {
      var row := RowOf(t.proposals, p.proposalId).value;
      assert ApprovalValid(row, call.now) <==> AwaitsApproval(row, call.now);
    }
  }

  lemma FreshIdsIff(t: Tables, p: Proposal)
    ensures FreshIds(LegIds(p.legs), OrderIds(t.orders)) <==> FreshOrderIds(t, p)
  {
    if FreshIds(LegIds(p.legs), OrderIds(t.orders)) {
      forall i, j | 0 <= i < j < |p.legs| ensures p.legs[i].clientOrderId != p.legs[j].clientOrderId {
        assert LegIds(p.legs)[i] != LegIds(p.legs)[j];
      }
      forall l <- p.legs, o <- t.orders ensures o.id != l.clientOrderId {
        var i :| 0 <= i < |p.legs| && p.legs[i] == l;
        var j :| 0 <= j < |t.orders| && t.orders[j] == o;
        assert LegIds(p.legs)[i] in LegIds(p.legs) && OrderIds(t.orders)[j] in OrderIds(t.orders);
      }
    }
    if FreshOrderIds(t, p) {
      forall id <- LegIds(p.legs) ensures id !in OrderIds(t.orders) {
        var i :| 0 <= i < |p.legs| && LegIds(p.legs)[i] == id;
        forall j | 0 <= j < |t.orders| ensures OrderIds(t.orders)[j] != id {
          assert t.orders[j].id != p.legs[i].clientOrderId;
        }
      }
    }
  }

  /** The intents transaction writes one unsent row a leg exactly for a cleared proposal whose
      order ids are fresh, and else changes nothing. */
  lemma StartAnswers(t: Tables, p: Proposal, cfg: Settings, call: Call)
    ensures var u := PersistIntents(t, p, cfg, call);
            if Cleared(t, p, cfg, call) && FreshOrderIds(t, p) then
              && |u.orders| == |t.orders| + |p.legs| && u.orders[..|t.orders|] == t.orders
              && (forall k | 0 <= k < |p.legs| :: u.orders[|t.orders| + k] == Unsent(p.legs[k], p.proposalId))
              && u.proposals == t.proposals && u.snapshot == t.snapshot && u.unknown == t.unknown && u.events == t.events
              && (HoldsCapacity(t, p.proposalId) ==> u.reservations == t.reservations && u.history == t.history)
              && (!HoldsCapacity(t, p.proposalId) ==> Reserved(t, u, p, call.now))
            else u == t
  {
    hide DecisionOf, ContextOf, MayStart, Cleared, NewRows, HasCapacity, HoldsCapacity, FreshIds, FreshOrderIds;
    ClearedIff(t, p, cfg, call);
    CapacityIff(t, p.proposalId);
    FreshIdsIff(t, p);
    AggregateIs(p);
  }

  // ---- doubt never creates a trade ----

  predicate Doubtful(t: Tables) {
    t.snapshot.Some? ==> !t.snapshot.value.reconciled
  }

  /** The proposals, orders, reservations and history rows are those that there were. */
  predicate NothingAdded(t: Tables, u: Tables) {
    && u.proposals == t.proposals && u.history == t.history
    && |u.orders| == |t.orders| && (forall i | 0 <= i < |t.orders| :: u.orders[i].proposalId == t.orders[i].proposalId)
    && |u.reservations| == |t.reservations|
    && forall i | 0 <= i < |t.reservations| ::
         u.reservations[i].active ==> t.reservations[i].active && u.reservations[i].proposalId == t.reservations[i].proposalId
  }

  ghost predicate AgreesNow(t: Tables, step: Step) {
    step.Reconcile? && Judgement(t, step.prior, step.view, step.now) == Judged(Agrees)
  }

  /** No reconciliation of the run agrees. */
  ghost predicate NeverAgrees(t: Tables, cfg: Settings, steps: seq<Step>) {
    steps == [] ||
    var before, last := steps[..|steps| - 1], steps[|steps| - 1];
    NeverAgrees(t, cfg, before) && !AgreesNow(Run(t, cfg, before), last)
  }

  /** What a reconciliation stores: the verdict and the view, under the next version. */
  lemma VerdictIsStored(t: Tables, prior: seq<UnknownOrder>, view: View, now: Instant)
    ensures var u, judgement := ReconcileTables(t, prior, view, now), Judgement(t, prior, view, now);
            if judgement.InvalidBrokerState? then u == t
            else
              && u.snapshot.Some?
              && var s := u.snapshot.value;
                 && (s.reconciled <==> judgement.verdict == Agrees)
                 && s.version == (if t.snapshot.Some? then t.snapshot.value.version + 1 else 1)
                 && s.capturedAt == now && s.cash == view.cash && s.positions == view.positions
                 && s.orders == view.orders && s.tradable == view.tradable
                 && u.unknown == UpsertAll(t.unknown, ResolvedRows(prior, view))
                 && |u.orders| == |t.orders|
                 && forall i | 0 <= i < |t.orders| ::
                      u.orders[i] == if s.reconciled then t.orders[i].(reconciledFilled := t.orders[i].filled) else t.orders[i]
  {
    hide VerdictOf, Invalid, InputsOf;
  }

  lemma DoubtStays(t: Tables, cfg: Settings, step: Step)
    requires Doubtful(t) && !AgreesNow(t, step)
    ensures Doubtful(Apply(t, cfg, step)) && NothingAdded(t, Apply(t, cfg, step))
  {
    hide ReconcileTables, Judgement, EvaluateAndReserve, PersistIntents, ApplyOrder, OrderFrame, FreshSnapshot, Cleared;
    match step
    case Reconcile(prior, view, now) =>
      VerdictIsStored(t, prior, view, now);
      VerdictShape(t, prior, view, now);
    case Reserve(p, call) => DoubtReservesNothing(t, p, cfg, call);
    case Start(p, call) =>
      DoubtIsNotFresh(t, cfg, call);
      NotFreshNotCleared(t, p, cfg, call);
      StartAnswers(t, p, cfg, call);
    case OnOrder(order) =>
      StepFrame(t, cfg.calendar, order);
      FrameAddsNothing(t, ApplyOrder(t, cfg.calendar, order));
  }

  lemma DoubtReservesNothing(t: Tables, p: Proposal, cfg: Settings, call: Call)
    requires Doubtful(t)
    ensures EvaluateAndReserve(t, p, cfg, call).0 == t
  {
    hide EvaluateAndReserve, FreshSnapshot, FreeNames, ContextOf, DecisionOf;
    DoubtIsNotFresh(t, cfg, call);
    if NewId(t, p) {
      NewIdAnswers(t, p, cfg, call);
    } else {
      NewIff(t, p);
      KnownIdAnswers(t, p, cfg, call, RowOf(t.proposals, p.proposalId).value);
    }
  }

  lemma DoubtIsNotFresh(t: Tables, cfg: Settings, call: Call)
    requires Doubtful(t)
    ensures !FreshSnapshot(t, cfg, call)
  {
  }

  lemma NotFreshNotCleared(t: Tables, p: Proposal, cfg: Settings, call: Call)
    requires !FreshSnapshot(t, cfg, call)
    ensures !Cleared(t, p, cfg, call)
  {
    hide ContextOf, DecisionOf;
  }

  lemma FrameAddsNothing(t: Tables, u: Tables)
    requires OrderFrame(t, u)
    ensures NothingAdded(t, u) && u.snapshot == t.snapshot
  {
    forall i | 0 <= i < |t.reservations| && u.reservations[i].active
      ensures t.reservations[i].active && u.reservations[i].proposalId == t.reservations[i].proposalId
    {
      assert Traced(t.reservations[i], u.reservations[i]);
    }
  }

  lemma {:induction false} DoubtAddsNothing(t: Tables, cfg: Settings, steps: seq<Step>)
    requires Doubtful(t) && NeverAgrees(t, cfg, steps)
    ensures Doubtful(Run(t, cfg, steps)) && NothingAdded(t, Run(t, cfg, steps))
  {
    hide Apply, AgreesNow, Doubtful;
    if steps != [] {
      var before, last := steps[..|steps| - 1], steps[|steps| - 1];
      DoubtAddsNothing(t, cfg, before);
      DoubtStays(Run(t, cfg, before), cfg, last);
    }
  }

  /** Doubt never creates a trade: after a verdict other than RECONCILED no call and no start
      adds a proposal, a reservation, an order or a history row until a verdict agrees. */
  lemma DoubtNeverTrades(cfg: Settings, first: seq<Step>, step: Step, more: seq<Step>)
    requires step.Reconcile?
    requires var judgement := Judgement(Run(EmptyTables(), cfg, first), step.prior, step.view, step.now);
             judgement.Judged? && judgement.verdict != Agrees
    requires NeverAgrees(Apply(Run(EmptyTables(), cfg, first), cfg, step), cfg, more)
    ensures var t := Apply(Run(EmptyTables(), cfg, first), cfg, step); NothingAdded(t, Run(t, cfg, more))
  {
    hide Run, Judgement, ReconcileTables;
    var t := Run(EmptyTables(), cfg, first);
    VerdictIsStored(t, step.prior, step.view, step.now);
    DoubtAddsNothing(Apply(t, cfg, step), cfg, more);
  }

  // ---- every order was cleared ----

  /** The tables that a step of the run found. */
  ghost function FoundBy(cfg: Settings, steps: seq<Step>, i: nat): Tables
    requires i <= |steps|
  {
    Run(EmptyTables(), cfg, steps[..i])
  }

  /** Some call of the run decided this proposal so, and its approval lasts until then. */
  ghost predicate DecidedBy(cfg: Settings, steps: seq<Step>, i: nat, row: ProposalRow) {
    && i < |steps| && steps[i].Reserve? && steps[i].proposal == row.proposal
    && EvaluateAndReserve(FoundBy(cfg, steps, i), row.proposal, cfg, steps[i].call).1 == Decided(row.authority)
    && row.expiresAt == if row.authority == NeedsApproval then Some(steps[i].call.now + cfg.approvalExpiry) else None
  }

  lemma EarlierIsFound(cfg: Settings, steps: seq<Step>, i: nat)
    requires i < |steps|
    ensures FoundBy(cfg, steps[..|steps| - 1], i) == FoundBy(cfg, steps, i)
  {
    assert steps[..|steps| - 1][..i] == steps[..i];
  }

  lemma StepKeepsProposals(t: Tables, cfg: Settings, step: Step)
    ensures var u := Apply(t, cfg, step);
            || u.proposals == t.proposals
            || (&& step.Reserve? && |u.proposals| == |t.proposals| + 1 && u.proposals[..|t.proposals|] == t.proposals
                && var row := u.proposals[|t.proposals|];
                   && row.proposal == step.proposal
                   && EvaluateAndReserve(t, step.proposal, cfg, step.call).1 == Decided(row.authority)
                   && row.expiresAt == if row.authority == NeedsApproval then Some(step.call.now + cfg.approvalExpiry) else None)
  {
    hide ReconcileTables, EvaluateAndReserve, PersistIntents, ApplyOrder, OrderFrame, ContextOf, DecisionOf, FreshSnapshot,
         FreeNames, Cleared, FreshOrderIds, HoldsCapacity;
    match step
    case Reconcile(prior, view, now) => VerdictShape(t, prior, view, now);
    case Reserve(p, call) =>
      if NewId(t, p) {
        NewIdAnswers(t, p, cfg, call);
      } else {
        NewIff(t, p);
        KnownIdAnswers(t, p, cfg, call, RowOf(t.proposals, p.proposalId).value);
      }
    case Start(p, call) => StartAnswers(t, p, cfg, call);
    case OnOrder(order) =>
      StepFrame(t, cfg.calendar, order);
      FrameAddsNothing(t, ApplyOrder(t, cfg.calendar, order));
  }

  /** Every stored proposal was decided so by a call of the run. */
  lemma {:induction false} ProposalsWereDecided(cfg: Settings, steps: seq<Step>)
    ensures forall row <- Run(EmptyTables(), cfg, steps).proposals :: exists i :: DecidedBy(cfg, steps, i, row)
  {
    hide Apply, EvaluateAndReserve;
    if steps != [] {
      var before, last := steps[..|steps| - 1], steps[|steps| - 1];
      var t, u := Run(EmptyTables(), cfg, before), Run(EmptyTables(), cfg, steps);
      ProposalsWereDecided(cfg, before);
      StepKeepsProposals(t, cfg, last);
      forall row <- u.proposals ensures exists i :: DecidedBy(cfg, steps, i, row) {
        if row in t.proposals {
          var i :| DecidedBy(cfg, before, i, row);
          EarlierIsFound(cfg, steps, i);
          assert DecidedBy(cfg, steps, i, row);
        } else {
          assert row == u.proposals[|t.proposals|];
          assert DecidedBy(cfg, steps, |before|, row);
        }
      }
    }
  }

  /** An approval was granted for the proposal that some earlier call of the run decided to need
      one, and had not expired. */
  ghost predicate Approved(cfg: Settings, steps: seq<Step>, p: Proposal, call: Call) {
    call.granted && exists j ::
      && 0 <= j < |steps| && steps[j].Reserve? && steps[j].proposal == p
      && EvaluateAndReserve(FoundBy(cfg, steps, j), p, cfg, steps[j].call).1 == Decided(NeedsApproval)
      && call.now < steps[j].call.now + cfg.approvalExpiry
  }

  /** A start of the run created this order, with everything in place. */
  ghost predicate StartedBy(cfg: Settings, steps: seq<Step>, i: nat, o: ExecutionOrder) {
    && i < |steps| && steps[i].Start? && steps[i].proposal.proposalId == o.proposalId
    && (exists l <- steps[i].proposal.legs :: l.clientOrderId == o.id)
    && var t, p, call := FoundBy(cfg, steps, i), steps[i].proposal, steps[i].call;
       && (forall x <- t.orders :: x.proposalId != o.proposalId && x.id != o.id)
       && FreshSnapshot(t, cfg, call) && !call.killSwitch && call.quotesUsable
       && var decision := DecisionOf(p, ContextOf(t, cfg, call, Some(p.proposalId)));
          decision == Auto || (decision == NeedsApproval && Approved(cfg, steps[..i], p, call))
  }

  lemma ClearedIsApproved(cfg: Settings, before: seq<Step>, p: Proposal, call: Call)
    requires Cleared(Run(EmptyTables(), cfg, before), p, cfg, call)
    ensures var t := Run(EmptyTables(), cfg, before);
            && t.snapshot.Some?
            && var decision := DecisionOf(p, ContextOf(t, cfg, call, Some(p.proposalId)));
               decision == Auto || (decision == NeedsApproval && Approved(cfg, before, p, call))
  {
    hide EvaluateAndReserve, DecisionOf, ContextOf, FreshSnapshot, HoldsCapacity, Run;
    var t := Run(EmptyTables(), cfg, before);
    FreshHasSnapshot(t, cfg, call);
    ProposalsWereDecided(cfg, before);
    var row :| row in t.proposals && RowOf(t.proposals, p.proposalId) == Some(row) && row.proposal == p
               && (DecisionOf(p, ContextOf(t, cfg, call, Some(p.proposalId))) == Auto
                   || (DecisionOf(p, ContextOf(t, cfg, call, Some(p.proposalId))) == NeedsApproval && call.granted
                       && AwaitsApproval(row, call.now)));
    var i :| DecidedBy(cfg, before, i, row);
  }

  /** Orders keep their place and their names; only a start adds any. */
  predicate NamesStay(t: Tables, u: Tables) {
    && |t.orders| <= |u.orders|
    && forall k | 0 <= k < |t.orders| :: u.orders[k].id == t.orders[k].id && u.orders[k].proposalId == t.orders[k].proposalId
  }

  lemma StepKeepsOrders(t: Tables, cfg: Settings, step: Step)
    ensures NamesStay(t, Apply(t, cfg, step))
    ensures |Apply(t, cfg, step).orders| > |t.orders| ==>
              && step.Start? && Cleared(t, step.proposal, cfg, step.call) && FreshOrderIds(t, step.proposal)
              && |Apply(t, cfg, step).orders| == |t.orders| + |step.proposal.legs|
              && forall k | 0 <= k < |step.proposal.legs| ::
                   Apply(t, cfg, step).orders[|t.orders| + k] == Unsent(step.proposal.legs[k], step.proposal.proposalId)
  {
    hide ReconcileTables, EvaluateAndReserve, PersistIntents, ApplyOrder, OrderFrame, ContextOf, DecisionOf, FreshSnapshot,
         FreeNames, Cleared, FreshOrderIds, HoldsCapacity, Unsent;
    match step
    case Reconcile(prior, view, now) => VerdictIsStored(t, prior, view, now);
    case Reserve(p, call) => ReserveRuns.CallChanges(t, cfg, ReserveRuns.Request(p, call));
    case Start(p, call) => StartAnswers(t, p, cfg, call);
    case OnOrder(order) => OrderStepKeepsIds(t, cfg.calendar, order);
  }

  lemma OrderStepKeepsIds(t: Tables, cal: TradingCalendar, step: OrderStep)
    ensures var u := ApplyOrder(t, cal, step);
            |u.orders| == |t.orders| && NamesStay(t, u)
  {
    hide ApplyOrder;
    StepFrame(t, cal, step);
    if step.TakeReport? {
      ReportKeepsIds(t, step.id, step.channel, step.report, step.now, cal);
      TakeReportIs(t, cal, step);
    } else {
      Proceeds.LocalStepFrame(t, cal, step);
    }
  }

  lemma TakeReportIs(t: Tables, cal: TradingCalendar, step: OrderStep)
    requires step.TakeReport?
    ensures ApplyOrder(t, cal, step) == ApplyReport(t, step.id, step.channel, step.report, step.now, cal)
  {
    hide ApplyReport;
  }

  lemma ReportKeepsIds(t: Tables, id: OrderId, channel: Channel, report: Report, now: Instant, cal: TradingCalendar)
    ensures var u := ApplyReport(t, id, channel, report, now, cal);
            |u.orders| == |t.orders| && forall k | 0 <= k < |t.orders| :: u.orders[k].id == t.orders[k].id
  {
    hide RecordReport, SyncProposal;
    var i := IndexOf(t.orders, id);
    if i.Some? && RecordReport(t, i.value, channel, report, now, cal).Ok? {
      Proceeds.RecordShape(t, i.value, channel, report, now, cal);
      Capacity.SyncKeepsTables(RecordReport(t, i.value, channel, report, now, cal).value, t.orders[i.value].proposalId);
    }
  }

  lemma ClearedMeans(t: Tables, p: Proposal, cfg: Settings, call: Call)
    requires Cleared(t, p, cfg, call) && FreshOrderIds(t, p)
    ensures FreshSnapshot(t, cfg, call) && !call.killSwitch && call.quotesUsable
    ensures forall l <- p.legs, x <- t.orders :: x.proposalId != p.proposalId && x.id != l.clientOrderId
  {
    hide DecisionOf, ContextOf, FreshSnapshot, HoldsCapacity;
  }

  lemma NewOrderIsStarted(cfg: Settings, steps: seq<Step>, k: nat)
    requires steps != [] && |FoundBy(cfg, steps, |steps| - 1).orders| <= k < |Run(EmptyTables(), cfg, steps).orders|
    ensures StartedBy(cfg, steps, |steps| - 1, Run(EmptyTables(), cfg, steps).orders[k])
  {
    hide Apply, EvaluateAndReserve, DecisionOf, ContextOf, FreshSnapshot, Cleared, FreshOrderIds, Approved;
    var before, last := steps[..|steps| - 1], steps[|steps| - 1];
    var t, u := Run(EmptyTables(), cfg, before), Run(EmptyTables(), cfg, steps);
    StepKeepsOrders(t, cfg, last);
    ClearedMeans(t, last.proposal, cfg, last.call);
    ClearedIsApproved(cfg, before, last.proposal, last.call);
    var l := last.proposal.legs[k - |t.orders|];
    assert u.orders[|t.orders| + (k - |t.orders|)] == u.orders[k] == Unsent(l, last.proposal.proposalId);
    assert l in last.proposal.legs;
  }

  lemma StartedStays(cfg: Settings, steps: seq<Step>, i: nat, o: ExecutionOrder, now: ExecutionOrder)
    requires steps != [] && StartedBy(cfg, steps[..|steps| - 1], i, o)
    requires now.id == o.id && now.proposalId == o.proposalId
    ensures StartedBy(cfg, steps, i, now)
  {
    hide EvaluateAndReserve, DecisionOf, ContextOf, FreshSnapshot, Approved;
    EarlierIsFound(cfg, steps, i);
    assert steps[..|steps| - 1][..i] == steps[..i];
  }

  /** Every order was created by a start of the run. */
  ghost predicate AllStarted(cfg: Settings, steps: seq<Step>, orders: seq<ExecutionOrder>) {
    forall o <- orders :: exists i :: StartedBy(cfg, steps, i, o)
  }

  /** Every order of a run was created by a start that found a fresh RECONCILED snapshot and the
      kill switch off, and that was decided AUTO again or had an unexpired approval granted
      that an earlier call had asked for. */
  lemma {:induction false} OrdersWereCleared(cfg: Settings, steps: seq<Step>)
    ensures AllStarted(cfg, steps, Run(EmptyTables(), cfg, steps).orders)
  {
    hide Apply, StartedBy;
    if steps != [] {
      var before, last := steps[..|steps| - 1], steps[|steps| - 1];
      var t, u := Run(EmptyTables(), cfg, before), Run(EmptyTables(), cfg, steps);
      OrdersWereCleared(cfg, before);
      StepKeepsOrders(t, cfg, last);
      forall o <- u.orders ensures exists i :: StartedBy(cfg, steps, i, o) {
        var k :| 0 <= k < |u.orders| && u.orders[k] == o;
        if k < |t.orders| {
          assert t.orders[k] in t.orders;
          var i :| StartedBy(cfg, before, i, t.orders[k]);
          StartedStays(cfg, steps, i, t.orders[k], u.orders[k]);
        } else {
          NewOrderIsStarted(cfg, steps, k);
        }
      }
    }
  }

  /** No order without its approval: where no start finds the proposal automatic, and none brings
      a granted approval in time, the proposal has no order in the whole run. */
  lemma NoOrderWithoutApproval(cfg: Settings, steps: seq<Step>, pid: string)
    requires forall i | 0 <= i < |steps| && steps[i].Start? && steps[i].proposal.proposalId == pid ::
               var t, p, call := FoundBy(cfg, steps, i), steps[i].proposal, steps[i].call;
               && (t.snapshot.Some? ==> DecisionOf(p, ContextOf(t, cfg, call, Some(pid))) != Auto)
               && !Approved(cfg, steps[..i], p, call)
    ensures forall o <- Run(EmptyTables(), cfg, steps).orders :: o.proposalId != pid
  {
    hide Run, DecisionOf, ContextOf, Approved, EvaluateAndReserve;
    OrdersWereCleared(cfg, steps);
    var t := Run(EmptyTables(), cfg, steps);
    forall o <- t.orders ensures o.proposalId != pid {
      var i :| StartedBy(cfg, steps, i, o);
    }
  }
}
