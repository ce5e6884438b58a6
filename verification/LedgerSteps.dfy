/** Every transaction of the ledger, one by one: reconciling, reserving, starting an
    execution, and the transactions on existing orders. Each keeps the books (capacity and
    names) on any tables, and the long-only bound where it sells only what is there. */
module LedgerSteps {
  import opened Authority
  import opened Calendar
  import opened Capacity
  import opened CapacitySteps
  import opened Compare
  import opened Decision
  import opened Domain
  import opened Execution
  import opened Guard
  import opened Liquidity
  import opened Orchestration
  import opened Oversell
  import opened Reconcile
  import opened Records
  import opened Results
  import opened States
  import opened Sums
  import opened Sync
  import opened Tables
  import opened Unresolved

  /** Capacity accounting and the names of reservations. */
  ghost predicate BooksInv(t: Tables) {
    CapacityInv(t) && NamesInv(t)
  }

  ghost predicate LedgerInv(t: Tables) {
    BooksInv(t) && NeverOversold(t)
  }

  /** Of no symbol that the proposal sells was more sold than bought since the last stamp. */
  ghost predicate SalesStamped(t: Tables, p: Proposal) {
    forall s :: p.SellQuantity(s) > 0.0 ==> NetSold(t, s) <= 0.0
  }

  /** The proposal sells nothing of which more was sold than bought since the last stamp. */
  ghost predicate SellsStamped(t: Tables, p: Proposal) {
    t.snapshot.Some? ==> SalesStamped(t, p)
  }

  /** No active reservation is lost in a resolved pick. */
  predicate PicksAreOpen(t: Tables, excluding: Option<string>) {
    t.snapshot.Some? ==> PicksHold(t, excluding)
  }

  /** The circumstances under which CHECK-16 sees all that is spoken for. */
  ghost predicate SellsSafely(t: Tables, p: Proposal, excluding: Option<string>) {
    SellsStamped(t, p) && PicksAreOpen(t, excluding)
  }

  // ---- reconciling ----

  lemma StampedExposure(t: Tables, u: Tables, s: Symbol)
    requires u.orders == StampedOrders(t.orders) && u.reservations == t.reservations
    ensures Outstanding(u, s) == Outstanding(t, s) && NetSold(u, s) == 0.0
  {
    SumMapped<ExecutionOrder, ExecutionOrder>(u.orders, t.orders, OpenSellIn(s), OpenSellIn(s));
    SumZero(u.orders, IncrementOf(s));
    forall pid: string ensures Started(u, pid) <==> Started(t, pid) {
      StampKeepsStarted(t, u, pid);
    }
    SumEq<Reservation>(t.reservations, WaitingSellOf(u, s), WaitingSellOf(t, s));
  }

  lemma StampKeepsStarted(t: Tables, u: Tables, pid: string)
    requires u.orders == StampedOrders(t.orders)
    ensures Started(u, pid) <==> Started(t, pid)
  {
    if Started(t, pid) {
      var i :| 0 <= i < |t.orders| && t.orders[i].proposalId == pid;
      assert u.orders[i] in u.orders;
    }
    if Started(u, pid) {
      var i :| 0 <= i < |u.orders| && u.orders[i].proposalId == pid;
      assert t.orders[i] in t.orders;
    }
  }

  lemma ReconcileShape(t: Tables, prior: seq<UnknownOrder>, view: View, now: Instant)
    requires Judgement(t, prior, view, now) == Judged(Agrees)
    ensures var u := ReconcileTables(t, prior, view, now);
            && u.snapshot.Some? && u.snapshot.value.reconciled && u.orders == StampedOrders(t.orders)
            && u.reservations == t.reservations && u.proposals == t.proposals && u.history == t.history
  {
    hide VerdictOf, Invalid;
  }

  lemma NothingOutstanding(t: Tables, s: Symbol)
    requires t.orders == [] && t.reservations == []
    ensures Outstanding(t, s) == 0.0 && NetSold(t, s) == 0.0
  {
  }

  lemma ReconcileBounded(t: Tables, prior: seq<UnknownOrder>, view: View, now: Instant, s: Symbol)
    requires LedgerInv(t) && Judgement(t, prior, view, now) == Judged(Agrees)
    ensures var u := ReconcileTables(t, prior, view, now);
            u.snapshot.Some? && Outstanding(u, s) + NetSold(u, s) <= SnapshotHeld(u, s) && NetSold(u, s) == 0.0
  {
    hide VerdictOf, Invalid, ReconcileTables, Judgement, CapacityInv, Outstanding, NetSold, SnapshotHeld;
    var u := ReconcileTables(t, prior, view, now);
    ReconcileShape(t, prior, view, now);
    StampedExposure(t, u, s);
    if t.snapshot.Some? {
      ReconciledMovesByFills(t, prior, view, now, s);
      assert Outstanding(t, s) + NetSold(t, s) <= SnapshotHeld(t, s);
      NetSoldIs(t, s);
    } else {
      NothingOutstanding(t, s);
      HeldNonNegative(u, s);
    }
  }

  lemma NetSoldIs(t: Tables, s: Symbol)
    ensures NetSold(t, s) == -Explained(t.orders, s)
  {
  }

  lemma HeldNonNegative(t: Tables, s: Symbol)
    requires t.snapshot.Some?
    ensures SnapshotHeld(t, s) >= 0.0
  {
  }

  lemma StampedNames(t: Tables, u: Tables)
    requires NamesInv(t) && u.snapshot.Some?
    requires u.orders == StampedOrders(t.orders) && u.reservations == t.reservations && u.proposals == t.proposals
    ensures NamesInv(u)
  {
    LegsAlike(t, u);
    forall r <- u.reservations ensures Named(u, r) {
      assert Named(t, r);
    }
    forall o <- u.orders ensures RowOf(u.proposals, o.proposalId).Some? {
      var i :| 0 <= i < |u.orders| && u.orders[i] == o;
      assert t.orders[i] in t.orders;
    }
  }

  lemma LegsAlike(t: Tables, u: Tables)
    requires u.proposals == t.proposals
    ensures forall pid :: LegsOf(u, pid) == LegsOf(t, pid)
    ensures UniqueLegIds(t) ==> UniqueLegIds(u)
  {
  }

  lemma SameOrdersNames(t: Tables, u: Tables)
    requires NamesInv(t) && u.snapshot.Some?
    requires u.orders == t.orders && u.reservations == t.reservations && u.proposals == t.proposals
    ensures NamesInv(u)
  {
    LegsAlike(t, u);
    forall r <- u.reservations ensures Named(u, r) {
      assert Named(t, r);
    }
  }

  lemma SameOrdersCapacity(t: Tables, u: Tables)
    requires CapacityInv(t)
    requires u.orders == t.orders && u.reservations == t.reservations && u.proposals == t.proposals
    ensures CapacityInv(u)
  {
    hide CapacityInv;
    DoubtKeeps(t, u, "");
  }

  lemma VerdictShape(t: Tables, prior: seq<UnknownOrder>, view: View, now: Instant)
    ensures var u := ReconcileTables(t, prior, view, now);
            && u.reservations == t.reservations && u.proposals == t.proposals && u.history == t.history
            && u.events == t.events
            && (u.orders == t.orders || u.orders == StampedOrders(t.orders))
            && (u == t || u.snapshot.Some?)
            && (Judgement(t, prior, view, now).InvalidBrokerState? ==> u == t)
  {
    hide VerdictOf, Invalid, InputsOf;
  }

  /** The books are kept under any verdict. */
  lemma ReconcileKeepsBooks(t: Tables, prior: seq<UnknownOrder>, view: View, now: Instant)
    requires BooksInv(t)
    ensures BooksInv(ReconcileTables(t, prior, view, now))
  {
    hide CapacityInv, NamesInv, ReconcileTables, Judgement;
    var u := ReconcileTables(t, prior, view, now);
    VerdictShape(t, prior, view, now);
    if u != t {
      if u.orders == t.orders {
        SameOrdersCapacity(t, u);
        SameOrdersNames(t, u);
      } else {
        StampKeeps(t, u);
        StampedNames(t, u);
      }
    }
  }

  /** A RECONCILED snapshot re-bases the bound on the new position and leaves nothing
      unstamped; an invalid broker state leaves the tables as they are. */
  lemma ReconcileKeeps(t: Tables, prior: seq<UnknownOrder>, view: View, now: Instant)
    requires LedgerInv(t) && (Judgement(t, prior, view, now).Judged? ==> Judgement(t, prior, view, now).verdict.Agrees?)
    ensures LedgerInv(ReconcileTables(t, prior, view, now))
    ensures Judgement(t, prior, view, now).Judged? ==> forall s :: NetSold(ReconcileTables(t, prior, view, now), s) == 0.0
  {
    hide BooksInv, ReconcileTables, Judgement, Outstanding, NetSold, SnapshotHeld;
    var u := ReconcileTables(t, prior, view, now);
    ReconcileKeepsBooks(t, prior, view, now);
    VerdictShape(t, prior, view, now);
    if Judgement(t, prior, view, now).Judged? {
      forall s
        ensures u.snapshot.Some? && Outstanding(u, s) + NetSold(u, s) <= SnapshotHeld(u, s)
        ensures NetSold(u, s) == 0.0
      {
        ReconcileBounded(t, prior, view, now, s);
      }
    }
  }

  // ---- reserving ----

  lemma {:induction false} LastSellIdIsLeg(legs: seq<Leg>, s: Symbol)
    requires exists l <- legs :: l.side.Sell? && l.symbol == s
    ensures exists l <- legs :: l.side.Sell? && l.symbol == s && LastSellId(legs, s) == Some(l.clientOrderId)
  {
    var last := legs[|legs| - 1];
    if last.side.Sell? && last.symbol == s {
      assert last in legs;
    } else {
      var before := legs[..|legs| - 1];
      assert legs == before + [last];
      LastSellIdIsLeg(before, s);
      assert forall l <- before :: l in legs;
    }
  }

  lemma NewRowsNamed(u: Tables, p: Proposal, nextId: nat, r: Reservation)
    requires r in NewRows(p, nextId) && LegsOf(u, p.proposalId) == p.legs
    ensures Named(u, r)
  {
    SoldSymbolsMembers(p.legs);
    var symbols := SoldSymbols(p.legs);
    var sells := SellRows(p, symbols, nextId);
    if r in sells {
      var i :| 0 <= i < |sells| && sells[i] == r;
      assert symbols[i] in symbols;
      LastSellIdIsLeg(p.legs, symbols[i]);
      var l :| l in p.legs && l.side.Sell? && l.symbol == symbols[i] && LastSellId(p.legs, symbols[i]) == Some(l.clientOrderId);
      assert NamedBy(r, l);
    }
  }

  /** A fresh proposal row keeps leg ids unique across the table. */
  lemma InsertUnique(t: Tables, u: Tables, row: ProposalRow)
    requires UniqueLegIds(t) && RowOf(t.proposals, row.proposal.proposalId).None?
    requires u.proposals == t.proposals + [row] && IdentityFree(t, row.proposal)
    ensures UniqueLegIds(u)
    ensures forall pid :: LegsOf(u, pid) == if pid == row.proposal.proposalId then row.proposal.legs else LegsOf(t, pid)
  {
    var added := row.proposal;
    forall pid
      ensures LegsOf(u, pid) == if pid == added.proposalId then added.legs else LegsOf(t, pid)
      ensures forall l <- LegsOf(t, pid) :: l.clientOrderId in StoredLegIds(t.proposals)
    {
      RowOfAppend(t.proposals, row, pid);
    }
    forall l <- added.legs, m <- added.legs ensures SameLeg(added.proposalId, l, added.proposalId, m) {
      var i :| 0 <= i < |added.legs| && added.legs[i] == l;
      var j :| 0 <= j < |added.legs| && added.legs[j] == m;
      assert LegIds(added.legs)[i] == l.clientOrderId && LegIds(added.legs)[j] == m.clientOrderId;
    }
    assert forall l <- added.legs :: l.clientOrderId !in StoredLegIds(t.proposals);
  }

  lemma InsertedNames(t: Tables, u: Tables, row: ProposalRow)
    requires NamesInv(t) && t.snapshot.Some? && u.snapshot == t.snapshot && u.orders == t.orders
    requires RowOf(t.proposals, row.proposal.proposalId).None?
    requires u.proposals == t.proposals + [row] && IdentityFree(t, row.proposal)
    requires u.reservations == t.reservations
             || u.reservations == t.reservations + NewRows(row.proposal, |t.reservations|)
    requires forall r <- t.reservations :: !(r.active && r.proposalId == row.proposal.proposalId)
    ensures NamesInv(u)
  {
    hide NewRows, IdentityFree, UniqueLegIds;
    InsertUnique(t, u, row);
    forall r <- u.reservations ensures Named(u, r) {
      if r in t.reservations {
        assert Named(t, r);
      } else {
        NewRowsNamed(u, row.proposal, |t.reservations|, r);
      }
    }
    forall o <- u.orders ensures RowOf(u.proposals, o.proposalId).Some? {
      RowOfAppend(t.proposals, row, o.proposalId);
    }
  }

  lemma AppendedOutstanding(t: Tables, u: Tables, p: Proposal, s: Symbol)
    requires u.orders == t.orders && u.reservations == t.reservations + NewRows(p, |t.reservations|)
    requires !Started(t, p.proposalId)
    ensures Outstanding(u, s) == Outstanding(t, s) + p.SellQuantity(s) && NetSold(u, s) == NetSold(t, s)
  {
    hide NewRows;
    var rows := NewRows(p, |t.reservations|);
    assert forall pid :: Started(u, pid) <==> Started(t, pid);
    SumAppend<Reservation>(t.reservations, rows, WaitingSellOf(u, s));
    SumEq<Reservation>(t.reservations, WaitingSellOf(u, s), WaitingSellOf(t, s));
    forall r <- rows ensures WaitingSellOf(u, s)(r) == ActiveSellFor(p.proposalId, s)(r) {
      NewRowsShape(p, |t.reservations|, r);
    }
    SumEq<Reservation>(rows, WaitingSellOf(u, s), ActiveSellFor(p.proposalId, s));
    NewRowsSellSum(p, |t.reservations|, p.proposalId, s);
  }

  /** New reservations for sells that CHECK-16 admitted, of symbols without unstamped sales. */
  lemma AdmittedBounded(t: Tables, u: Tables, p: Proposal, cfg: Settings, call: Call, excluding: Option<string>)
    requires LedgerInv(t) && SalesStamped(t, p) && t.snapshot.Some? && PicksHold(t, excluding)
    requires excluding.Some? ==> Idle(t, excluding.value)
    requires LongOnly(p, ContextOf(t, cfg, call, excluding)) && !Started(t, p.proposalId)
    requires u.orders == t.orders && u.snapshot == t.snapshot
    requires u.reservations == t.reservations + NewRows(p, |t.reservations|)
    ensures NeverOversold(u)
  {
    hide CapacityInv, NamesInv, NewRows, Outstanding, NetSold, SnapshotHeld, ContextOf, LongOnly, PicksHold;
    forall s ensures Outstanding(u, s) + NetSold(u, s) <= SnapshotHeld(u, s) {
      AdmittedSellFits(t, p, cfg, call, excluding, s);
      AppendedOutstanding(t, u, p, s);
      SameHeld(t, u, s);
      assert Outstanding(t, s) + NetSold(t, s) <= SnapshotHeld(t, s);
    }
  }

  lemma SameHeld(t: Tables, u: Tables, s: Symbol)
    requires t.snapshot.Some? && u.snapshot == t.snapshot
    ensures SnapshotHeld(u, s) == SnapshotHeld(t, s)
  {
  }

  lemma PassesLongOnly(p: Proposal, c: PolicyContext)
    requires !DecisionOf(p, c).Reject?
    ensures LongOnly(p, c)
  {
    BaseMeans(p, c, Check16);
  }

  lemma UnknownProposalIsUnstarted(t: Tables, pid: string)
    requires NamesInv(t) && CapacityInv(t) && RowOf(t.proposals, pid).None?
    ensures !Started(t, pid) && Idle(t, pid)
  {
    assert !Started(t, pid);
    assert Waiting(t, pid);
  }

  lemma SameOutstanding(t: Tables, u: Tables, s: Symbol)
    requires u.orders == t.orders && u.reservations == t.reservations
    ensures Outstanding(u, s) == Outstanding(t, s) && NetSold(u, s) == NetSold(t, s)
  {
    assert forall pid :: Started(u, pid) <==> Started(t, pid);
    SumEq<Reservation>(t.reservations, WaitingSellOf(u, s), WaitingSellOf(t, s));
  }

  lemma SameTablesBounded(t: Tables, u: Tables)
    requires NeverOversold(t)
    requires u.orders == t.orders && u.reservations == t.reservations && u.snapshot == t.snapshot
    ensures NeverOversold(u)
  {
    hide Outstanding, NetSold;
    forall s ensures t.snapshot.Some? ==> Outstanding(u, s) + NetSold(u, s) <= SnapshotHeld(u, s) {
      SameOutstanding(t, u, s);
    }
  }

  /** evaluate-and-reserve keeps the books on any tables. */
  lemma ReserveKeepsBooks(t: Tables, p: Proposal, cfg: Settings, call: Call)
    requires BooksInv(t)
    ensures BooksInv(EvaluateAndReserve(t, p, cfg, call).0)
  {
    hide CapacityInv, NamesInv, NewRows, DecisionOf, ContextOf, IdentityFree;
    var (u, outcome) := EvaluateAndReserve(t, p, cfg, call);
    if outcome.Decided? {
      var row := DecidedRow(p, outcome.authority, cfg, call, t.snapshot.value.version);
      UnknownProposalIsUnstarted(t, p.proposalId);
      ReserveKeeps(t, u, row);
      InsertedNames(t, u, row);
    }
  }

  /** It keeps the long-only bound where it sells safely. */
  lemma ReserveStepKeeps(t: Tables, p: Proposal, cfg: Settings, call: Call)
    requires LedgerInv(t) && SellsSafely(t, p, None)
    ensures LedgerInv(EvaluateAndReserve(t, p, cfg, call).0)
  {
    hide CapacityInv, NamesInv, NeverOversold, NewRows, DecisionOf, ContextOf, IdentityFree, PicksHold, SalesStamped;
    var (u, outcome) := EvaluateAndReserve(t, p, cfg, call);
    ReserveKeepsBooks(t, p, cfg, call);
    if outcome.Decided? {
      UnknownProposalIsUnstarted(t, p.proposalId);
      if outcome.authority.Auto? {
        PassesLongOnly(p, ContextOf(t, cfg, call, None));
        AdmittedBounded(t, u, p, cfg, call, None);
      } else {
        SameTablesBounded(t, u);
      }
    }
  }

  // ---- exactly when CHECK-16 protects the position ----

  /** What CHECK-16 lets a proposal sell of a symbol. */
  function AvailableToSell(t: Tables, s: Symbol): real
    requires t.snapshot.Some?
  {
    EffectiveAvailable(PositionOf(t.snapshot.value.positions, s), Reserved(UnresolvedIn(t, None), s))
  }

  predicate Sellable(t: Tables, s: Symbol)
    requires t.snapshot.Some?
  {
    !Undeterminable(UnresolvedIn(t, None), s) && AvailableToSell(t, s) > 0.0
  }

  /** What is spoken for, sold since the stamp, or available to sell fits the position. */
  ghost predicate AvailabilityFits(t: Tables)
    requires t.snapshot.Some?
  {
    forall s | Sellable(t, s) :: Outstanding(t, s) + NetSold(t, s) + AvailableToSell(t, s) <= SnapshotHeld(t, s)
  }

  function WithRows(t: Tables, p: Proposal): Tables {
    t.(reservations := t.reservations + NewRows(p, |t.reservations|))
  }

  ghost predicate AdmitsOnlyFitting(t: Tables, cfg: Settings, call: Call, pid: string)
    requires t.snapshot.Some?
  {
    forall p: Proposal | p.proposalId == pid && LongOnly(p, ContextOf(t, cfg, call, None)) :: NeverOversold(WithRows(t, p))
  }

  lemma AdmittedIsAvailable(t: Tables, p: Proposal, cfg: Settings, call: Call, s: Symbol)
    requires t.snapshot.Some? && LongOnly(p, ContextOf(t, cfg, call, None)) && p.SellQuantity(s) > 0.0
    ensures Sellable(t, s) && p.SellQuantity(s) <= AvailableToSell(t, s)
  {
    hide UnresolvedIn;
    if forall l <- p.legs :: !(l.side.Sell? && l.symbol == s) {
      SumZero(p.legs, SellQuantityOf(s));
    }
    assert SellAllowed(p, ContextOf(t, cfg, call, None), s);
  }

  lemma FittingIsKept(t: Tables, p: Proposal, cfg: Settings, call: Call)
    requires t.snapshot.Some? && NeverOversold(t) && !Started(t, p.proposalId) && AvailabilityFits(t)
    requires LongOnly(p, ContextOf(t, cfg, call, None))
    ensures NeverOversold(WithRows(t, p))
  {
    hide NewRows, Outstanding, NetSold, SnapshotHeld, ContextOf, LongOnly, Sellable, AvailableToSell;
    var u := WithRows(t, p);
    forall s ensures Outstanding(u, s) + NetSold(u, s) <= SnapshotHeld(u, s) {
      AppendedOutstanding(t, u, p, s);
      SameHeld(t, u, s);
      assert Outstanding(t, s) + NetSold(t, s) <= SnapshotHeld(t, s);
      if p.SellQuantity(s) > 0.0 {
        AdmittedIsAvailable(t, p, cfg, call, s);
      }
    }
  }

  /** The sell of everything that is available. */
  function SellOut(pid: string, s: Symbol, quantity: real): Proposal
    requires quantity > 0.0
  {
    Proposal(pid, [ProposedOrder(pid, 0, s, Sell, quantity, 1.0, Derived(pid, 0))])
  }

  lemma SellOutQuantity(pid: string, s: Symbol, quantity: real, other: Symbol)
    requires quantity > 0.0
    ensures SellOut(pid, s, quantity).SellQuantity(other) == if other == s then quantity else 0.0
    ensures SumBy(SellOut(pid, s, quantity).legs, SignedQuantityOf(other)) == if other == s then -quantity else 0.0
  {
    SumOne<Leg>(SellOut(pid, s, quantity).legs[0], SellQuantityOf(other));
    SumOne<Leg>(SellOut(pid, s, quantity).legs[0], SignedQuantityOf(other));
  }

  lemma SellOutIsAdmitted(t: Tables, cfg: Settings, call: Call, pid: string, s: Symbol)
    requires t.snapshot.Some? && Sellable(t, s)
    ensures LongOnly(SellOut(pid, s, AvailableToSell(t, s)), ContextOf(t, cfg, call, None))
  {
    hide UnresolvedIn;
    var p, c := SellOut(pid, s, AvailableToSell(t, s)), ContextOf(t, cfg, call, None);
    forall other: Symbol ensures ProjectedQuantity(c.positions, p.legs, other) >= 0.0 {
      SellOutQuantity(pid, s, AvailableToSell(t, s), other);
    }
    SellOutQuantity(pid, s, AvailableToSell(t, s), s);
  }

  /** Exactly when CHECK-16 protects the position: every sell that it admits keeps the
      long-only bound if and only if, for every symbol of which something is available,
      the available quantity fits beside what is outstanding or was sold since the stamp. */
  lemma AdmittedSellsFitIff(t: Tables, cfg: Settings, call: Call, pid: string)
    requires t.snapshot.Some? && NeverOversold(t) && !Started(t, pid)
    ensures AdmitsOnlyFitting(t, cfg, call, pid) <==> AvailabilityFits(t)
  {
    hide NewRows, Outstanding, NetSold, SnapshotHeld, ContextOf, LongOnly, Sellable, AvailableToSell;
    if AvailabilityFits(t) {
      forall p: Proposal | p.proposalId == pid && LongOnly(p, ContextOf(t, cfg, call, None))
        ensures NeverOversold(WithRows(t, p))
      {
        FittingIsKept(t, p, cfg, call);
      }
    }
    if AdmitsOnlyFitting(t, cfg, call, pid) {
      forall s | Sellable(t, s) ensures Outstanding(t, s) + NetSold(t, s) + AvailableToSell(t, s) <= SnapshotHeld(t, s) {
        SellOutFits(t, cfg, call, pid, s);
      }
    }
  }

  lemma SellableIsPositive(t: Tables, s: Symbol)
    requires t.snapshot.Some? && Sellable(t, s)
    ensures AvailableToSell(t, s) > 0.0
  {
  }

  lemma SellOutFits(t: Tables, cfg: Settings, call: Call, pid: string, s: Symbol)
    requires t.snapshot.Some? && !Started(t, pid) && AdmitsOnlyFitting(t, cfg, call, pid) && Sellable(t, s)
    ensures Outstanding(t, s) + NetSold(t, s) + AvailableToSell(t, s) <= SnapshotHeld(t, s)
  {
    hide NewRows, Outstanding, NetSold, SnapshotHeld, ContextOf, LongOnly, Sellable, AvailableToSell;
    SellableIsPositive(t, s);
    var p := SellOut(pid, s, AvailableToSell(t, s));
    SellOutIsAdmitted(t, cfg, call, pid, s);
    SellOutQuantity(pid, s, AvailableToSell(t, s), s);
    var u := WithRows(t, p);
    assert NeverOversold(u);
    AppendedOutstanding(t, u, p, s);
    SameHeld(t, u, s);
    assert Outstanding(u, s) + NetSold(u, s) <= SnapshotHeld(u, s);
  }

  /** Where nothing was sold since the stamp and no reservation is lost in a resolved pick,
      that condition holds. */
  lemma FreshAvailabilityFits(t: Tables)
    requires BooksInv(t) && t.snapshot.Some? && PicksHold(t, None)
    requires forall s | Sellable(t, s) :: NetSold(t, s) <= 0.0
    ensures AvailabilityFits(t)
  {
    hide BooksInv, Outstanding, NetSold, UnresolvedIn;
    forall s | Sellable(t, s) ensures Outstanding(t, s) + NetSold(t, s) + AvailableToSell(t, s) <= SnapshotHeld(t, s) {
      CoversOutstandingHere(t, s);
    }
  }

  lemma CoversOutstandingHere(t: Tables, s: Symbol)
    requires BooksInv(t) && t.snapshot.Some? && PicksHold(t, None) && !Undeterminable(UnresolvedIn(t, None), s)
    ensures Reserved(UnresolvedIn(t, None), s) >= Outstanding(t, s)
  {
    ContextCoversOutstanding(t, None, s);
  }

  // ---- starting an execution ----

  lemma WaitingBecomesOpen(b: Tables, u: Tables, p: Proposal, s: Symbol)
    requires u.proposals == b.proposals && u.reservations == b.reservations && u.orders == b.orders + IntentRows(p)
    requires !Started(b, p.proposalId) && LegsOf(b, p.proposalId) == p.legs && Pristine(b, p.proposalId)
    ensures Outstanding(u, s) == Outstanding(b, s) && NetSold(u, s) == NetSold(b, s)
  {
    var pid := p.proposalId;
    IntentTotals(p, s);
    SumAppend<ExecutionOrder>(b.orders, IntentRows(p), OpenSellIn(s));
    SumAppend<ExecutionOrder>(b.orders, IntentRows(p), IncrementOf(s));
    forall other: string | other != pid ensures Started(u, other) <==> Started(b, other) {
      IntentsElsewhere(b, u, p, other);
    }
    if p.legs == [] {
      SumEq<Reservation>(b.reservations, WaitingSellOf(u, s), WaitingSellOf(b, s));
    } else {
      assert IntentRows(p)[0] in u.orders;
      SumPlus<Reservation>(b.reservations, WaitingSellOf(u, s), ActiveSellFor(pid, s), WaitingSellOf(b, s));
    }
  }

  lemma IntentTotals(p: Proposal, s: Symbol)
    ensures SumBy(IntentRows(p), OpenSellIn(s)) == p.SellQuantity(s)
    ensures SumBy(IntentRows(p), IncrementOf(s)) == 0.0
    ensures SumBy(IntentRows(p), StampedOf(s)) == 0.0
  {
    SumMapped<ExecutionOrder, Leg>(IntentRows(p), p.legs, OpenSellIn(s), SellQuantityOf(s));
    SumZero(IntentRows(p), IncrementOf(s));
    SumZero(IntentRows(p), StampedOf(s));
  }

  lemma IntentsBounded(b: Tables, u: Tables, p: Proposal)
    requires NeverOversold(b) && u.snapshot == b.snapshot
    requires u.proposals == b.proposals && u.reservations == b.reservations && u.orders == b.orders + IntentRows(p)
    requires !Started(b, p.proposalId) && LegsOf(b, p.proposalId) == p.legs && Pristine(b, p.proposalId)
    ensures NeverOversold(u)
  {
    hide Outstanding, NetSold, Pristine, SnapshotHeld;
    if u.snapshot.Some? {
      forall s ensures Outstanding(u, s) + NetSold(u, s) <= SnapshotHeld(u, s) {
        WaitingBecomesOpen(b, u, p, s);
        SameHeld(b, u, s);
        assert Outstanding(b, s) + NetSold(b, s) <= SnapshotHeld(b, s);
      }
    }
  }

  lemma StartedNames(t: Tables, u: Tables, p: Proposal)
    requires NamesInv(t) && t.snapshot.Some? && u.snapshot == t.snapshot && u.proposals == t.proposals
    requires RowOf(t.proposals, p.proposalId).Some? && LegsOf(t, p.proposalId) == p.legs
    requires u.reservations == t.reservations || u.reservations == t.reservations + NewRows(p, |t.reservations|)
    requires u.orders == t.orders || u.orders == t.orders + IntentRows(p)
    ensures NamesInv(u)
  {
    hide NewRows;
    LegsAlike(t, u);
    forall r <- u.reservations ensures Named(u, r) {
      if r in t.reservations {
        assert Named(t, r);
      } else {
        NewRowsNamed(u, p, |t.reservations|, r);
      }
    }
    forall o <- u.orders ensures RowOf(u.proposals, o.proposalId).Some? {
      if o !in t.orders {
        assert o in IntentRows(p);
      }
    }
  }

  /** What `_persist_submission_intents` has established when it writes. */
  ghost predicate StartReady(t: Tables, p: Proposal, cfg: Settings, call: Call) {
    && !Started(t, p.proposalId) && t.snapshot.Some?
    && RowOf(t.proposals, p.proposalId).Some? && LegsOf(t, p.proposalId) == p.legs
    && (HasCapacity(t, p.proposalId) || !Automatic(t, p.proposalId))
    && LongOnly(p, ContextOf(t, cfg, call, Some(p.proposalId)))
  }

  lemma MayStartIsReady(t: Tables, p: Proposal, cfg: Settings, call: Call)
    requires MayStart(t, p, cfg, call)
    ensures StartReady(t, p, cfg, call)
  {
    hide DecisionOf, ContextOf, LongOnly;
    PassesLongOnly(p, ContextOf(t, cfg, call, Some(p.proposalId)));
  }

  lemma StartNames(t: Tables, p: Proposal, cfg: Settings, call: Call)
    requires NamesInv(t) && StartReady(t, p, cfg, call)
    ensures NamesInv(WriteIntents(t, p, call.now))
  {
    hide NamesInv, NewRows, ContextOf, LongOnly, HasCapacity, Automatic;
    var u := WriteIntents(t, p, call.now);
    if FreshIds(LegIds(p.legs), OrderIds(t.orders)) {
      StartedNames(t, u, p);
    }
  }

  /** Starting sells safely, or reserves nothing new. */
  ghost predicate StartsSafely(t: Tables, p: Proposal) {
    HasCapacity(t, p.proposalId) || SellsSafely(t, p, Some(p.proposalId))
  }

  lemma StartBounded(t: Tables, p: Proposal, cfg: Settings, call: Call)
    requires LedgerInv(t) && StartReady(t, p, cfg, call) && StartsSafely(t, p)
    ensures NeverOversold(WriteIntents(t, p, call.now))
  {
    hide CapacityInv, NamesInv, NeverOversold, NewRows, ContextOf, PicksHold, SalesStamped, LongOnly, Pristine;
    var u := WriteIntents(t, p, call.now);
    if FreshIds(LegIds(p.legs), OrderIds(t.orders)) {
      var b := if HasCapacity(t, p.proposalId) then t else PersistReservations(t, p, call.now);
      BackedByCapacity(t, b, p, call.now);
      if !HasCapacity(t, p.proposalId) {
        NotAutomaticIsIdle(t, p.proposalId);
        AdmittedBounded(t, b, p, cfg, call, Some(p.proposalId));
      }
      assert u.orders == b.orders + IntentRows(p) && u.reservations == b.reservations;
      IntentsBounded(b, u, p);
    }
  }

  lemma NotAutomaticIsIdle(t: Tables, pid: string)
    requires CapacityInv(t) && !Started(t, pid) && !Automatic(t, pid)
    ensures Idle(t, pid)
  {
    assert Waiting(t, pid);
  }

  /** Starting an execution keeps the books on any tables. */
  lemma StartKeepsBooks(t: Tables, p: Proposal, cfg: Settings, call: Call)
    requires BooksInv(t)
    ensures BooksInv(PersistIntents(t, p, cfg, call))
  {
    hide CapacityInv, NamesInv, MayStart, WriteIntents;
    if MayStart(t, p, cfg, call) {
      MayStartIsReady(t, p, cfg, call);
      StartNames(t, p, cfg, call);
      WriteIntentsKeeps(t, p, call.now);
    }
  }

  /** It keeps the long-only bound where it starts safely. */
  lemma StartStepKeeps(t: Tables, p: Proposal, cfg: Settings, call: Call)
    requires LedgerInv(t) && StartsSafely(t, p)
    ensures LedgerInv(PersistIntents(t, p, cfg, call))
  {
    hide BooksInv, NeverOversold, MayStart, WriteIntents, StartsSafely;
    StartKeepsBooks(t, p, cfg, call);
    if MayStart(t, p, cfg, call) {
      MayStartIsReady(t, p, cfg, call);
      StartBounded(t, p, cfg, call);
    }
  }

  // ---- order transactions keep the names ----

  predicate Traced(a: Reservation, b: Reservation) {
    b.active ==> a.active && b.kind == a.kind && b.symbol == a.symbol && b.clientOrderId == a.clientOrderId
                 && b.proposalId == a.proposalId
  }

  /** The frame of an order transaction, as far as names go. */
  predicate OrderFrame(t: Tables, u: Tables) {
    && u.proposals == t.proposals && u.snapshot == t.snapshot && u.history == t.history
    && |u.reservations| == |t.reservations|
    && (forall i | 0 <= i < |t.reservations| :: Traced(t.reservations[i], u.reservations[i]))
    && |u.orders| == |t.orders|
    && (forall i | 0 <= i < |t.orders| ::
          && u.orders[i].proposalId == t.orders[i].proposalId && u.orders[i].symbol == t.orders[i].symbol
          && u.orders[i].side == t.orders[i].side && u.orders[i].reconciledFilled == t.orders[i].reconciledFilled)
  }

  lemma FrameNames(t: Tables, u: Tables)
    requires NamesInv(t) && OrderFrame(t, u)
    ensures NamesInv(u)
  {
    LegsAlike(t, u);
    forall r <- u.reservations ensures Named(u, r) {
      var i :| 0 <= i < |u.reservations| && u.reservations[i] == r;
      assert Traced(t.reservations[i], r) && Named(t, t.reservations[i]);
      if r.active && r.kind.SellQuantity? {
        var l :| l in LegsOf(t, r.proposalId) && NamedBy(t.reservations[i], l);
        assert NamedBy(r, l);
      }
    }
    forall o <- u.orders ensures RowOf(u.proposals, o.proposalId).Some? {
      var i :| 0 <= i < |u.orders| && u.orders[i] == o;
      assert t.orders[i] in t.orders;
    }
  }

  lemma SyncFrame(t: Tables, pid: string)
    ensures OrderFrame(t, SyncProposal(t, pid))
  {
    hide Adjusted;
    forall i | 0 <= i < |t.reservations| ensures Traced(t.reservations[i], SyncProposal(t, pid).reservations[i]) {
      AdjustedRow(t, pid, t.reservations[i]);
    }
  }

  lemma FramesCompose(t: Tables, u: Tables, v: Tables)
    requires OrderFrame(t, u) && OrderFrame(u, v)
    ensures OrderFrame(t, v)
  {
    forall i | 0 <= i < |t.reservations| ensures Traced(t.reservations[i], v.reservations[i]) {
      assert Traced(t.reservations[i], u.reservations[i]) && Traced(u.reservations[i], v.reservations[i]);
    }
  }

  lemma ReportFrame(t: Tables, id: OrderId, channel: Channel, report: Report, now: Instant, cal: TradingCalendar)
    ensures OrderFrame(t, ApplyReport(t, id, channel, report, now, cal))
  {
    hide SyncProposal;
    var i := IndexOf(t.orders, id);
    if i.Some? {
      var recorded := RecordReport(t, i.value, channel, report, now, cal);
      if recorded.Ok? {
        RecordFrame(t, i.value, channel, report, now, cal);
        SyncFrame(recorded.value, t.orders[i.value].proposalId);
        FramesCompose(t, recorded.value, SyncProposal(recorded.value, t.orders[i.value].proposalId));
      }
    }
  }

  lemma RecordFrame(t: Tables, i: nat, channel: Channel, report: Report, now: Instant, cal: TradingCalendar)
    requires i < |t.orders| && RecordReport(t, i, channel, report, now, cal).Ok?
    ensures OrderFrame(t, RecordReport(t, i, channel, report, now, cal).value)
  {
  }

  lemma PutFrame(t: Tables, u: Tables, i: nat, o: ExecutionOrder)
    requires i < |t.orders| && u.orders == t.orders[i := o] && u.reservations == t.reservations
    requires u.proposals == t.proposals && u.snapshot == t.snapshot && u.history == t.history
    requires o.proposalId == t.orders[i].proposalId && o.symbol == t.orders[i].symbol && o.side == t.orders[i].side
    requires o.reconciledFilled == t.orders[i].reconciledFilled
    ensures OrderFrame(t, u)
  {
  }

  lemma TrackFrame(t: Tables, id: OrderId)
    ensures OrderFrame(t, LoseTrack(t, id)) && OrderFrame(t, RequestCancel(t, id))
  {
    SameFrame(t);
    var i := IndexOf(t.orders, id);
    hide OrderFrame;
    if i.Some? {
      var o := t.orders[i.value];
      var lost: ExecutionOrder := o.(state := ExecutionState.Unknown);
      if MayBecome(o.state, ExecutionState.Unknown) {
        PutFrame(t, LoseTrack(t, id), i.value, lost);
      }
      var pending: ExecutionOrder := o.(state := ExecutionState.CancelPending);
      if RequestCancel(t, id) != t {
        PutFrame(t, RequestCancel(t, id), i.value, pending);
      }
    }
  }

  lemma SameFrame(t: Tables)
    ensures OrderFrame(t, t)
  {
  }

  lemma NotSentFrame(t: Tables, id: OrderId)
    ensures OrderFrame(t, MarkNotSubmitted(t, id))
  {
    hide SyncProposal;
    var i := IndexOf(t.orders, id);
    if i.Some? && NeverSent(t.orders[i.value]) {
      var o: ExecutionOrder := t.orders[i.value].(state := ExecutionState.NotSubmitted);
      var u := t.(orders := t.orders[i.value := o]);
      assert OrderFrame(t, u);
      SyncFrame(u, o.proposalId);
      FramesCompose(t, u, SyncProposal(u, o.proposalId));
    }
  }

  lemma AbortFrame(t: Tables, pid: string, attempted: set<OrderId>)
    ensures OrderFrame(t, AbortUnsent(t, pid, attempted))
  {
    hide SyncProposal;
    var u := t.(orders := AbortedOrders(t.orders, pid, attempted));
    assert OrderFrame(t, u);
    SyncFrame(u, pid);
    FramesCompose(t, u, SyncProposal(u, pid));
  }

  // ---- any transaction on existing orders ----

  /** A transaction on existing orders. */
  datatype OrderStep =
    | TakeReport(id: OrderId, channel: Channel, report: Report, now: Instant)
    | LoseOrder(id: OrderId)
    | Cancel(id: OrderId)
    | NotSent(id: OrderId)
    | Abort(proposalId: string, attempted: set<OrderId>)

  function ApplyOrder(t: Tables, cal: TradingCalendar, step: OrderStep): Tables {
    match step
    case TakeReport(id, channel, report, now) => ApplyReport(t, id, channel, report, now, cal)
    case LoseOrder(id) => LoseTrack(t, id)
    case Cancel(id) => RequestCancel(t, id)
    case NotSent(id) => MarkNotSubmitted(t, id)
    case Abort(pid, attempted) => AbortUnsent(t, pid, attempted)
  }

  /** No accepted report lowers a fill. */
  predicate NoFallingFill(t: Tables, step: OrderStep) {
    step.TakeReport? ==>
      forall i | 0 <= i < |t.orders| && t.orders[i].id == step.id :: NeverFalls(step.channel, t.orders[i], step.report)
  }

  /** No accepted report raises the fill of a sell that is over. */
  predicate NoLateSale(t: Tables, step: OrderStep) {
    step.TakeReport? ==>
      forall i | 0 <= i < |t.orders| && t.orders[i].id == step.id :: SaleIsFinal(step.channel, t.orders[i], step.report)
  }

  /** A larger fill is worth no less, and the same fill is worth the same. */
  predicate KeepsValue(channel: Channel, current: ExecutionOrder, report: Report) {
    var value := ReportedValue(channel, current, report);
    if FilledBy(channel, current, report) > current.filled then value >= FilledProceeds(current)
    else value == FilledProceeds(current)
  }

  /** No accepted report on a sell corrects the value of what had filled. */
  predicate SteadyReport(t: Tables, step: OrderStep) {
    step.TakeReport? ==>
      forall i | 0 <= i < |t.orders| && t.orders[i].id == step.id && t.orders[i].side.Sell?
                 && Reported(step.channel, t.orders[i], step.report).Ok? ::
        KeepsValue(step.channel, t.orders[i], step.report)
  }

  /** A report that raises the fill, or puts no more value on it than has been settled. */
  predicate CoversValue(channel: Channel, current: ExecutionOrder, report: Report) {
    FilledBy(channel, current, report) > current.filled || ReportedValue(channel, current, report) <= current.settledProceeds
  }

  predicate CoveringReport(t: Tables, step: OrderStep) {
    step.TakeReport? ==>
      forall i | 0 <= i < |t.orders| && t.orders[i].id == step.id && t.orders[i].side.Sell?
                 && Reported(step.channel, t.orders[i], step.report).Ok? ::
        CoversValue(step.channel, t.orders[i], step.report)
  }

  lemma StepFrame(t: Tables, cal: TradingCalendar, step: OrderStep)
    ensures OrderFrame(t, ApplyOrder(t, cal, step))
  {
    hide OrderFrame, ApplyReport, LoseTrack, RequestCancel, MarkNotSubmitted, AbortUnsent;
    match step
    case TakeReport(id, channel, report, now) => ReportFrame(t, id, channel, report, now, cal);
    case LoseOrder(id) => TrackFrame(t, id);
    case Cancel(id) => TrackFrame(t, id);
    case NotSent(id) => NotSentFrame(t, id);
    case Abort(pid, attempted) => AbortFrame(t, pid, attempted);
  }

  lemma OrderStepKeeps(t: Tables, cal: TradingCalendar, step: OrderStep)
    requires BooksInv(t) && NoFallingFill(t, step)
    ensures BooksInv(ApplyOrder(t, cal, step))
    ensures NeverOversold(t) && NoLateSale(t, step) ==> NeverOversold(ApplyOrder(t, cal, step))
  {
    hide CapacityInv, NamesInv, NeverOversold, OrderFrame, ApplyReport, LoseTrack, RequestCancel, MarkNotSubmitted, AbortUnsent;
    StepFrame(t, cal, step);
    FrameNames(t, ApplyOrder(t, cal, step));
    match step
    case TakeReport(id, channel, report, now) =>
      ApplyReportKeeps(t, id, channel, report, now, cal);
      if NeverOversold(t) && NoLateSale(t, step) {
        ReportBounded(t, id, channel, report, now, cal);
      }
    case LoseOrder(id) =>
      LoseTrackKeeps(t, id);
      if NeverOversold(t) {
        LoseTrackBounded(t, id);
      }
    case Cancel(id) =>
      RequestCancelKeeps(t, id);
      if NeverOversold(t) {
        RequestCancelBounded(t, id);
      }
    case NotSent(id) =>
      MarkNotSubmittedKeeps(t, id);
      if NeverOversold(t) {
        NotSubmittedBounded(t, id);
      }
    case Abort(pid, attempted) =>
      AbortUnsentKeeps(t, pid, attempted);
      if NeverOversold(t) {
        AbortBounded(t, pid, attempted);
      }
  }

  // ---- uncertainty freezes capacity ----

  /** Rows of a proposal are exactly as they were; new rows may follow. */
  predicate RowsFrozen(t: Tables, u: Tables, pid: string) {
    && |t.reservations| <= |u.reservations|
    && forall i | 0 <= i < |t.reservations| && t.reservations[i].proposalId == pid :: u.reservations[i] == t.reservations[i]
  }

  lemma SyncFreezes(t: Tables, owner: string, pid: string)
    requires Uncertain(SyncProposal(t, owner), pid)
    ensures RowsFrozen(t, SyncProposal(t, owner), pid)
  {
    hide Adjusted;
    SyncKeepsTables(t, owner);
    if owner != pid {
      forall i | 0 <= i < |t.reservations| && t.reservations[i].proposalId == pid
        ensures SyncProposal(t, owner).reservations[i] == t.reservations[i]
      {
        AdjustedRow(t, owner, t.reservations[i]);
      }
    }
  }

  lemma OrderStepFreezes(t: Tables, cal: TradingCalendar, step: OrderStep, pid: string)
    requires Uncertain(ApplyOrder(t, cal, step), pid)
    ensures RowsFrozen(t, ApplyOrder(t, cal, step), pid)
  {
    hide SyncProposal;
    match step
    case TakeReport(id, channel, report, now) =>
      var i := IndexOf(t.orders, id);
      if i.Some? {
        var recorded := RecordReport(t, i.value, channel, report, now, cal);
        if recorded.Ok? {
          SyncFreezes(recorded.value, t.orders[i.value].proposalId, pid);
        }
      }
    case LoseOrder(id) =>
    case Cancel(id) =>
    case NotSent(id) =>
      var i := IndexOf(t.orders, id);
      if i.Some? && NeverSent(t.orders[i.value]) {
        var o: ExecutionOrder := t.orders[i.value].(state := ExecutionState.NotSubmitted);
        SyncFreezes(t.(orders := t.orders[i.value := o]), o.proposalId, pid);
      }
    case Abort(owner, attempted) =>
      if exists o <- t.orders :: Aborts(o, owner, attempted) {
        SyncFreezes(t.(orders := AbortedOrders(t.orders, owner, attempted)), owner, pid);
      }
  }
}
