/** Capacity accounting as an invariant of every run of the execution transactions. */
module Capacity {
  import opened Calendar
  import opened Domain
  import opened Execution
  import opened Money
  import opened Records
  import opened Results
  import opened States
  import opened Sums
  import opened Sync
  import opened Tables

  // ---- the invariant ----

  /** No active row of the proposal. */
  predicate Idle(t: Tables, pid: string) {
    forall r <- t.reservations :: !(r.active && r.proposalId == pid)
  }

  predicate RowBacked(t: Tables, pid: string, r: Reservation) {
    match r.kind
    case SellQuantity => r.symbol.Some? && SellTracked(t, pid, r.symbol.value)
    case CashDeployment => true
    case OrderIdentity => r.clientOrderId.Some? && Executed(t.orders, pid, r.clientOrderId.value)
  }

  /** Every active row belongs to an order, and every leg has one. */
  predicate Backed(t: Tables, pid: string) {
    && (forall r <- t.reservations | r.active && r.proposalId == pid :: RowBacked(t, pid, r))
    && (forall l <- LegsOf(t, pid) :: Executed(t.orders, pid, l.clientOrderId))
  }

  /** Active capacity covers what the proposal may still trade. */
  ghost predicate Covered(t: Tables, pid: string) {
    && (forall s :: ReservedSell(t, pid, s) >= SellRemaining(t, pid, s))
    && ReservedCash(t, pid) >= CashRemaining(t, pid)
  }

  ghost predicate Exact(t: Tables, pid: string) {
    && (forall s :: ReservedSell(t, pid, s) == SellRemaining(t, pid, s))
    && ReservedCash(t, pid) == CashRemaining(t, pid)
  }

  /** Capacity of a proposal whose orders exist: covered always, exact when no order is in
      doubt, and gone when every order is terminal. */
  ghost predicate Accounted(t: Tables, pid: string) {
    && Backed(t, pid) && Covered(t, pid)
    && (!Uncertain(t, pid) ==> Exact(t, pid))
    && (AllTerminal(t, pid) ==> Idle(t, pid))
  }

  predicate LegBacked(legs: seq<Leg>, r: Reservation) {
    match r.kind
    case SellQuantity => r.symbol.Some? && exists l <- legs :: l.side.Sell? && l.symbol == r.symbol.value
    case CashDeployment => true
    case OrderIdentity => r.clientOrderId.Some? && exists l <- legs :: l.clientOrderId == r.clientOrderId.value
  }

  /** Reserved for the whole proposal, no more and no less. */
  ghost predicate Pristine(t: Tables, pid: string) {
    && (forall r <- t.reservations | r.active && r.proposalId == pid :: LegBacked(LegsOf(t, pid), r))
    && (forall s :: ReservedSell(t, pid, s) == SumBy(LegsOf(t, pid), SellQuantityOf(s)))
    && ReservedCash(t, pid) == SumBy(LegsOf(t, pid), BuyNotionalOf())
  }

  predicate Automatic(t: Tables, pid: string) {
    var row := RowOf(t.proposals, pid);
    row.Some? && row.value.authority.Auto?
  }

  /** Before its orders exist a proposal has the capacity of all its legs, or none. */
  ghost predicate Waiting(t: Tables, pid: string) {
    Idle(t, pid) || (Automatic(t, pid) && Pristine(t, pid))
  }

  ghost predicate CapacityInv(t: Tables) {
    && UniqueActive(t.reservations) && DistinctOrders(t.orders)
    && (forall pid | Started(t, pid) :: Accounted(t, pid))
    && (forall pid | !Started(t, pid) :: Waiting(t, pid))
  }

  // ---- progress of order rows ----

  /** The same order, whatever happened to it. */
  predicate Continues(before: ExecutionOrder, after: ExecutionOrder) {
    && after.id == before.id && after.proposalId == before.proposalId && after.legIndex == before.legIndex
    && after.symbol == before.symbol && after.side == before.side
    && after.quantity == before.quantity && after.referencePrice == before.referencePrice
  }

  /** The same order, with no more left to trade. */
  predicate Progress(before: ExecutionOrder, after: ExecutionOrder) {
    Continues(before, after) && Open(after) <= Open(before)
  }

  /** Orders of one proposal change, all other orders stay. */
  predicate OrdersContinue(before: seq<ExecutionOrder>, after: seq<ExecutionOrder>, pid: string) {
    && |before| == |after|
    && forall i | 0 <= i < |before| ::
         Continues(before[i], after[i]) && (before[i].proposalId != pid ==> Same(before[i], after[i]))
  }

  /** Orders of one proposal make progress, all other orders stay. */
  predicate OrdersProgress(before: seq<ExecutionOrder>, after: seq<ExecutionOrder>, pid: string) {
    && |before| == |after|
    && forall i | 0 <= i < |before| ::
         Progress(before[i], after[i]) && (before[i].proposalId != pid ==> Same(before[i], after[i]))
  }

  /** Equal in everything that capacity depends on. */
  predicate Same(a: ExecutionOrder, b: ExecutionOrder) {
    a.id == b.id && a.proposalId == b.proposalId && a.state == b.state && Open(a) == Open(b)
  }

  /** One transaction's effect on the order rows, seen from the tables. */
  predicate Rewrites(t: Tables, u: Tables, pid: string) {
    && u.proposals == t.proposals && u.reservations == t.reservations
    && OrdersContinue(t.orders, u.orders, pid)
  }

  /** One that makes progress. */
  predicate OnlyOrders(t: Tables, u: Tables, pid: string) {
    && u.proposals == t.proposals && u.reservations == t.reservations
    && OrdersProgress(t.orders, u.orders, pid)
  }

  lemma SameOrders(t: Tables, u: Tables, pid: string, other: string)
    requires Rewrites(t, u, pid)
    ensures forall id :: Executed(u.orders, other, id) <==> Executed(t.orders, other, id)
    ensures Started(u, other) <==> Started(t, other)
    ensures DistinctOrders(t.orders) ==> DistinctOrders(u.orders)
  {
    forall id: OrderId ensures Executed(u.orders, other, id) <==> Executed(t.orders, other, id) {
      if Executed(u.orders, other, id) {
        var i :| 0 <= i < |u.orders| && u.orders[i].proposalId == other && u.orders[i].id == id;
        assert t.orders[i] in t.orders;
      }
      if Executed(t.orders, other, id) {
        var i :| 0 <= i < |t.orders| && t.orders[i].proposalId == other && t.orders[i].id == id;
        assert u.orders[i] in u.orders;
      }
    }
    if o :| o in u.orders && o.proposalId == other {
      assert Executed(u.orders, other, o.id);
    }
    if o :| o in t.orders && o.proposalId == other {
      assert Executed(t.orders, other, o.id);
    }
  }

  lemma SameTracked(t: Tables, u: Tables, pid: string, other: string, s: Symbol)
    requires Rewrites(t, u, pid)
    ensures SellTracked(u, other, s) <==> SellTracked(t, other, s)
  {
    SameOrders(t, u, pid, other);
    if o :| o in t.orders && o.proposalId == other && o.side.Sell? && o.symbol == s {
      var i :| 0 <= i < |t.orders| && t.orders[i] == o;
      assert u.orders[i] in u.orders;
    }
    if o :| o in u.orders && o.proposalId == other && o.side.Sell? && o.symbol == s {
      var i :| 0 <= i < |u.orders| && u.orders[i] == o;
      assert t.orders[i] in t.orders;
    }
  }

  lemma BudgetShrinks(a: ExecutionOrder, b: ExecutionOrder, pid: string)
    requires Progress(a, b)
    ensures OpenBuyOf(pid)(b) <= OpenBuyOf(pid)(a)
  {
    BudgetMonotone(Open(b), Open(a), a.referencePrice);
  }

  /** Nothing that a proposal may still trade grows. */
  lemma RemainingShrinks(t: Tables, u: Tables, pid: string, other: string, s: Symbol)
    requires OnlyOrders(t, u, pid)
    ensures SellRemaining(u, other, s) <= SellRemaining(t, other, s)
    ensures CashRemaining(u, other) <= CashRemaining(t, other)
  {
    SameOrders(t, u, pid, other);
    SumZipLe(u.orders, t.orders, OpenSellOf(other, s));
    forall i | 0 <= i < |t.orders| ensures OpenBuyOf(other)(u.orders[i]) <= OpenBuyOf(other)(t.orders[i]) {
      BudgetShrinks(t.orders[i], u.orders[i], other);
    }
    SumZipLe(u.orders, t.orders, OpenBuyOf(other));
    SumEq(LegsOf(t, other), UnsentSellOf(u.orders, other, s), UnsentSellOf(t.orders, other, s));
    SumEq(LegsOf(t, other), UnsentBuyOf(u.orders, other), UnsentBuyOf(t.orders, other));
  }

  lemma OtherRemainingStays(t: Tables, u: Tables, pid: string, other: string, s: Symbol)
    requires Rewrites(t, u, pid) && other != pid
    ensures SellRemaining(u, other, s) == SellRemaining(t, other, s)
    ensures CashRemaining(u, other) == CashRemaining(t, other)
  {
    SameOrders(t, u, pid, other);
    SumZipEq(u.orders, t.orders, OpenSellOf(other, s));
    SumZipEq(u.orders, t.orders, OpenBuyOf(other));
    SumEq(LegsOf(t, other), UnsentSellOf(u.orders, other, s), UnsentSellOf(t.orders, other, s));
    SumEq(LegsOf(t, other), UnsentBuyOf(u.orders, other), UnsentBuyOf(t.orders, other));
  }

  lemma BackedStays(t: Tables, u: Tables, pid: string, other: string)
    requires Rewrites(t, u, pid) && Backed(t, other)
    ensures Backed(u, other)
  {
    SameOrders(t, u, pid, other);
    forall r <- u.reservations | r.active && r.proposalId == other ensures RowBacked(u, other, r) {
      assert RowBacked(t, other, r);
      if r.symbol.Some? {
        SameTracked(t, u, pid, other, r.symbol.value);
      }
    }
  }

  lemma CoveredStays(t: Tables, u: Tables, pid: string, other: string)
    requires OnlyOrders(t, u, pid) && Covered(t, other)
    ensures Covered(u, other)
  {
    hide SellRemaining, CashRemaining;
    forall s ensures ReservedSell(u, other, s) >= SellRemaining(u, other, s) {
      RemainingShrinks(t, u, pid, other, s);
    }
    RemainingShrinks(t, u, pid, other, "");
  }

  lemma StatesCarryOver(a: seq<ExecutionOrder>, b: seq<ExecutionOrder>, pid: string)
    requires |a| == |b| && forall i | 0 <= i < |a| :: a[i].proposalId == pid ==> Same(a[i], b[i])
    ensures (exists o <- a :: o.proposalId == pid && o.state.IsUncertain())
        ==> exists o <- b :: o.proposalId == pid && o.state.IsUncertain()
    ensures (exists o <- a :: o.proposalId == pid && !o.state.IsTerminal())
        ==> exists o <- b :: o.proposalId == pid && !o.state.IsTerminal()
  {
    if o :| o in a && o.proposalId == pid && o.state.IsUncertain() {
      var i :| 0 <= i < |a| && a[i] == o;
      assert b[i] in b && b[i].state.IsUncertain();
    }
    if o :| o in a && o.proposalId == pid && !o.state.IsTerminal() {
      var i :| 0 <= i < |a| && a[i] == o;
      assert b[i] in b && !b[i].state.IsTerminal();
    }
  }

  lemma OtherStatesStay(t: Tables, u: Tables, pid: string, other: string)
    requires Rewrites(t, u, pid) && other != pid
    ensures Uncertain(u, other) <==> Uncertain(t, other)
    ensures AllTerminal(u, other) <==> AllTerminal(t, other)
  {
    forall i | 0 <= i < |t.orders|
      ensures t.orders[i].proposalId == other ==> Same(t.orders[i], u.orders[i])
      ensures u.orders[i].proposalId == other ==> Same(u.orders[i], t.orders[i])
    {
      assert Continues(t.orders[i], u.orders[i]);
    }
    StatesCarryOver(t.orders, u.orders, other);
    StatesCarryOver(u.orders, t.orders, other);
  }

  lemma OtherAccountedStays(t: Tables, u: Tables, pid: string, other: string)
    requires Rewrites(t, u, pid) && other != pid && Accounted(t, other)
    ensures Accounted(u, other)
  {
    hide SellRemaining, CashRemaining, Uncertain, AllTerminal, Backed;
    BackedStays(t, u, pid, other);
    OtherStatesStay(t, u, pid, other);
    forall s ensures SellRemaining(u, other, s) == SellRemaining(t, other, s) {
      OtherRemainingStays(t, u, pid, other, s);
    }
    OtherRemainingStays(t, u, pid, other, "");
  }

  // ---- a sync after progress restores the invariant ----

  lemma AdjustedRow(t: Tables, pid: string, r: Reservation)
    ensures var a := Adjusted(t, pid, r);
            && a.proposalId == r.proposalId && a.kind == r.kind && a.symbol == r.symbol
            && a.clientOrderId == r.clientOrderId && (a.active ==> r.active)
            && (r.proposalId != pid ==> a == r)
  {
  }

  lemma SyncOrigin(t: Tables, pid: string, r: Reservation) returns (q: Reservation)
    requires r in AdjustedRows(t, pid)
    ensures q in t.reservations && r == Adjusted(t, pid, q)
  {
    var i :| 0 <= i < |t.reservations| && AdjustedRows(t, pid)[i] == r;
    q := t.reservations[i];
  }

  lemma SyncKeepsBacked(t: Tables, pid: string, other: string)
    requires Backed(t, other)
    ensures Backed(SyncProposal(t, pid), other)
  {
    hide Adjusted;
    var u := SyncProposal(t, pid);
    if u.reservations == AdjustedRows(t, pid) {
      forall r <- u.reservations | r.active && r.proposalId == other ensures RowBacked(u, other, r) {
        var q := SyncOrigin(t, pid, r);
        AdjustedRow(t, pid, q);
        assert RowBacked(t, other, q);
      }
    }
  }

  lemma TerminalLeavesNothing(t: Tables, pid: string, s: Symbol)
    requires AllTerminal(t, pid) && Backed(t, pid)
    ensures SellRemaining(t, pid, s) == 0.0 && CashRemaining(t, pid) == 0.0
  {
    SumZero(t.orders, OpenSellOf(pid, s));
    SumZero(LegsOf(t, pid), UnsentSellOf(t.orders, pid, s));
    forall o <- t.orders ensures OpenBuyOf(pid)(o) == 0.0 {
      BudgetOfNothing(o.referencePrice);
    }
    SumZero(t.orders, OpenBuyOf(pid));
    SumZero(LegsOf(t, pid), UnsentBuyOf(t.orders, pid));
  }

  lemma TerminalRowReleased(t: Tables, pid: string, r: Reservation)
    requires AllTerminal(t, pid) && r.active && r.proposalId == pid && RowBacked(t, pid, r)
    requires r.symbol.Some? ==> SellRemaining(t, pid, r.symbol.value) == 0.0
    requires CashRemaining(t, pid) == 0.0
    ensures !Adjusted(t, pid, r).active
  {
    hide SellRemaining, CashRemaining, SellTracked;
  }

  /** Once every order of a proposal is terminal, a sync releases all its rows. */
  lemma SyncReleasesTerminal(t: Tables, pid: string)
    requires Backed(t, pid) && AllTerminal(t, pid) && Started(t, pid) && !Uncertain(t, pid)
    ensures Idle(SyncProposal(t, pid), pid)
  {
    hide Adjusted, SellRemaining, CashRemaining;
    forall r <- AdjustedRows(t, pid) ensures !(r.active && r.proposalId == pid) {
      var q := SyncOrigin(t, pid, r);
      AdjustedRow(t, pid, q);
      if q.active && q.proposalId == pid {
        TerminalLeavesNothing(t, pid, if q.symbol.Some? then q.symbol.value else "");
        TerminalRowReleased(t, pid, q);
      }
    }
  }

  lemma UntrackedReservesNothing(t: Tables, pid: string, s: Symbol)
    requires Backed(t, pid) && !SellTracked(t, pid, s)
    ensures ReservedSell(t, pid, s) == 0.0
  {
    hide SellTracked;
    forall r <- t.reservations ensures !IsSellRow(r, pid, s) {
      assert IsSellRow(r, pid, s) ==> !RowBacked(t, pid, r);
    }
    NoSellRow(t.reservations, pid, s);
  }

  /** What a sync needs of a proposal: rows to resize, or, while an order is in doubt and
      nothing may be resized, capacity that covers. */
  ghost predicate Coverable(t: Tables, pid: string) {
    if Uncertain(t, pid) then Covered(t, pid)
    else
      && (forall s :: HasSellRow(t.reservations, pid, s) || SellRemaining(t, pid, s) == 0.0)
      && (HasCashRow(t.reservations, pid) || CashRemaining(t, pid) == 0.0)
  }

  lemma CoveredIsCoverable(t: Tables, pid: string)
    requires Covered(t, pid)
    ensures Coverable(t, pid)
  {
    hide SellRemaining, CashRemaining;
    forall s ensures HasSellRow(t.reservations, pid, s) || SellRemaining(t, pid, s) == 0.0 {
      RemainingNonNegative(t, pid, s);
      if !HasSellRow(t.reservations, pid, s) {
        NoSellRow(t.reservations, pid, s);
      }
    }
    RemainingNonNegative(t, pid, "");
    if !HasCashRow(t.reservations, pid) {
      NoCashRow(t.reservations, pid);
    }
  }

  lemma SyncMakesExact(t: Tables, pid: string)
    requires UniqueActive(t.reservations) && Started(t, pid) && !Uncertain(t, pid) && Backed(t, pid)
    ensures Exact(SyncProposal(t, pid), pid) <==> Coverable(t, pid)
  {
    hide SellRemaining, CashRemaining, SellTracked, Adjusted, HasSellRow, HasCashRow;
    var u := SyncProposal(t, pid);
    SyncKeepsBacked(t, pid, pid);
    forall s
      ensures ReservedSell(u, pid, s) == SellRemaining(u, pid, s)
              <==> HasSellRow(t.reservations, pid, s) || SellRemaining(t, pid, s) == 0.0
    {
      SyncedRemaining(t, pid, s);
      if SellTracked(t, pid, s) {
        SyncMakesSellExact(t, pid, s);
      } else {
        UntrackedSellsNothing(t, pid, s);
        UntrackedReservesNothing(u, pid, s);
      }
    }
    SyncedRemaining(t, pid, "");
    SyncMakesCashExact(t, pid);
  }

  /** A sync writes reservations only. */
  lemma SyncedRemaining(t: Tables, pid: string, s: Symbol)
    ensures SellRemaining(SyncProposal(t, pid), pid, s) == SellRemaining(t, pid, s)
    ensures CashRemaining(SyncProposal(t, pid), pid) == CashRemaining(t, pid)
    ensures SellTracked(SyncProposal(t, pid), pid, s) == SellTracked(t, pid, s)
  {
    assert SyncProposal(t, pid).orders == t.orders && SyncProposal(t, pid).proposals == t.proposals;
  }

  lemma SyncOtherAccounted(t: Tables, pid: string, other: string)
    requires other != pid && Accounted(t, other)
    ensures Accounted(SyncProposal(t, pid), other)
  {
    hide SellRemaining, CashRemaining, SellTracked, Adjusted, Backed;
    var u := SyncProposal(t, pid);
    SyncKeepsBacked(t, pid, other);
    forall s
      ensures ReservedSell(u, other, s) == ReservedSell(t, other, s)
      ensures SellRemaining(u, other, s) == SellRemaining(t, other, s)
    {
      SyncIsLocal(t, pid, other, s);
      SyncedOtherRemaining(t, pid, other, s);
    }
    SyncIsLocal(t, pid, other, "");
    SyncedOtherRemaining(t, pid, other, "");
    if AllTerminal(u, other) {
      OtherStaysIdle(t, pid, other);
    }
  }

  lemma SyncedOtherRemaining(t: Tables, pid: string, other: string, s: Symbol)
    ensures SellRemaining(SyncProposal(t, pid), other, s) == SellRemaining(t, other, s)
    ensures CashRemaining(SyncProposal(t, pid), other) == CashRemaining(t, other)
  {
    assert SyncProposal(t, pid).orders == t.orders && SyncProposal(t, pid).proposals == t.proposals;
  }

  lemma OtherStaysIdle(t: Tables, pid: string, other: string)
    requires Idle(t, other)
    ensures Idle(SyncProposal(t, pid), other)
  {
    hide Adjusted;
    var u := SyncProposal(t, pid);
    forall r <- u.reservations ensures !(r.active && r.proposalId == other) {
      if u.reservations == AdjustedRows(t, pid) {
        var q := SyncOrigin(t, pid, r);
        AdjustedRow(t, pid, q);
      }
    }
  }

  lemma SyncedAccounted(t: Tables, pid: string)
    requires UniqueActive(t.reservations) && Started(t, pid) && Backed(t, pid)
    ensures Accounted(SyncProposal(t, pid), pid) <==> Coverable(t, pid)
  {
    hide SellRemaining, CashRemaining, SellTracked, Adjusted, Backed;
    if Uncertain(t, pid) {
      DoubtIsNotOver(t, pid);
    } else {
      SyncMakesExact(t, pid);
      SyncKeepsBacked(t, pid, pid);
      if AllTerminal(t, pid) {
        SyncReleasesTerminal(t, pid);
      }
    }
  }

  lemma DoubtIsNotOver(t: Tables, pid: string)
    requires Uncertain(t, pid)
    ensures !AllTerminal(t, pid)
  {
  }

  /** Whatever happens to the orders of one proposal, its sync leaves the others accounted. */
  lemma OthersStay(t: Tables, u: Tables, pid: string)
    requires CapacityInv(t) && Rewrites(t, u, pid)
    ensures var v := SyncProposal(u, pid);
            && UniqueActive(v.reservations) && DistinctOrders(v.orders) && (Started(v, pid) <==> Started(t, pid))
            && (forall other | Started(v, other) && other != pid :: Accounted(v, other))
            && (forall other | !Started(v, other) :: Waiting(v, other))
  {
    hide Accounted, SyncProposal, Waiting;
    var v := SyncProposal(u, pid);
    SameOrders(t, u, pid, pid);
    SyncKeepsTables(u, pid);
    SyncKeepsUniqueTables(u, pid);
    forall other | Started(v, other) && other != pid ensures Accounted(v, other) {
      SameOrders(t, u, pid, other);
      assert Started(t, other);
      OtherAccountedStays(t, u, pid, other);
      SyncOtherAccounted(u, pid, other);
    }
    forall other | !Started(v, other) ensures Waiting(v, other) {
      SameOrders(t, u, pid, other);
      assert !Started(t, other);
      WaitingStays(t, u, pid, other);
    }
  }

  /** Whatever happens to the orders of a proposal, its sync restores the invariant exactly
      if what they leave to trade is coverable. */
  lemma SyncRestoresIff(t: Tables, u: Tables, pid: string)
    requires CapacityInv(t) && Rewrites(t, u, pid) && Started(t, pid)
    ensures CapacityInv(SyncProposal(u, pid)) <==> Coverable(u, pid)
  {
    hide Accounted, SyncProposal, Waiting, Coverable;
    OthersStay(t, u, pid);
    SameOrders(t, u, pid, pid);
    StaysBacked(t, u, pid);
    SyncedAccounted(u, pid);
  }

  lemma StaysBacked(t: Tables, u: Tables, pid: string)
    requires CapacityInv(t) && Rewrites(t, u, pid) && Started(t, pid)
    ensures Backed(u, pid) && UniqueActive(u.reservations)
  {
    assert Accounted(t, pid);
    BackedStays(t, u, pid, pid);
  }

  /** Progress of one proposal's orders followed by its sync keeps the invariant. */
  lemma SyncRestores(t: Tables, u: Tables, pid: string)
    requires CapacityInv(t) && OnlyOrders(t, u, pid)
    ensures CapacityInv(SyncProposal(u, pid))
  {
    hide SyncProposal, Covered, Coverable, Waiting;
    OthersStay(t, u, pid);
    if Started(t, pid) {
      assert Accounted(t, pid);
      hide Accounted;
      CoveredStays(t, u, pid, pid);
      CoveredIsCoverable(u, pid);
      SyncRestoresIff(t, u, pid);
    }
  }

  /** A sync of one proposal, or none at all, leaves the others waiting. */
  lemma WaitingStays(t: Tables, u: Tables, pid: string, other: string)
    requires Rewrites(t, u, pid) && Waiting(t, other) && !Started(u, other)
    ensures Waiting(u, other) && Waiting(SyncProposal(u, pid), other)
  {
    hide Adjusted;
    var v := SyncProposal(u, pid);
    assert forall s :: ReservedSell(u, other, s) == ReservedSell(t, other, s);
    if other != pid {
      if Idle(u, other) {
        OtherStaysIdle(u, pid, other);
      } else {
        OtherStaysPristine(u, pid, other);
      }
    }
  }

  lemma OtherStaysPristine(t: Tables, pid: string, other: string)
    requires Pristine(t, other) && pid != other
    ensures Pristine(SyncProposal(t, pid), other)
  {
    hide Adjusted;
    var u := SyncProposal(t, pid);
    forall s ensures ReservedSell(u, other, s) == ReservedSell(t, other, s) {
      SyncIsLocal(t, pid, other, s);
    }
    SyncIsLocal(t, pid, other, "");
    forall r <- u.reservations | r.active && r.proposalId == other ensures LegBacked(LegsOf(t, other), r) {
      if u.reservations == AdjustedRows(t, pid) {
        var q := SyncOrigin(t, pid, r);
        AdjustedRow(t, pid, q);
      }
    }
  }

  lemma SyncKeepsTables(t: Tables, pid: string)
    ensures var u := SyncProposal(t, pid);
            u.orders == t.orders && u.proposals == t.proposals && u.events == t.events && u.snapshot == t.snapshot
            && u.unknown == t.unknown && u.history == t.history && |u.reservations| == |t.reservations|
  {
  }

  lemma SyncKeepsUniqueTables(t: Tables, pid: string)
    requires UniqueActive(t.reservations)
    ensures UniqueActive(SyncProposal(t, pid).reservations)
  {
    SyncKeepsUnique(t, pid);
  }

  /** A change that leaves the proposal in doubt needs no sync. */
  lemma DoubtKeeps(t: Tables, u: Tables, pid: string)
    requires CapacityInv(t) && OnlyOrders(t, u, pid)
    requires Uncertain(u, pid) || (forall i | 0 <= i < |t.orders| :: Alike(t.orders[i], u.orders[i]))
    ensures CapacityInv(u)
  {
    hide Accounted, Waiting;
    SameOrders(t, u, pid, pid);
    forall other | Started(u, other) ensures Accounted(u, other) {
      SameOrders(t, u, pid, other);
      assert Started(t, other);
      if other != pid {
        OtherAccountedStays(t, u, pid, other);
      } else if Uncertain(u, pid) {
        DoubtAccounted(t, u, pid);
      } else {
        AlikeAccounted(t, u, pid);
      }
    }
    forall other | !Started(u, other) ensures Waiting(u, other) {
      SameOrders(t, u, pid, other);
      assert !Started(t, other);
      WaitingStays(t, u, pid, other);
    }
  }

  lemma DoubtAccounted(t: Tables, u: Tables, pid: string)
    requires OnlyOrders(t, u, pid) && Accounted(t, pid) && Uncertain(u, pid)
    ensures Accounted(u, pid)
  {
    hide SellRemaining, CashRemaining, Backed, Covered;
    BackedStays(t, u, pid, pid);
    CoveredStays(t, u, pid, pid);
  }

  /** As far from terminal and as much in doubt, with as much left. */
  predicate Alike(a: ExecutionOrder, b: ExecutionOrder) {
    Open(a) == Open(b) && a.state.IsTerminal() == b.state.IsTerminal() && a.state.IsUncertain() == b.state.IsUncertain()
  }

  lemma AlikeAccounted(t: Tables, u: Tables, pid: string)
    requires OnlyOrders(t, u, pid) && Accounted(t, pid)
    requires forall i | 0 <= i < |t.orders| :: Alike(t.orders[i], u.orders[i])
    ensures Accounted(u, pid)
  {
    hide Backed, Covered;
    BackedStays(t, u, pid, pid);
    CoveredStays(t, u, pid, pid);
    AlikeStates(t.orders, u.orders, pid);
    forall s
      ensures SellRemaining(u, pid, s) == SellRemaining(t, pid, s)
      ensures ReservedSell(u, pid, s) == ReservedSell(t, pid, s)
    {
      AlikeRemaining(t, u, pid, s);
    }
    AlikeRemaining(t, u, pid, "");
  }

  lemma AlikeRemaining(t: Tables, u: Tables, pid: string, s: Symbol)
    requires OnlyOrders(t, u, pid)
    requires forall i | 0 <= i < |t.orders| :: Alike(t.orders[i], u.orders[i])
    ensures SellRemaining(u, pid, s) == SellRemaining(t, pid, s)
    ensures CashRemaining(u, pid) == CashRemaining(t, pid)
  {
    SameOrders(t, u, pid, pid);
    forall i | 0 <= i < |t.orders|
      ensures OpenSellOf(pid, s)(u.orders[i]) == OpenSellOf(pid, s)(t.orders[i])
      ensures OpenBuyOf(pid)(u.orders[i]) == OpenBuyOf(pid)(t.orders[i])
    {
      assert Progress(t.orders[i], u.orders[i]) && Alike(t.orders[i], u.orders[i]);
    }
    SumZipEq(u.orders, t.orders, OpenSellOf(pid, s));
    SumZipEq(u.orders, t.orders, OpenBuyOf(pid));
    SumEq(LegsOf(t, pid), UnsentSellOf(u.orders, pid, s), UnsentSellOf(t.orders, pid, s));
    SumEq(LegsOf(t, pid), UnsentBuyOf(u.orders, pid), UnsentBuyOf(t.orders, pid));
  }

  lemma AlikeStates(a: seq<ExecutionOrder>, b: seq<ExecutionOrder>, pid: string)
    requires OrdersProgress(a, b, pid) && forall i | 0 <= i < |a| :: Alike(a[i], b[i])
    ensures (exists o <- a :: o.proposalId == pid && o.state.IsUncertain())
        ==> exists o <- b :: o.proposalId == pid && o.state.IsUncertain()
    ensures (exists o <- a :: o.proposalId == pid && !o.state.IsTerminal())
        ==> exists o <- b :: o.proposalId == pid && !o.state.IsTerminal()
  {
    forall i | 0 <= i < |a| ensures b[i] in b && Progress(a[i], b[i]) && Alike(a[i], b[i]) {}
    if o :| o in a && o.proposalId == pid && o.state.IsUncertain() {
      var i :| 0 <= i < |a| && a[i] == o;
      assert b[i].state.IsUncertain();
    }
    if o :| o in a && o.proposalId == pid && !o.state.IsTerminal() {
      var i :| 0 <= i < |a| && a[i] == o;
      assert !b[i].state.IsTerminal();
    }
  }

  // ---- how far the cash reservation is from the exact notional ----

  function ExactBuyOf(pid: string): ExecutionOrder -> real {
    (o: ExecutionOrder) => if o.proposalId == pid && o.side.Buy? then Open(o) * o.referencePrice else 0.0
  }

  function OpenBuys(orders: seq<ExecutionOrder>, pid: string): nat {
    if orders == [] then 0
    else (if IsOpenBuy(orders[0], pid) then 1 else 0) + OpenBuys(orders[1..], pid)
  }

  predicate IsOpenBuy(o: ExecutionOrder, pid: string) {
    o.proposalId == pid && o.side.Buy? && Open(o) > 0.0
  }

  lemma OneFloor(o: ExecutionOrder, pid: string)
    ensures var exact, floored := ExactBuyOf(pid)(o), OpenBuyOf(pid)(o);
            if IsOpenBuy(o, pid) then floored <= exact < floored + CENT else exact == floored == 0.0
  {
    if Open(o) == 0.0 {
      BudgetOfNothing(o.referencePrice);
      assert Open(o) * o.referencePrice == 0.0;
    }
  }

  function Cents(n: nat): real {
    if n == 0 then 0.0 else CENT + Cents(n - 1)
  }

  /** Flooring loses less than one cent an open buy order. */
  lemma {:induction false} FlooringLosesCents(orders: seq<ExecutionOrder>, pid: string)
    ensures var exact, floored, n := SumBy(orders, ExactBuyOf(pid)), SumBy(orders, OpenBuyOf(pid)), OpenBuys(orders, pid);
            floored <= exact <= floored + Cents(n) && (n > 0 ==> exact < floored + Cents(n))
  {
    hide ExactBuyOf, OpenBuyOf, IsOpenBuy;
    if orders != [] {
      FlooringLosesCents(orders[1..], pid);
      OneFloor(orders[0], pid);
    }
  }

  /** Active cash reservations are short of the exact remaining notional by less than one
      cent an open buy order. */
  lemma CashShortByCents(t: Tables, pid: string)
    requires CapacityInv(t) && Started(t, pid) && OpenBuys(t.orders, pid) > 0
    ensures SumBy(t.orders, ExactBuyOf(pid)) < ReservedCash(t, pid) + Cents(OpenBuys(t.orders, pid))
  {
    assert Accounted(t, pid) && Covered(t, pid);
    FlooringLosesCents(t.orders, pid);
    SumNonNegative(LegsOf(t, pid), UnsentBuyOf(t.orders, pid));
  }
}
