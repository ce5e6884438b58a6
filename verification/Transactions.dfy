/** What each transaction writes, row by row and column by column, over the rows alone. */
module Transactions {
  import opened Authority
  import opened Calendar
  import Capacity
  import opened CapacitySteps
  import opened Domain
  import opened Execution
  import opened Orchestration
  import opened Reconcile
  import opened Compare
  import opened Records
  import opened Requirements
  import opened Results
  import opened States
  import opened Sums
  import opened Sync
  import opened Tables
  import opened Unresolved

  // ---- syncing capacity ----

  const OVER := {ExecutionState.Filled, ExecutionState.Cancelled, ExecutionState.Rejected, ExecutionState.NotSubmitted}

  /** Shares that an order that is not over may still sell. */
  function StillSelling(pid: string, s: Symbol): ExecutionOrder -> real {
    (o: ExecutionOrder) => if o.proposalId == pid && o.side == Sell && o.symbol == s && o.state !in OVER then o.remaining else 0.0
  }

  function StillBuying(pid: string): ExecutionOrder -> real {
    (o: ExecutionOrder) =>
      if o.proposalId == pid && o.side == Buy && o.state !in OVER then BudgetOf(o.remaining, o.referencePrice) else 0.0
  }

  predicate HasOrder(orders: seq<ExecutionOrder>, pid: string, id: OrderId) {
    exists o <- orders :: o.proposalId == pid && o.id == id
  }

  /** Legs without an order. */
  function YetToSell(orders: seq<ExecutionOrder>, pid: string, s: Symbol): Leg -> real {
    (l: Leg) => if l.side == Sell && l.symbol == s && !HasOrder(orders, pid, l.clientOrderId) then l.quantity else 0.0
  }

  function YetToBuy(orders: seq<ExecutionOrder>, pid: string): Leg -> real {
    (l: Leg) => if l.side == Buy && !HasOrder(orders, pid, l.clientOrderId) then BudgetOf(l.quantity, l.referencePrice) else 0.0
  }

  function SharesToSell(t: Tables, pid: string, s: Symbol): real {
    SumBy(t.orders, StillSelling(pid, s)) + SumBy(LegsOf(t, pid), YetToSell(t.orders, pid, s))
  }

  function CashToSpend(t: Tables, pid: string): real {
    SumBy(t.orders, StillBuying(pid)) + SumBy(LegsOf(t, pid), YetToBuy(t.orders, pid))
  }

  lemma OpenIs(o: ExecutionOrder)
    ensures Open(o) == if o.state in OVER then 0.0 else o.remaining
  {
  }

  lemma LeftIs(t: Tables, pid: string, s: Symbol)
    ensures SellRemaining(t, pid, s) == SharesToSell(t, pid, s) && CashRemaining(t, pid) == CashToSpend(t, pid)
  {
    forall o <- t.orders
      ensures OpenSellOf(pid, s)(o) == StillSelling(pid, s)(o) && OpenBuyOf(pid)(o) == StillBuying(pid)(o)
    {
      OpenIs(o);
      BudgetOfNothing(o.referencePrice);
    }
    SumEq<ExecutionOrder>(t.orders, OpenSellOf(pid, s), StillSelling(pid, s));
    SumEq<ExecutionOrder>(t.orders, OpenBuyOf(pid), StillBuying(pid));
    SumEq<Leg>(LegsOf(t, pid), UnsentSellOf(t.orders, pid, s), YetToSell(t.orders, pid, s));
    SumEq<Leg>(LegsOf(t, pid), UnsentBuyOf(t.orders, pid), YetToBuy(t.orders, pid));
  }

  /** Some order of the proposal exists, and none is in doubt. */
  predicate Syncable(t: Tables, pid: string) {
    && (exists o <- t.orders :: o.proposalId == pid)
    && forall o <- t.orders | o.proposalId == pid :: o.state != ExecutionState.Unknown && o.state != ExecutionState.Submitting
  }

  predicate Sells(t: Tables, pid: string, s: Symbol) {
    || (exists o <- t.orders :: o.proposalId == pid && o.side == Sell && o.symbol == s)
    || (exists l <- LegsOf(t, pid) :: l.side == Sell && l.symbol == s && !HasOrder(t.orders, pid, l.clientOrderId))
  }

  predicate IsOver(t: Tables, pid: string, id: OrderId) {
    exists o <- t.orders :: o.proposalId == pid && o.id == id && o.state in OVER
  }

  /** A row once what it holds is set to what is left, or let go where nothing is. */
  predicate SetTo(before: Reservation, after: Reservation, quantity: Option<real>, amount: Option<real>, left: real) {
    if left <= 0.0 then after == before.(active := false)
    else after == before.(quantity := quantity, amount := amount)
  }

  predicate RowSynced(t: Tables, pid: string, before: Reservation, after: Reservation) {
    if !before.active || before.proposalId != pid then after == before
    else if before.kind == SellQuantity && before.symbol.Some? && Sells(t, pid, before.symbol.value) then
      var left := SharesToSell(t, pid, before.symbol.value);
      SetTo(before, after, Some(left), None, left)
    else if before.kind == CashDeployment then SetTo(before, after, None, Some(CashToSpend(t, pid)), CashToSpend(t, pid))
    else if before.kind == OrderIdentity && before.clientOrderId.Some? && IsOver(t, pid, before.clientOrderId.value)
    then after == before.(active := false)
    else after == before
  }

  lemma SetIs(before: Reservation, left: real)
    ensures SetTo(before, ResizedSell(before, left), Some(left), None, left)
    ensures SetTo(before, ResizedCash(before, left), None, Some(left), left)
  {
  }

  lemma AdjustedIs(t: Tables, pid: string, r: Reservation)
    ensures RowSynced(t, pid, r, Adjusted(t, pid, r))
  {
    hide SellRemaining, CashRemaining, SharesToSell, CashToSpend, SetTo, ResizedSell, ResizedCash, SellTracked, Sells, TerminalOrder, IsOver;
    LeftIs(t, pid, if r.symbol.Some? then r.symbol.value else "");
    SetIs(r, CashToSpend(t, pid));
    if r.symbol.Some? {
      TrackedIff(t, pid, r.symbol.value);
      SetIs(r, SharesToSell(t, pid, r.symbol.value));
    }
    if r.clientOrderId.Some? {
      OverIff(t, pid, r.clientOrderId.value);
    }
  }

  lemma TrackedIff(t: Tables, pid: string, s: Symbol)
    ensures SellTracked(t, pid, s) <==> Sells(t, pid, s)
  {
  }

  lemma OverIff(t: Tables, pid: string, id: OrderId)
    ensures TerminalOrder(t, pid, id) <==> IsOver(t, pid, id)
  {
  }

  lemma SyncableIff(t: Tables, pid: string)
    ensures Started(t, pid) && !Uncertain(t, pid) <==> Syncable(t, pid)
  {
  }

  /** A sync writes reservations only, and only of a proposal with orders, none of them in doubt;
      every row then holds what is left to sell or to spend, or is let go. */
  lemma SyncAnswers(t: Tables, pid: string)
    ensures var u := SyncProposal(t, pid);
            && u == t.(reservations := u.reservations)
            && (!Syncable(t, pid) ==> u == t)
            && |u.reservations| == |t.reservations|
            && (Syncable(t, pid) ==>
                  forall i | 0 <= i < |t.reservations| :: RowSynced(t, pid, t.reservations[i], u.reservations[i]))
  {
    hide Started, Uncertain, Syncable, Adjusted, RowSynced;
    SyncableIff(t, pid);
    forall i | 0 <= i < |t.reservations| ensures RowSynced(t, pid, t.reservations[i], AdjustedRows(t, pid)[i]) {
      AdjustedIs(t, pid, t.reservations[i]);
    }
  }

  // ---- reservations of a new proposal ----

  /** The last sell leg of a symbol. */
  predicate LastSale(legs: seq<Leg>, k: nat, s: Symbol) {
    && k < |legs| && legs[k].side == Sell && legs[k].symbol == s
    && forall j | k < j < |legs| :: !(legs[j].side == Sell && legs[j].symbol == s)
  }

  lemma {:induction false} LastSaleIs(legs: seq<Leg>, k: nat, s: Symbol)
    requires LastSale(legs, k, s)
    ensures LastSellId(legs, s) == Some(legs[k].clientOrderId)
  {
    if k < |legs| - 1 {
      var before := legs[..|legs| - 1];
      assert forall j | k < j < |before| :: before[j] == legs[j];
      LastSaleIs(before, k, s);
    }
  }

  /** Shares of one symbol, reserved in the name of its last sell leg. */
  predicate SharesRow(p: Proposal, r: Reservation) {
    && r.active && r.proposalId == p.proposalId && r.kind == SellQuantity && r.amount == None
    && exists k: nat :: k < |p.legs| && LastSale(p.legs, k, p.legs[k].symbol) && r.symbol == Some(p.legs[k].symbol)
                        && r.clientOrderId == Some(p.legs[k].clientOrderId)
                        && r.quantity == Some(SumBy(p.legs, SoldShares(p.legs[k].symbol)))
  }

  predicate CashRow(p: Proposal, r: Reservation) {
    && r.active && r.proposalId == p.proposalId && r.kind == CashDeployment && r.symbol == None && r.quantity == None
    && r.clientOrderId == None && r.amount == Some(SumBy(p.legs, BuyCostOf()))
  }

  predicate NameRow(p: Proposal, l: Leg, r: Reservation) {
    && r.active && r.proposalId == p.proposalId && r.kind == OrderIdentity && r.symbol == Some(l.symbol)
    && r.quantity == None && r.amount == None && r.clientOrderId == Some(l.clientOrderId)
  }

  lemma {:induction false} LastSaleExists(legs: seq<Leg>, s: Symbol)
    requires exists l <- legs :: l.side == Sell && l.symbol == s
    ensures exists k: nat :: LastSale(legs, k, s)
  {
    var n := |legs| - 1;
    if legs[n].side == Sell && legs[n].symbol == s {
      assert LastSale(legs, n, s);
    } else {
      var before := legs[..n];
      assert legs == before + [legs[n]];
      LastSaleExists(before, s);
      var k: nat :| LastSale(before, k, s);
      assert forall j | k < j < |legs| :: j == n || legs[j] == before[j];
      assert LastSale(legs, k, s);
    }
  }

  lemma SharesRowIs(p: Proposal, nextId: nat, i: nat)
    requires i < |SoldSymbols(p.legs)|
    ensures SharesRow(p, SellRow(p, SoldSymbols(p.legs)[i], nextId)) && SellRow(p, SoldSymbols(p.legs)[i], nextId).reservationId == nextId
  {
    hide SoldSymbols, SumBy;
    var s := SoldSymbols(p.legs)[i];
    SoldSymbolsMembers(p.legs);
    assert s in SoldSymbols(p.legs);
    LastSaleExists(p.legs, s);
    var k: nat :| LastSale(p.legs, k, s);
    LastSaleIs(p.legs, k, s);
    SoldIs(p.legs, s);
  }

  /** The rows of a new proposal: the shares that it sells, symbol by symbol; its cash, if it
      buys; and the name of each leg. Their ids follow each other. */
  ghost predicate RowsReserve(p: Proposal, nextId: nat, rows: seq<Reservation>, sold: seq<Symbol>, cash: nat) {
    && |rows| == |sold| + cash + |p.legs| && cash <= 1
    && (forall i | 0 <= i < |rows| :: rows[i].reservationId == nextId + i)
    && (forall i | 0 <= i < |sold| :: SharesRow(p, rows[i]) && rows[i].symbol == Some(sold[i]))
    && (cash == 1 ==> CashRow(p, rows[|sold|]))
    && forall k | 0 <= k < |p.legs| :: NameRow(p, p.legs[k], rows[|sold| + cash + k])
  }

  lemma NewRowsAre(p: Proposal, nextId: nat)
    ensures var sold := SoldSymbols(p.legs);
            && (forall s :: s in sold <==> exists l <- p.legs :: l.side == Sell && l.symbol == s) && Distinct(sold)
            && RowsReserve(p, nextId, NewRows(p, nextId), sold, if SumBy(p.legs, BuyCostOf()) > 0.0 then 1 else 0)
  {
    hide SoldSymbols, SumBy, SharesRow, CashRow, NameRow, SellRows, CashRows, IdentityRows, NewRows, RowsReserve;
    SoldSymbolsMembers(p.legs);
    var sells, cash, ids := NewRowsParts(p, nextId);
    SharesRowsAre(p, nextId);
    CashRowsAre(p, nextId + |sells|);
    NameRowsAre(p, nextId + |sells| + |cash|);
    Assembled(p, nextId, SoldSymbols(p.legs), sells, cash, ids);
  }

  lemma Assembled(p: Proposal, nextId: nat, sold: seq<Symbol>, sells: seq<Reservation>, cash: seq<Reservation>,
                  names: seq<Reservation>)
    requires |sells| == |sold| && |names| == |p.legs| && |cash| <= 1
    requires forall i | 0 <= i < |sold| ::
               SharesRow(p, sells[i]) && sells[i].symbol == Some(sold[i]) && sells[i].reservationId == nextId + i
    requires cash != [] ==> CashRow(p, cash[0]) && cash[0].reservationId == nextId + |sells|
    requires forall k | 0 <= k < |names| ::
               NameRow(p, p.legs[k], names[k]) && names[k].reservationId == nextId + |sells| + |cash| + k
    ensures RowsReserve(p, nextId, sells + cash + names, sold, |cash|)
  {
    hide SharesRow, CashRow, NameRow;
    var rows := sells + cash + names;
    ThreeParts(sells, cash, names);
    forall i | 0 <= i < |rows| ensures rows[i].reservationId == nextId + i {
      if |sells| + |cash| <= i {
        assert rows[i] == names[i - |sells| - |cash|];
      } else if |sells| <= i {
        assert rows[i] == cash[0];
      }
    }
    forall k | 0 <= k < |p.legs| ensures NameRow(p, p.legs[k], rows[|sold| + |cash| + k]) {
      assert rows[|sells| + |cash| + k] == names[k];
    }
  }

  lemma ThreeParts<T>(a: seq<T>, b: seq<T>, c: seq<T>)
    ensures forall i | 0 <= i < |a| :: (a + b + c)[i] == a[i]
    ensures forall i | |a| <= i < |a| + |b| :: (a + b + c)[i] == b[i - |a|]
    ensures forall i | |a| + |b| <= i < |a + b + c| :: (a + b + c)[i] == c[i - |a| - |b|]
  {
  }

  lemma SharesRowsAre(p: Proposal, nextId: nat)
    ensures var rows, sold := SellRows(p, SoldSymbols(p.legs), nextId), SoldSymbols(p.legs);
            && |rows| == |sold|
            && forall i | 0 <= i < |sold| ::
                 SharesRow(p, rows[i]) && rows[i].symbol == Some(sold[i]) && rows[i].reservationId == nextId + i
  {
    hide SoldSymbols, SumBy, SharesRow;
    forall i | 0 <= i < |SoldSymbols(p.legs)|
      ensures SharesRow(p, SellRow(p, SoldSymbols(p.legs)[i], nextId + i))
    {
      SharesRowIs(p, nextId + i, i);
    }
  }

  lemma CashRowsAre(p: Proposal, id: nat)
    ensures var rows := CashRows(p, id);
            if SumBy(p.legs, BuyCostOf()) > 0.0 then |rows| == 1 && CashRow(p, rows[0]) && rows[0].reservationId == id else rows == []
  {
    hide SumBy;
    BuysAre(p.legs);
  }

  lemma NameRowsAre(p: Proposal, nextId: nat)
    ensures var rows := IdentityRows(p, nextId);
            && |rows| == |p.legs|
            && forall k | 0 <= k < |p.legs| :: NameRow(p, p.legs[k], rows[k]) && rows[k].reservationId == nextId + k
  {
  }

  /** What an automatic decision adds, and what a granted start adds that found nothing reserved. */
  lemma ReservingAdds(t: Tables, p: Proposal, now: Instant)
    ensures var u := PersistReservations(t, p, now);
            && u == t.(reservations := u.reservations, history := u.history)
            && u.reservations == t.reservations + NewRows(p, |t.reservations|)
            && u.history == t.history + [AutonomousExecution(p.proposalId, now, SumBy(p.legs, CostOf()))]
  {
    AggregateIs(p);
  }

  // ---- losing track, cancelling, giving up ----

  /** The row that stands for a lost order. */
  predicate StandsFor(u: UnknownOrder, o: ExecutionOrder) {
    && u.clientOrderId == o.id && u.proposalId == o.proposalId && u.symbol == o.symbol && u.side == o.side
    && u.state == OrderState.Unknown && u.quantity == Some(o.quantity) && u.filled == Some(o.filled)
  }

  /** The first row with that id was brought up to date. */
  predicate UpdatedAt(before: seq<UnknownOrder>, after: seq<UnknownOrder>, row: UnknownOrder, i: int) {
    && 0 <= i < |before| == |after| && before[i].clientOrderId == row.clientOrderId
    && after[i] == before[i].(state := row.state, quantity := row.quantity, filled := row.filled)
    && (forall j | 0 <= j < i :: before[j].clientOrderId != row.clientOrderId)
    && forall j | 0 <= j < |before| && j != i :: after[j] == before[j]
  }

  /** One row a client order id: the new one, or the one that there was. */
  ghost predicate Upserted(before: seq<UnknownOrder>, after: seq<UnknownOrder>, row: UnknownOrder) {
    if forall x <- before :: x.clientOrderId != row.clientOrderId then after == before + [row]
    else exists i :: UpdatedAt(before, after, row, i)
  }

  lemma {:induction false} UpsertAnswers(rows: seq<UnknownOrder>, row: UnknownOrder)
    ensures Upserted(rows, UpsertUnknown(rows, row), row)
  {
    if rows == [] {
      assert UpsertUnknown(rows, row) == rows + [row];
    } else if rows[0].clientOrderId == row.clientOrderId {
      assert UpdatedAt(rows, UpsertUnknown(rows, row), row, 0);
    } else {
      UpsertAnswers(rows[1..], row);
      UpsertedBehind(rows, UpsertUnknown(rows[1..], row), row);
    }
  }

  lemma UpsertedBehind(rows: seq<UnknownOrder>, rest: seq<UnknownOrder>, row: UnknownOrder)
    requires rows != [] && rows[0].clientOrderId != row.clientOrderId && Upserted(rows[1..], rest, row)
    ensures Upserted(rows, [rows[0]] + rest, row)
  {
    hide UpdatedAt;
    assert forall x <- rows :: x == rows[0] || x in rows[1..];
    if forall x <- rows[1..] :: x.clientOrderId != row.clientOrderId {
      assert [rows[0]] + rest == rows + [row];
    } else {
      var i :| UpdatedAt(rows[1..], rest, row, i);
      UpdatedBehind(rows, rest, row, i);
      assert forall x <- rows[1..] :: x in rows;
    }
  }

  lemma UpdatedBehind(rows: seq<UnknownOrder>, rest: seq<UnknownOrder>, row: UnknownOrder, i: int)
    requires rows != [] && rows[0].clientOrderId != row.clientOrderId && UpdatedAt(rows[1..], rest, row, i)
    ensures UpdatedAt(rows, [rows[0]] + rest, row, i + 1)
  {
    var after := [rows[0]] + rest;
    assert forall j | 0 < j < |rows| :: rows[j] == rows[1..][j - 1] && after[j] == rest[j - 1];
  }

  /** The rows that a reconciliation resolved are brought up to date one after the other. */
  lemma UpsertAllAnswers(rows: seq<UnknownOrder>, resolved: seq<UnknownRow>)
    requires forall i | 0 <= i < |resolved| :: !ContradictoryPair(resolved[i])
    ensures resolved == [] ==> UpsertAll(rows, resolved) == rows
    ensures forall n, row: UnknownOrder | n == |resolved| - 1 && n >= 0 && row == resolved[n] ::
              Upserted(UpsertAll(rows, resolved[..n]), UpsertAll(rows, resolved), row)
  {
    if resolved != [] {
      var n := |resolved| - 1;
      assert !ContradictoryPair(resolved[n]);
      UpsertAnswers(UpsertAll(rows, resolved[..n]), resolved[n]);
    }
  }

  /** The row changed its state and nothing else. */
  predicate OnlyState(before: seq<ExecutionOrder>, after: seq<ExecutionOrder>, i: nat, state: ExecutionState)
    requires i < |before|
  {
    after == before[i := before[i].(state := state)]
  }

  /** Losing track of an order that was sent and is not over: UNKNOWN, with a row that stands for
      it. No reservation is touched. */
  lemma LoseAnswers(t: Tables, id: OrderId)
    ensures var u, i := LoseTrack(t, id), IndexOf(t.orders, id);
            if i.Some? && t.orders[i.value].state !in OVER && t.orders[i.value].state != ExecutionState.Ready then
              && u == t.(orders := u.orders, unknown := u.unknown)
              && OnlyState(t.orders, u.orders, i.value, ExecutionState.Unknown)
              && exists row :: StandsFor(row, t.orders[i.value]) && Upserted(t.unknown, u.unknown, row)
            else u == t
  {
    hide UpsertUnknown, Upserted;
    var i := IndexOf(t.orders, id);
    if i.Some? {
      ReachedFrom(t.orders[i.value].state, ExecutionState.Unknown);
      var row := UnknownRowOf(t.orders[i.value].(state := ExecutionState.Unknown));
      assert StandsFor(row, t.orders[i.value]);
      UpsertAnswers(t.unknown, row);
    }
  }

  /** A cancel is asked for exactly if the broker knows the order and still works it. */
  lemma CancelAnswers(t: Tables, id: OrderId)
    ensures var u, i := RequestCancel(t, id), IndexOf(t.orders, id);
            if i.Some? && t.orders[i.value].brokerOrderId.Some?
               && (t.orders[i.value].state == ExecutionState.Submitted || t.orders[i.value].state == ExecutionState.PartiallyFilled)
            then u == t.(orders := u.orders) && OnlyState(t.orders, u.orders, i.value, ExecutionState.CancelPending)
            else u == t
  {
    var i := IndexOf(t.orders, id);
    if i.Some? {
      ReachedFrom(t.orders[i.value].state, ExecutionState.CancelPending);
      if t.orders[i.value].state.CancelPending? {
        assert t.orders[i.value := t.orders[i.value].(state := ExecutionState.CancelPending)] == t.orders;
      }
    }
  }

  predicate WasNeverSent(o: ExecutionOrder) {
    o.state == ExecutionState.Submitting && o.brokerOrderId == None
  }

  /** Only an order that was never sent is given up, and its capacity is synced. */
  lemma GiveUpAnswers(t: Tables, id: OrderId)
    ensures var u, i := MarkNotSubmitted(t, id), IndexOf(t.orders, id);
            if i.Some? && WasNeverSent(t.orders[i.value]) then
              exists v: Tables ::
                && v == t.(orders := v.orders) && OnlyState(t.orders, v.orders, i.value, ExecutionState.NotSubmitted)
                && u == SyncProposal(v, t.orders[i.value].proposalId)
            else u == t
  {
    hide SyncProposal;
    var i := IndexOf(t.orders, id);
    if i.Some? && NeverSent(t.orders[i.value]) {
      var o: ExecutionOrder := t.orders[i.value].(state := ExecutionState.NotSubmitted);
      var v := t.(orders := t.orders[i.value := o]);
      assert OnlyState(t.orders, v.orders, i.value, ExecutionState.NotSubmitted);
    }
  }

  /** Aborting gives up exactly the orders of the proposal that were neither attempted nor sent. */
  lemma AbortAnswers(t: Tables, pid: string, attempted: set<OrderId>)
    ensures var u := AbortUnsent(t, pid, attempted);
            if exists o <- t.orders :: o.proposalId == pid && o.id !in attempted && WasNeverSent(o) then
              exists v: Tables ::
                && v == t.(orders := v.orders) && |v.orders| == |t.orders| && u == SyncProposal(v, pid)
                && forall i | 0 <= i < |t.orders| ::
                     v.orders[i] == if t.orders[i].proposalId == pid && t.orders[i].id !in attempted && WasNeverSent(t.orders[i])
                                    then t.orders[i].(state := ExecutionState.NotSubmitted) else t.orders[i]
            else u == t
  {
    hide SyncProposal;
    var v := t.(orders := AbortedOrders(t.orders, pid, attempted));
    assert forall o <- t.orders :: Aborts(o, pid, attempted) <==> o.proposalId == pid && o.id !in attempted && WasNeverSent(o);
    assert forall i | 0 <= i < |t.orders| :: t.orders[i] in t.orders;
  }
}
