/** Every transaction of the execution path keeps the capacity invariant, and the exactness
    of what a new proposal reserves. */
module CapacitySteps {
  import opened Authority
  import opened Calendar
  import opened Capacity
  import opened Domain
  import opened Execution
  import opened Money
  import opened Records
  import opened Results
  import opened States
  import opened Sums
  import opened Sync
  import opened Tables

  // ---- order transactions ----

  /** A report that is refused, or whose fill does not fall back. */
  predicate NeverFalls(channel: Channel, current: ExecutionOrder, report: Report) {
    Reported(channel, current, report).Ok? ==> FilledBy(channel, current, report) >= current.filled
  }

  lemma PutIsProgress(t: Tables, i: nat, o: ExecutionOrder)
    requires i < |t.orders| && Progress(t.orders[i], o)
    ensures OrdersProgress(t.orders, t.orders[i := o], t.orders[i].proposalId)
  {
  }

  lemma ReportedIsProgress(channel: Channel, current: ExecutionOrder, report: Report)
    requires NeverFalls(channel, current, report) && Reported(channel, current, report).Ok?
    ensures Progress(current, Reported(channel, current, report).value)
  {
  }

  lemma RecordedIsProgress(t: Tables, i: nat, channel: Channel, report: Report, now: Instant, cal: TradingCalendar)
    requires i < |t.orders| && NeverFalls(channel, t.orders[i], report)
    requires RecordReport(t, i, channel, report, now, cal).Ok?
    ensures OnlyOrders(t, RecordReport(t, i, channel, report, now, cal).value, t.orders[i].proposalId)
  {
    ReportedIsProgress(channel, t.orders[i], report);
    var u := RecordReport(t, i, channel, report, now, cal).value;
    assert u.orders == t.orders[i := u.orders[i]];
    PutIsProgress(t, i, u.orders[i]);
  }

  lemma ApplyReportKeeps(t: Tables, id: OrderId, channel: Channel, report: Report, now: Instant, cal: TradingCalendar)
    requires CapacityInv(t)
    requires forall i | 0 <= i < |t.orders| && t.orders[i].id == id :: NeverFalls(channel, t.orders[i], report)
    ensures CapacityInv(ApplyReport(t, id, channel, report, now, cal))
  {
    hide CapacityInv, RecordReport, SyncProposal;
    var i := IndexOf(t.orders, id);
    if i.Some? {
      var recorded := RecordReport(t, i.value, channel, report, now, cal);
      if recorded.Ok? {
        RecordedIsProgress(t, i.value, channel, report, now, cal);
        SyncRestores(t, recorded.value, t.orders[i.value].proposalId);
      }
    }
  }

  // ---- exactly which reports keep the invariant ----

  /** The tables with one order row replaced. */
  function WithOrder(t: Tables, i: nat, o: ExecutionOrder): Tables
    requires i < |t.orders|
  {
    t.(orders := t.orders[i := o])
  }

  /** What the reported row leaves its proposal to sell, or to buy. */
  function SellLeft(t: Tables, i: nat, reported: ExecutionOrder): real
    requires i < |t.orders|
  {
    SellRemaining(t, reported.proposalId, reported.symbol) - Open(t.orders[i]) + Open(reported)
  }

  function CashLeft(t: Tables, i: nat, reported: ExecutionOrder): real
    requires i < |t.orders|
  {
    CashRemaining(t, reported.proposalId)
    - BudgetOf(Open(t.orders[i]), reported.referencePrice) + BudgetOf(Open(reported), reported.referencePrice)
  }

  /** Capacity for what the reported row leaves: an active row that can be resized, or, while
      an order is in doubt, an active row that is large enough. */
  predicate HasCapacityFor(t: Tables, i: nat, reported: ExecutionOrder)
    requires i < |t.orders|
  {
    var pid := reported.proposalId;
    var left := if reported.side.Sell? then SellLeft(t, i, reported) else CashLeft(t, i, reported);
    if Uncertain(WithOrder(t, i, reported), pid) then
      left <= if reported.side.Sell? then ReservedSell(t, pid, reported.symbol) else ReservedCash(t, pid)
    else
      left == 0.0 || if reported.side.Sell? then HasSellRow(t.reservations, pid, reported.symbol)
                     else HasCashRow(t.reservations, pid)
  }

  lemma PutContinues(t: Tables, u: Tables, i: nat, o: ExecutionOrder)
    requires i < |t.orders| && Continues(t.orders[i], o) && u.orders == t.orders[i := o]
    requires u.proposals == t.proposals && u.reservations == t.reservations
    ensures Rewrites(t, u, o.proposalId) && Started(t, o.proposalId)
  {
    assert t.orders[i] in t.orders;
  }

  lemma PutRemaining(t: Tables, u: Tables, i: nat, o: ExecutionOrder, s: Symbol)
    requires i < |t.orders| && Continues(t.orders[i], o) && u.orders == t.orders[i := o]
    requires u.proposals == t.proposals && u.reservations == t.reservations
    ensures SellRemaining(u, o.proposalId, s)
         == if o.side.Sell? && o.symbol == s then SellLeft(t, i, o) else SellRemaining(t, o.proposalId, s)
    ensures CashRemaining(u, o.proposalId) == if o.side.Buy? then CashLeft(t, i, o) else CashRemaining(t, o.proposalId)
  {
    var pid := o.proposalId;
    PutContinues(t, u, i, o);
    SameOrders(t, u, pid, pid);
    SumUpdate(t.orders, i, o, OpenSellOf(pid, s));
    SumUpdate(t.orders, i, o, OpenBuyOf(pid));
    SumEq<Leg>(LegsOf(t, pid), UnsentSellOf(u.orders, pid, s), UnsentSellOf(t.orders, pid, s));
    SumEq<Leg>(LegsOf(t, pid), UnsentBuyOf(u.orders, pid), UnsentBuyOf(t.orders, pid));
  }

  lemma PutIsCoverable(t: Tables, u: Tables, i: nat, o: ExecutionOrder)
    requires i < |t.orders| && Continues(t.orders[i], o) && u.orders == t.orders[i := o]
    requires u.proposals == t.proposals && u.reservations == t.reservations && Covered(t, o.proposalId)
    ensures Coverable(u, o.proposalId) <==> HasCapacityFor(t, i, o)
  {
    var pid := o.proposalId;
    hide SellRemaining, CashRemaining, SellLeft, CashLeft, HasSellRow, HasCashRow, ReservedSell, ReservedCash, Uncertain;
    assert Uncertain(u, pid) <==> Uncertain(WithOrder(t, i, o), pid) by {
      SameDoubt(u, WithOrder(t, i, o), pid);
    }
    forall s
      ensures SellRemaining(u, pid, s)
           == if o.side.Sell? && o.symbol == s then SellLeft(t, i, o) else SellRemaining(t, pid, s)
      ensures CashRemaining(u, pid) == if o.side.Buy? then CashLeft(t, i, o) else CashRemaining(t, pid)
      ensures ReservedSell(u, pid, s) == ReservedSell(t, pid, s) && ReservedCash(u, pid) == ReservedCash(t, pid)
      ensures HasSellRow(t.reservations, pid, s) || SellRemaining(t, pid, s) == 0.0
      ensures HasCashRow(t.reservations, pid) || CashRemaining(t, pid) == 0.0
    {
      PutRemaining(t, u, i, o, s);
      SameReserved(t, u, pid, s);
      CoveredHasRows(t, pid, s);
    }
    assert ReservedSell(u, pid, o.symbol) == ReservedSell(t, pid, o.symbol);
  }

  lemma SameDoubt(t: Tables, u: Tables, pid: string)
    requires t.orders == u.orders
    ensures Uncertain(t, pid) <==> Uncertain(u, pid)
  {
  }

  lemma SameReserved(t: Tables, u: Tables, pid: string, s: Symbol)
    requires u.reservations == t.reservations
    ensures ReservedSell(u, pid, s) == ReservedSell(t, pid, s) && ReservedCash(u, pid) == ReservedCash(t, pid)
  {
  }

  lemma CoveredHasRows(t: Tables, pid: string, s: Symbol)
    requires Covered(t, pid)
    ensures HasSellRow(t.reservations, pid, s) || SellRemaining(t, pid, s) == 0.0
    ensures HasCashRow(t.reservations, pid) || CashRemaining(t, pid) == 0.0
  {
    hide SellRemaining, CashRemaining;
    RemainingNonNegative(t, pid, s);
    if !HasSellRow(t.reservations, pid, s) {
      NoSellRow(t.reservations, pid, s);
    }
    if !HasCashRow(t.reservations, pid) {
      NoCashRow(t.reservations, pid);
    }
  }

  lemma ReportPuts(t: Tables, i: nat, channel: Channel, report: Report, now: Instant, cal: TradingCalendar)
    requires i < |t.orders| && RecordReport(t, i, channel, report, now, cal).Ok?
    ensures Reported(channel, t.orders[i], report).Ok?
    ensures var u, reported := RecordReport(t, i, channel, report, now, cal).value, Reported(channel, t.orders[i], report).value;
            && u.proposals == t.proposals && u.reservations == t.reservations && u.orders == t.orders[i := u.orders[i]]
            && Continues(t.orders[i], reported) && Continues(t.orders[i], u.orders[i])
            && u.orders[i] == reported.(settledProceeds := u.orders[i].settledProceeds)
            && u.orders[i].proposalId == t.orders[i].proposalId
  {
    hide SettlementDate, FilledProceeds;
  }

  lemma SettlingIsNoMatter(t: Tables, i: nat, a: ExecutionOrder, b: ExecutionOrder)
    requires i < |t.orders| && b == a.(settledProceeds := b.settledProceeds)
    ensures HasCapacityFor(t, i, a) <==> HasCapacityFor(t, i, b)
  {
    var x, y := WithOrder(t, i, a), WithOrder(t, i, b);
    assert Uncertain(x, a.proposalId) <==> Uncertain(y, a.proposalId) by {
      forall k | 0 <= k < |t.orders|
        ensures x.orders[k].proposalId == y.orders[k].proposalId && x.orders[k].state == y.orders[k].state
        ensures x.orders[k] in x.orders && y.orders[k] in y.orders
      {}
    }
  }

  /** Exactly which reports keep the invariant, rising or falling: those that leave to trade
      what there still is an active row for. */
  lemma ReportKeepsIff(t: Tables, id: OrderId, i: nat, channel: Channel, report: Report, now: Instant, cal: TradingCalendar)
    requires CapacityInv(t) && IndexOf(t.orders, id) == Some(i) && RecordReport(t, i, channel, report, now, cal).Ok?
    ensures CapacityInv(ApplyReport(t, id, channel, report, now, cal))
            <==> HasCapacityFor(t, i, Reported(channel, t.orders[i], report).value)
  {
    hide RecordReport, SyncProposal, HasCapacityFor, Coverable, CapacityInv, OrdersContinue, Continues;
    var u := RecordReport(t, i, channel, report, now, cal).value;
    ReportPuts(t, i, channel, report, now, cal);
    PutKeeps(t, u, i, u.orders[i]);
    SettlingIsNoMatter(t, i, Reported(channel, t.orders[i], report).value, u.orders[i]);
  }

  lemma PutKeeps(t: Tables, u: Tables, i: nat, o: ExecutionOrder)
    requires CapacityInv(t) && i < |t.orders| && Continues(t.orders[i], o) && u.orders == t.orders[i := o]
    requires u.proposals == t.proposals && u.reservations == t.reservations
    ensures CapacityInv(SyncProposal(u, o.proposalId)) <==> HasCapacityFor(t, i, o)
  {
    hide HasCapacityFor, Coverable, Covered;
    PutContinues(t, u, i, o);
    assert Accounted(t, o.proposalId);
    hide CapacityInv;
    SyncRestoresIff(t, u, o.proposalId);
    PutIsCoverable(t, u, i, o);
  }

  /** A timeout is not a release: no reservation changes while an order is in doubt. */
  lemma LoseTrackKeeps(t: Tables, id: OrderId)
    requires CapacityInv(t)
    ensures CapacityInv(LoseTrack(t, id)) && LoseTrack(t, id).reservations == t.reservations
  {
    hide CapacityInv;
    var u := LoseTrack(t, id);
    var i := IndexOf(t.orders, id);
    if i.Some? && MayBecome(t.orders[i.value].state, ExecutionState.Unknown) {
      var pid := t.orders[i.value].proposalId;
      PutIsProgress(t, i.value, u.orders[i.value]);
      assert u.orders[i.value] in u.orders && u.orders[i.value].state.IsUncertain();
      DoubtKeeps(t, u, pid);
    }
  }

  lemma RequestCancelKeeps(t: Tables, id: OrderId)
    requires CapacityInv(t)
    ensures CapacityInv(RequestCancel(t, id)) && RequestCancel(t, id).reservations == t.reservations
  {
    hide CapacityInv;
    var u := RequestCancel(t, id);
    var i := IndexOf(t.orders, id);
    if i.Some? && u != t {
      PutIsProgress(t, i.value, u.orders[i.value]);
      DoubtKeeps(t, u, t.orders[i.value].proposalId);
    }
  }

  lemma MarkNotSubmittedKeeps(t: Tables, id: OrderId)
    requires CapacityInv(t)
    ensures CapacityInv(MarkNotSubmitted(t, id))
  {
    hide CapacityInv, SyncProposal;
    var i := IndexOf(t.orders, id);
    if i.Some? && NeverSent(t.orders[i.value]) {
      var o := t.orders[i.value];
      var u := t.(orders := t.orders[i.value := o.(state := ExecutionState.NotSubmitted)]);
      PutIsProgress(t, i.value, u.orders[i.value]);
      SyncRestores(t, u, o.proposalId);
    }
  }

  lemma AbortUnsentKeeps(t: Tables, pid: string, attempted: set<OrderId>)
    requires CapacityInv(t)
    ensures CapacityInv(AbortUnsent(t, pid, attempted))
  {
    hide CapacityInv, SyncProposal;
    var u := t.(orders := AbortedOrders(t.orders, pid, attempted));
    assert OrdersProgress(t.orders, u.orders, pid);
    SyncRestores(t, u, pid);
  }

  lemma StampKeeps(t: Tables, u: Tables)
    requires CapacityInv(t)
    requires u.orders == StampedOrders(t.orders) && u.reservations == t.reservations && u.proposals == t.proposals
    ensures CapacityInv(u)
  {
    hide CapacityInv;
    DoubtKeeps(t, u, "");
  }

  // ---- what a new proposal reserves ----

  lemma {:induction false} SoldSymbolsMembers(legs: seq<Leg>)
    ensures Distinct(SoldSymbols(legs))
    ensures forall s :: s in SoldSymbols(legs) <==> exists l <- legs :: l.side.Sell? && l.symbol == s
  {
    if legs != [] {
      var before, last := legs[..|legs| - 1], legs[|legs| - 1];
      SoldSymbolsMembers(before);
      assert legs == before + [last];
      var sold := SoldSymbols(before);
      assert forall i | 0 <= i < |sold| :: sold[i] in sold;
    }
  }

  lemma SellRowsSum(p: Proposal, nextId: nat, pid: string, s: Symbol)
    ensures SumBy(SellRows(p, SoldSymbols(p.legs), nextId), ActiveSellFor(pid, s))
         == if p.proposalId == pid then p.SellQuantity(s) else 0.0
  {
    var symbols := SoldSymbols(p.legs);
    var rows := SellRows(p, symbols, nextId);
    SoldSymbolsMembers(p.legs);
    if pid == p.proposalId && s in symbols {
      var i :| 0 <= i < |symbols| && symbols[i] == s;
      SumSingle(rows, i, ActiveSellFor(pid, s));
    } else {
      SumZero(rows, ActiveSellFor(pid, s));
      if s !in symbols {
        SumZero(p.legs, SellQuantityOf(s));
      }
    }
  }

  lemma CashRowsSum(p: Proposal, id: nat, pid: string)
    ensures SumBy(CashRows(p, id), ActiveCashFor(pid))
         == if p.proposalId == pid then p.TotalBuyNotional() else 0.0
  {
    SumNonNegative(p.legs, BuyNotionalOf());
    var rows := CashRows(p, id);
    if rows != [] {
      assert rows[1..] == [];
    }
  }

  lemma NoSellAmounts(rows: seq<Reservation>, pid: string, s: Symbol)
    requires forall r <- rows :: !r.kind.SellQuantity?
    ensures SumBy(rows, ActiveSellFor(pid, s)) == 0.0
  {
    SumZero(rows, ActiveSellFor(pid, s));
  }

  lemma NoCashAmounts(rows: seq<Reservation>, pid: string)
    requires forall r <- rows :: !r.kind.CashDeployment?
    ensures SumBy(rows, ActiveCashFor(pid)) == 0.0
  {
    SumZero(rows, ActiveCashFor(pid));
  }

  lemma RowKinds(p: Proposal, symbols: seq<Symbol>, nextId: nat)
    ensures forall r <- SellRows(p, symbols, nextId) :: r.kind.SellQuantity?
    ensures forall r <- CashRows(p, nextId) :: r.kind.CashDeployment?
    ensures forall r <- IdentityRows(p, nextId) :: r.kind.OrderIdentity?
  {
  }

  /** The three kinds of new rows. */
  lemma NewRowsParts(p: Proposal, nextId: nat) returns (sells: seq<Reservation>, cash: seq<Reservation>, ids: seq<Reservation>)
    ensures NewRows(p, nextId) == sells + cash + ids
    ensures sells == SellRows(p, SoldSymbols(p.legs), nextId) && cash == CashRows(p, nextId + |sells|)
    ensures ids == IdentityRows(p, nextId + |sells| + |cash|)
    ensures forall r <- sells :: r.kind.SellQuantity?
    ensures forall r <- cash :: r.kind.CashDeployment?
    ensures forall r <- ids :: r.kind.OrderIdentity?
  {
    hide SoldSymbols, SellRows, CashRows, IdentityRows;
    sells := SellRows(p, SoldSymbols(p.legs), nextId);
    cash := CashRows(p, nextId + |sells|);
    ids := IdentityRows(p, nextId + |sells| + |cash|);
    RowKinds(p, SoldSymbols(p.legs), nextId);
    RowKinds(p, SoldSymbols(p.legs), nextId + |sells|);
    RowKinds(p, SoldSymbols(p.legs), nextId + |sells| + |cash|);
  }

  /** A proposal's new rows reserve exactly its sells. */
  lemma NewRowsSellSum(p: Proposal, nextId: nat, pid: string, s: Symbol)
    ensures SumBy(NewRows(p, nextId), ActiveSellFor(pid, s)) == if p.proposalId == pid then p.SellQuantity(s) else 0.0
  {
    hide *;
    var sells, cash, ids := NewRowsParts(p, nextId);
    SumThree<Reservation>(sells, cash, ids, ActiveSellFor(pid, s));
    SellRowsSum(p, nextId, pid, s);
    NoSellAmounts(cash, pid, s);
    NoSellAmounts(ids, pid, s);
  }

  /** ... and exactly its buys. */
  lemma NewRowsCashSum(p: Proposal, nextId: nat, pid: string)
    ensures SumBy(NewRows(p, nextId), ActiveCashFor(pid)) == if p.proposalId == pid then p.TotalBuyNotional() else 0.0
  {
    hide *;
    var sells, cash, ids := NewRowsParts(p, nextId);
    SumThree<Reservation>(sells, cash, ids, ActiveCashFor(pid));
    CashRowsSum(p, nextId + |sells|, pid);
    NoCashAmounts(sells, pid);
    NoCashAmounts(ids, pid);
  }

  lemma SellRowsShape(p: Proposal, nextId: nat, r: Reservation)
    requires r in SellRows(p, SoldSymbols(p.legs), nextId)
    ensures r.active && r.proposalId == p.proposalId && LegBacked(p.legs, r)
  {
    SoldSymbolsMembers(p.legs);
    var sells := SellRows(p, SoldSymbols(p.legs), nextId);
    var i :| 0 <= i < |sells| && sells[i] == r;
    assert SoldSymbols(p.legs)[i] in SoldSymbols(p.legs);
  }

  lemma IdentityRowsShape(p: Proposal, nextId: nat, r: Reservation)
    requires r in IdentityRows(p, nextId)
    ensures r.active && r.proposalId == p.proposalId && LegBacked(p.legs, r)
  {
    var ids := IdentityRows(p, nextId);
    var i :| 0 <= i < |ids| && ids[i] == r;
    assert p.legs[i] in p.legs;
  }

  lemma NewRowsShape(p: Proposal, nextId: nat, r: Reservation)
    requires r in NewRows(p, nextId)
    ensures r.active && r.proposalId == p.proposalId && LegBacked(p.legs, r)
  {
    hide SellRows, IdentityRows;
    var sells, cash, ids := NewRowsParts(p, nextId);
    if r in sells {
      SellRowsShape(p, nextId, r);
    } else if r in ids {
      IdentityRowsShape(p, nextId + |sells| + |cash|, r);
    }
  }

  lemma NewRowsUnique(p: Proposal, nextId: nat)
    ensures UniqueActive(NewRows(p, nextId))
  {
    SoldSymbolsMembers(p.legs);
  }

  lemma AppendUnique(rs: seq<Reservation>, p: Proposal, nextId: nat)
    requires UniqueActive(rs) && forall r <- rs :: !(r.active && r.proposalId == p.proposalId)
    ensures UniqueActive(rs + NewRows(p, nextId))
  {
    NewRowsUnique(p, nextId);
    var rows := NewRows(p, nextId);
    forall i | 0 <= i < |rows| ensures KeyOf(rows[i]).Unindexed? || forall r <- rs :: KeyOf(r) != KeyOf(rows[i]) {
      NewRowsShape(p, nextId, rows[i]);
    }
  }

  // ---- reserving and starting a proposal ----

  /** The tables with the rows of a new proposal. */
  predicate Inserts(t: Tables, u: Tables, row: ProposalRow) {
    && RowOf(t.proposals, row.proposal.proposalId).None?
    && u.proposals == t.proposals + [row] && u.orders == t.orders
  }

  lemma {:induction false} RowOfAppend(proposals: seq<ProposalRow>, row: ProposalRow, pid: string)
    requires RowOf(proposals, row.proposal.proposalId).None?
    ensures RowOf(proposals + [row], pid) == if pid == row.proposal.proposalId then Some(row) else RowOf(proposals, pid)
  {
    if proposals != [] {
      assert (proposals + [row])[1..] == proposals[1..] + [row];
      RowOfAppend(proposals[1..], row, pid);
    }
  }

  lemma AppendedReservations(t: Tables, u: Tables, p: Proposal, pid: string, s: Symbol)
    requires u.reservations == t.reservations + NewRows(p, |t.reservations|)
    ensures ReservedSell(u, pid, s) == ReservedSell(t, pid, s) + if p.proposalId == pid then p.SellQuantity(s) else 0.0
    ensures ReservedCash(u, pid) == ReservedCash(t, pid) + if p.proposalId == pid then p.TotalBuyNotional() else 0.0
  {
    hide ActiveSellFor, ActiveCashFor, NewRows;
    var rows := NewRows(p, |t.reservations|);
    SumAppend<Reservation>(t.reservations, rows, ActiveSellFor(pid, s));
    SumAppend<Reservation>(t.reservations, rows, ActiveCashFor(pid));
    NewRowsSellSum(p, |t.reservations|, pid, s);
    NewRowsCashSum(p, |t.reservations|, pid);
  }

  lemma IdleReservesNothing(t: Tables, pid: string, s: Symbol)
    requires Idle(t, pid)
    ensures ReservedSell(t, pid, s) == 0.0 && ReservedCash(t, pid) == 0.0
  {
    NoSellRow(t.reservations, pid, s);
    NoCashRow(t.reservations, pid);
  }

  /** After `persist_reservations` the proposal has the capacity of all its legs. */
  lemma ReservedIsPristine(t: Tables, u: Tables, p: Proposal)
    requires Idle(t, p.proposalId) && LegsOf(u, p.proposalId) == p.legs
    requires u.reservations == t.reservations + NewRows(p, |t.reservations|)
    ensures Pristine(u, p.proposalId)
  {
    hide ActiveSellFor, ActiveCashFor, NewRows, ReservedSell, ReservedCash;
    var pid := p.proposalId;
    forall s ensures ReservedSell(u, pid, s) == SumBy(p.legs, SellQuantityOf(s)) {
      IdleReservesNothing(t, pid, s);
      AppendedReservations(t, u, p, pid, s);
    }
    IdleReservesNothing(t, pid, "");
    AppendedReservations(t, u, p, pid, "");
    forall r <- u.reservations | r.active && r.proposalId == pid ensures LegBacked(p.legs, r) {
      assert r !in t.reservations;
      NewRowsShape(p, |t.reservations|, r);
    }
  }

  /** Rows of another proposal do not touch this one. */
  lemma AppendKeepsOther(t: Tables, u: Tables, p: Proposal, other: string)
    requires other != p.proposalId && LegsOf(u, other) == LegsOf(t, other) && u.orders == t.orders
    requires u.reservations == t.reservations || u.reservations == t.reservations + NewRows(p, |t.reservations|)
    requires Automatic(t, other) == Automatic(u, other)
    ensures Accounted(t, other) ==> Accounted(u, other)
    ensures Waiting(t, other) ==> Waiting(u, other)
  {
    hide Accounted, Waiting, NewRows, LegsOf;
    if Accounted(t, other) {
      AppendKeepsAccounted(t, u, p, other);
    }
    if Waiting(t, other) {
      AppendKeepsWaiting(t, u, p, other);
    }
  }

  lemma OldRowsOnly(t: Tables, u: Tables, p: Proposal, other: string)
    requires other != p.proposalId
    requires u.reservations == t.reservations || u.reservations == t.reservations + NewRows(p, |t.reservations|)
    ensures forall r <- u.reservations | r.proposalId == other :: r in t.reservations
    ensures forall r <- t.reservations :: r in u.reservations
  {
    hide NewRows;
    forall r <- u.reservations | r.proposalId == other ensures r in t.reservations {
      if r !in t.reservations {
        NewRowsShape(p, |t.reservations|, r);
      }
    }
  }

  lemma AppendKeepsWaiting(t: Tables, u: Tables, p: Proposal, other: string)
    requires other != p.proposalId && LegsOf(u, other) == LegsOf(t, other) && u.orders == t.orders
    requires u.reservations == t.reservations || u.reservations == t.reservations + NewRows(p, |t.reservations|)
    requires Automatic(t, other) == Automatic(u, other) && Waiting(t, other)
    ensures Waiting(u, other)
  {
    hide ActiveSellFor, ActiveCashFor, NewRows, ReservedSell, ReservedCash, Automatic;
    OldRowsOnly(t, u, p, other);
    forall s ensures ReservedSell(u, other, s) == ReservedSell(t, other, s) {
      ReservedOther(t, u, p, other, s);
    }
    ReservedOther(t, u, p, other, "");
  }

  lemma AppendKeepsAccounted(t: Tables, u: Tables, p: Proposal, other: string)
    requires other != p.proposalId && LegsOf(u, other) == LegsOf(t, other) && u.orders == t.orders
    requires u.reservations == t.reservations || u.reservations == t.reservations + NewRows(p, |t.reservations|)
    requires Accounted(t, other)
    ensures Accounted(u, other)
  {
    hide ActiveSellFor, ActiveCashFor, NewRows, ReservedSell, ReservedCash;
    OldRowsOnly(t, u, p, other);
    forall s
      ensures ReservedSell(u, other, s) == ReservedSell(t, other, s)
      ensures SellRemaining(u, other, s) == SellRemaining(t, other, s)
      ensures SellTracked(u, other, s) == SellTracked(t, other, s)
    {
      ReservedOther(t, u, p, other, s);
    }
    ReservedOther(t, u, p, other, "");
  }

  lemma ReservedOther(t: Tables, u: Tables, p: Proposal, other: string, s: Symbol)
    requires other != p.proposalId && LegsOf(u, other) == LegsOf(t, other) && u.orders == t.orders
    requires u.reservations == t.reservations || u.reservations == t.reservations + NewRows(p, |t.reservations|)
    ensures ReservedSell(u, other, s) == ReservedSell(t, other, s)
    ensures ReservedCash(u, other) == ReservedCash(t, other)
    ensures SellRemaining(u, other, s) == SellRemaining(t, other, s)
    ensures CashRemaining(u, other) == CashRemaining(t, other)
    ensures SellTracked(u, other, s) == SellTracked(t, other, s)
  {
    hide NewRows;
    if u.reservations != t.reservations {
      AppendedReservations(t, u, p, other, s);
    }
  }

  /** Recording a decision, with its reservations when it is AUTO, keeps the invariant. */
  lemma ReserveKeeps(t: Tables, u: Tables, row: ProposalRow)
    requires CapacityInv(t) && Inserts(t, u, row) && !Started(t, row.proposal.proposalId)
    requires u.reservations
          == if row.authority.Auto? then t.reservations + NewRows(row.proposal, |t.reservations|) else t.reservations
    ensures CapacityInv(u)
  {
    hide NewRows, Accounted, Pristine;
    var pid := row.proposal.proposalId;
    RowOfAppend(t.proposals, row, pid);
    assert Waiting(t, pid) && Idle(t, pid);
    if row.authority.Auto? {
      AppendUnique(t.reservations, row.proposal, |t.reservations|);
      ReservedIsPristine(t, u, row.proposal);
    }
    forall other
      ensures Started(u, other) ==> Accounted(u, other)
      ensures !Started(u, other) ==> Waiting(u, other)
    {
      RowOfAppend(t.proposals, row, other);
      if other != pid {
        assert Started(u, other) <==> Started(t, other);
        AppendKeepsOther(t, u, row.proposal, other);
      }
    }
  }

  // ---- submission intents ----

  lemma IntentSums(p: Proposal, pid: string, s: Symbol)
    ensures SumBy(IntentRows(p), OpenSellOf(pid, s)) == if p.proposalId == pid then p.SellQuantity(s) else 0.0
    ensures SumBy(IntentRows(p), OpenBuyOf(pid)) == if p.proposalId == pid then p.TotalBuyNotional() else 0.0
  {
    var rows := IntentRows(p);
    if p.proposalId == pid {
      SumMapped(rows, p.legs, OpenSellOf(pid, s), SellQuantityOf(s));
      SumMapped(rows, p.legs, OpenBuyOf(pid), BuyNotionalOf());
    } else {
      SumZero(rows, OpenSellOf(pid, s));
      SumZero(rows, OpenBuyOf(pid));
    }
  }

  predicate AddsIntents(t: Tables, u: Tables, p: Proposal) {
    && u.proposals == t.proposals && u.reservations == t.reservations
    && u.orders == t.orders + IntentRows(p)
  }

  lemma IntentsElsewhere(t: Tables, u: Tables, p: Proposal, other: string)
    requires AddsIntents(t, u, p) && other != p.proposalId
    ensures forall id :: Executed(u.orders, other, id) <==> Executed(t.orders, other, id)
    ensures Started(u, other) <==> Started(t, other)
    ensures Uncertain(u, other) <==> Uncertain(t, other)
    ensures AllTerminal(u, other) <==> AllTerminal(t, other)
    ensures forall s :: SellTracked(u, other, s) <==> SellTracked(t, other, s)
  {
    assert forall o <- u.orders | o.proposalId == other :: o in t.orders;
    assert forall o <- t.orders :: o in u.orders;
  }

  lemma IntentsRemainingElsewhere(t: Tables, u: Tables, p: Proposal, other: string, s: Symbol)
    requires AddsIntents(t, u, p) && other != p.proposalId
    ensures SellRemaining(u, other, s) == SellRemaining(t, other, s)
    ensures CashRemaining(u, other) == CashRemaining(t, other)
  {
    IntentsElsewhere(t, u, p, other);
    SumAppend<ExecutionOrder>(t.orders, IntentRows(p), OpenSellOf(other, s));
    SumAppend<ExecutionOrder>(t.orders, IntentRows(p), OpenBuyOf(other));
    IntentSums(p, other, s);
    SumEq(LegsOf(t, other), UnsentSellOf(u.orders, other, s), UnsentSellOf(t.orders, other, s));
    SumEq(LegsOf(t, other), UnsentBuyOf(u.orders, other), UnsentBuyOf(t.orders, other));
  }

  lemma IntentsKeepOther(t: Tables, u: Tables, p: Proposal, other: string)
    requires AddsIntents(t, u, p) && other != p.proposalId
    ensures Accounted(t, other) ==> Accounted(u, other)
    ensures Waiting(t, other) ==> Waiting(u, other)
  {
    hide SellRemaining, CashRemaining, SellTracked, Uncertain, AllTerminal, Started;
    IntentsElsewhere(t, u, p, other);
    forall s
      ensures ReservedSell(u, other, s) == ReservedSell(t, other, s)
      ensures SellRemaining(u, other, s) == SellRemaining(t, other, s)
    {
      IntentsRemainingElsewhere(t, u, p, other, s);
    }
    IntentsRemainingElsewhere(t, u, p, other, "");
    IntentsKeepBacked(t, u, p, other);
  }

  lemma IntentsKeepBacked(t: Tables, u: Tables, p: Proposal, other: string)
    requires AddsIntents(t, u, p) && other != p.proposalId
    ensures Backed(t, other) ==> Backed(u, other)
  {
    IntentsElsewhere(t, u, p, other);
    if Backed(t, other) {
      forall r <- u.reservations | r.active && r.proposalId == other ensures RowBacked(u, other, r) {
        assert RowBacked(t, other, r);
      }
    }
  }

  lemma LegsAreExecuted(t: Tables, u: Tables, p: Proposal)
    requires AddsIntents(t, u, p)
    ensures forall l <- p.legs :: Executed(u.orders, p.proposalId, l.clientOrderId)
    ensures forall l <- p.legs | l.side.Sell? :: SellTracked(u, p.proposalId, l.symbol)
  {
    forall l <- p.legs
      ensures Executed(u.orders, p.proposalId, l.clientOrderId)
      ensures l.side.Sell? ==> SellTracked(u, p.proposalId, l.symbol)
    {
      var i :| 0 <= i < |p.legs| && p.legs[i] == l;
      assert IntentRows(p)[i] in u.orders;
    }
  }

  lemma IntentsRemaining(t: Tables, u: Tables, p: Proposal, s: Symbol)
    requires AddsIntents(t, u, p) && !Started(t, p.proposalId) && LegsOf(t, p.proposalId) == p.legs
    ensures SellRemaining(u, p.proposalId, s) == p.SellQuantity(s)
    ensures CashRemaining(u, p.proposalId) == p.TotalBuyNotional()
  {
    var pid := p.proposalId;
    LegsAreExecuted(t, u, p);
    SumAppend<ExecutionOrder>(t.orders, IntentRows(p), OpenSellOf(pid, s));
    SumAppend<ExecutionOrder>(t.orders, IntentRows(p), OpenBuyOf(pid));
    IntentSums(p, pid, s);
    SumZero(t.orders, OpenSellOf(pid, s));
    SumZero(t.orders, OpenBuyOf(pid));
    SumZero(p.legs, UnsentSellOf(u.orders, pid, s));
    SumZero(p.legs, UnsentBuyOf(u.orders, pid));
  }

  /** Submission intents of a proposal with the capacity of all its legs. */
  lemma IntentsAccounted(t: Tables, u: Tables, p: Proposal)
    requires AddsIntents(t, u, p) && !Started(t, p.proposalId) && LegsOf(t, p.proposalId) == p.legs
    requires Pristine(t, p.proposalId) && p.legs != []
    ensures Started(u, p.proposalId) && Accounted(u, p.proposalId)
  {
    hide Backed, Covered, Pristine;
    assert IntentRows(p)[0] in u.orders;
    assert Uncertain(u, p.proposalId) && !AllTerminal(u, p.proposalId);
    IntentsCovered(t, u, p);
    IntentsBacked(t, u, p);
  }

  lemma IntentsCovered(t: Tables, u: Tables, p: Proposal)
    requires AddsIntents(t, u, p) && !Started(t, p.proposalId) && LegsOf(t, p.proposalId) == p.legs
    requires Pristine(t, p.proposalId)
    ensures Covered(u, p.proposalId)
  {
    hide SellRemaining, CashRemaining, SumBy;
    var pid := p.proposalId;
    forall s ensures ReservedSell(u, pid, s) >= SellRemaining(u, pid, s) {
      IntentsRemaining(t, u, p, s);
      assert ReservedSell(u, pid, s) == ReservedSell(t, pid, s);
    }
    IntentsRemaining(t, u, p, "");
  }

  lemma IntentsBacked(t: Tables, u: Tables, p: Proposal)
    requires AddsIntents(t, u, p) && !Started(t, p.proposalId) && LegsOf(t, p.proposalId) == p.legs
    requires Pristine(t, p.proposalId)
    ensures Backed(u, p.proposalId)
  {
    hide SellTracked, ReservedSell, ReservedCash, SumBy;
    var pid := p.proposalId;
    LegsAreExecuted(t, u, p);
    forall r <- u.reservations | r.active && r.proposalId == pid ensures RowBacked(u, pid, r) {
      assert LegBacked(p.legs, r);
    }
  }

  lemma IntentsDistinct(t: Tables, p: Proposal)
    requires DistinctOrders(t.orders) && FreshIds(LegIds(p.legs), OrderIds(t.orders))
    ensures DistinctOrders(t.orders + IntentRows(p))
  {
    var rows := IntentRows(p);
    forall i, j | 0 <= i < j < |rows| ensures rows[i].id != rows[j].id {
      assert LegIds(p.legs)[i] != LegIds(p.legs)[j];
    }
    forall i, j | 0 <= i < |t.orders| && 0 <= j < |rows| ensures t.orders[i].id != rows[j].id {
      assert LegIds(p.legs)[j] in LegIds(p.legs) && OrderIds(t.orders)[i] in OrderIds(t.orders);
    }
  }

  lemma BackedByCapacity(t: Tables, b: Tables, p: Proposal, now: Instant)
    requires CapacityInv(t) && !Started(t, p.proposalId) && LegsOf(t, p.proposalId) == p.legs
    requires HasCapacity(t, p.proposalId) || !Automatic(t, p.proposalId)
    requires b == if HasCapacity(t, p.proposalId) then t else PersistReservations(t, p, now)
    ensures UniqueActive(b.reservations) && Pristine(b, p.proposalId)
    ensures forall other | other != p.proposalId ::
              && (Accounted(t, other) ==> Accounted(b, other))
              && (Waiting(t, other) ==> Waiting(b, other))
  {
    hide NewRows, Accounted, Pristine;
    assert Waiting(t, p.proposalId);
    if !HasCapacity(t, p.proposalId) {
      AppendUnique(t.reservations, p, |t.reservations|);
      ReservedIsPristine(t, b, p);
      forall other | other != p.proposalId
        ensures Accounted(t, other) ==> Accounted(b, other)
        ensures Waiting(t, other) ==> Waiting(b, other)
      {
        AppendKeepsOther(t, b, p, other);
      }
    }
  }

  lemma NoLegsNoRows(p: Proposal, nextId: nat)
    requires p.legs == []
    ensures NewRows(p, nextId) == [] && IntentRows(p) == []
  {
  }

  /** Writing the intents of a proposal keeps the invariant. */
  lemma WriteIntentsKeeps(t: Tables, p: Proposal, now: Instant)
    requires CapacityInv(t) && !Started(t, p.proposalId) && LegsOf(t, p.proposalId) == p.legs
    requires HasCapacity(t, p.proposalId) || !Automatic(t, p.proposalId)
    ensures CapacityInv(WriteIntents(t, p, now))
  {
    hide NewRows, Accounted, Pristine;
    var pid := p.proposalId;
    if FreshIds(LegIds(p.legs), OrderIds(t.orders)) {
      var b := if HasCapacity(t, pid) then t else PersistReservations(t, p, now);
      var u := WriteIntents(t, p, now);
      BackedByCapacity(t, b, p, now);
      IntentsDistinct(t, p);
      assert AddsIntents(b, u, p);
      forall other
        ensures Started(u, other) ==> Accounted(u, other)
        ensures !Started(u, other) ==> Waiting(u, other)
      {
        if other != pid {
          IntentsElsewhere(b, u, p, other);
          IntentsKeepOther(b, u, p, other);
          assert Started(t, other) <==> Started(u, other);
        } else if p.legs != [] {
          IntentsAccounted(b, u, p);
        } else {
          NoLegsNoRows(p, |t.reservations|);
          assert u.orders == t.orders && u.reservations == t.reservations;
          assert Waiting(t, pid);
          EmptyStart(t, u, pid);
        }
      }
    }
  }

  lemma EmptyStart(t: Tables, u: Tables, pid: string)
    requires u.proposals == t.proposals && u.orders == t.orders && u.reservations == t.reservations
    requires !Started(t, pid) && Waiting(t, pid)
    ensures !Started(u, pid) && Waiting(u, pid)
  {
    assert forall s :: ReservedSell(u, pid, s) == ReservedSell(t, pid, s);
  }
}
