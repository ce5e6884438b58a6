/** The store: tables as fields that transactions reassign (backend/opaca/persistence/store.py),
    and the transactions of the execution path as methods. Each method leaves exactly the
    tables that its specification in Sync and Execution computes from the old ones, and the
    transactions keep the books. */
module Store {
  import opened Authority
  import opened Calendar
  import opened Capacity
  import opened Compare
  import opened Decision
  import opened Domain
  import opened Execution
  import LedgerSteps
  import opened Orchestration
  import opened Reconcile
  import opened Records
  import opened Results
  import opened States
  import opened Sums
  import opened Sync
  import opened Tables
  import opened Unresolved

  /** The WHERE clause of the reservation updates. */
  predicate Selects(r: Reservation, pid: string, kind: ReservationKind, symbol: Option<Symbol>, id: Option<OrderId>) {
    && r.active && r.proposalId == pid && r.kind == kind
    && (symbol.Some? ==> r.symbol == symbol) && (id.Some? ==> r.clientOrderId == id)
  }

  // ---- the stages of a sync ----

  function SellStage(t: Tables, pid: string, done: set<Symbol>, r: Reservation): Reservation {
    if r.active && r.proposalId == pid && r.kind.SellQuantity? && r.symbol.Some? && r.symbol.value in done
    then ResizedSell(r, SellRemaining(t, pid, r.symbol.value)) else r
  }

  function CashStage(t: Tables, pid: string, r: Reservation): Reservation {
    if IsCashRow(r, pid) then ResizedCash(r, CashRemaining(t, pid)) else r
  }

  function IdentityStage(t: Tables, pid: string, upTo: nat, r: Reservation): Reservation
    requires upTo <= |t.orders|
  {
    if r.active && r.proposalId == pid && r.kind.OrderIdentity? && r.clientOrderId.Some?
       && (exists o <- t.orders[..upTo] :: o.proposalId == pid && o.id == r.clientOrderId.value && o.state.IsTerminal())
    then Released(r) else r
  }

  lemma StagesAreAdjusted(t: Tables, pid: string, tracked: set<Symbol>, r: Reservation)
    requires forall s :: s in tracked <==> SellTracked(t, pid, s)
    ensures IdentityStage(t, pid, |t.orders|, CashStage(t, pid, SellStage(t, pid, tracked, r))) == Adjusted(t, pid, r)
  {
    hide SellTracked, SellRemaining, CashRemaining;
    assert t.orders[..|t.orders|] == t.orders;
  }

  class Store {
    var proposals: seq<ProposalRow>
    var reservations: seq<Reservation>
    var orders: seq<ExecutionOrder>
    var unknown: seq<UnknownOrder>
    var events: seq<SettlementEvent>
    var history: seq<AutonomousExecution>
    var snapshot: Option<Snapshot>

    function Rows(): Tables
      reads this
    {
      Tables(proposals, reservations, orders, unknown, events, history, snapshot)
    }

    constructor ()
      ensures Rows() == Tables([], [], [], [], [], [], None)
    {
      proposals, reservations, orders, unknown, events, history, snapshot := [], [], [], [], [], [], None;
    }

    /** ROLLBACK */
    method Restore(t: Tables)
      modifies this
      ensures Rows() == t
    {
      proposals, reservations, orders := t.proposals, t.reservations, t.orders;
      unknown, events, history, snapshot := t.unknown, t.events, t.history, t.snapshot;
    }

    // ---- reservations ----

    /** `release_active_reservations` */
    method ReleaseActive(pid: string, kind: ReservationKind, symbol: Option<Symbol>, id: Option<OrderId>)
      modifies this`reservations
      ensures |reservations| == |old(reservations)|
      ensures forall i | 0 <= i < |reservations| ::
                reservations[i] == if Selects(old(reservations)[i], pid, kind, symbol, id)
                                   then Released(old(reservations)[i]) else old(reservations)[i]
    {
      for i := 0 to |reservations|
        invariant |reservations| == |old(reservations)|
        invariant forall k | 0 <= k < i ::
                    reservations[k] == if Selects(old(reservations)[k], pid, kind, symbol, id)
                                       then Released(old(reservations)[k]) else old(reservations)[k]
        invariant forall k | i <= k < |reservations| :: reservations[k] == old(reservations)[k]
      {
        if Selects(reservations[i], pid, kind, symbol, id) {
          reservations := reservations[i := Released(reservations[i])];
        }
      }
    }

    /** `resize_active_reservation`: the first row selected; the unique indexes make it the
        only one. */
    method ResizeActive(pid: string, kind: ReservationKind, symbol: Option<Symbol>, quantity: Option<real>, amount: Option<real>)
      requires quantity.Some? ==> quantity.value >= 0.0
      requires amount.Some? ==> amount.value >= 0.0
      requires forall i, j | 0 <= i < j < |reservations| ::
                 !(Selects(reservations[i], pid, kind, symbol, None) && Selects(reservations[j], pid, kind, symbol, None))
      modifies this`reservations
      ensures |reservations| == |old(reservations)|
      ensures forall i | 0 <= i < |reservations| ::
                reservations[i] == if Selects(old(reservations)[i], pid, kind, symbol, None)
                                   then old(reservations)[i].(quantity := quantity, amount := amount)
                                   else old(reservations)[i]
    {
      for i := 0 to |reservations|
        invariant reservations == old(reservations)
        invariant forall k | 0 <= k < i :: !Selects(reservations[k], pid, kind, symbol, None)
      {
        if Selects(reservations[i], pid, kind, symbol, None) {
          reservations := reservations[i := reservations[i].(quantity := quantity, amount := amount)];
          return;
        }
      }
    }

    /** The accumulating loops of `sync_proposal_reservations`. */
    method AccumulateRemaining(pid: string) returns (sells: map<Symbol, real>, cash: real)
      ensures forall s :: Get(sells, s) == SellRemaining(Rows(), pid, s)
      ensures forall s :: s in sells <==> SellTracked(Rows(), pid, s)
      ensures cash == CashRemaining(Rows(), pid)
    {
      hide SumBy, Executed;
      NothingUnsent(orders, pid);
      var fromOrders, orderCash := AccumulateOrders(pid);
      sells, cash := fromOrders, orderCash;
      var legs := LegsOf(Rows(), pid);
      for i := 0 to |legs|
        invariant forall s :: Get(sells, s) == SumBy(orders, OpenSellOf(pid, s)) + SumBy(legs[..i], UnsentSellOf(orders, pid, s))
        invariant forall s :: s in sells <==> s in fromOrders || UnsentSells(legs[..i], orders, pid, s)
        invariant cash == orderCash + SumBy(legs[..i], UnsentBuyOf(orders, pid))
      {
        var l := legs[i];
        ghost var before := sells;
        assert legs[..i + 1] == legs[..i] + [l];
        SumSnoc<Leg>(legs[..i], l, UnsentBuyOf(orders, pid));
        if !Executed(orders, pid, l.clientOrderId) {
          if l.side.Sell? {
            sells := sells[l.symbol := Get(sells, l.symbol) + l.quantity];
          } else {
            cash := cash + Notional(l);
          }
        }
        forall s
          ensures Get(sells, s) == SumBy(orders, OpenSellOf(pid, s)) + SumBy(legs[..i + 1], UnsentSellOf(orders, pid, s))
          ensures s in sells <==> s in fromOrders || UnsentSells(legs[..i + 1], orders, pid, s)
        {
          SumSnoc<Leg>(legs[..i], l, UnsentSellOf(orders, pid, s));
          UnsentSellsSnoc(legs, i, orders, pid, s);
          assert Get(before, s) == SumBy(orders, OpenSellOf(pid, s)) + SumBy(legs[..i], UnsentSellOf(orders, pid, s));
        }
      }
      assert legs[..|legs|] == legs;
    }

    method AccumulateOrders(pid: string) returns (sells: map<Symbol, real>, cash: real)
      ensures forall s :: Get(sells, s) == SumBy(orders, OpenSellOf(pid, s))
      ensures forall s :: s in sells <==> SellsIn(orders, pid, s)
      ensures cash == SumBy(orders, OpenBuyOf(pid))
    {
      hide SumBy, SellsIn, BudgetOf;
      sells, cash := map[], 0.0;
      NoOrdersYet(pid);
      for i := 0 to |orders|
        invariant forall s :: Get(sells, s) == SumBy(orders[..i], OpenSellOf(pid, s))
        invariant forall s :: s in sells <==> SellsIn(orders[..i], pid, s)
        invariant cash == SumBy(orders[..i], OpenBuyOf(pid))
      {
        var o := orders[i];
        ghost var before := sells;
        assert orders[..i + 1] == orders[..i] + [o];
        SumSnoc<ExecutionOrder>(orders[..i], o, OpenBuyOf(pid));
        if o.proposalId == pid {
          var remainder := if o.state.IsTerminal() then 0.0 else o.remaining;
          if o.side.Sell? {
            sells := sells[o.symbol := Get(sells, o.symbol) + remainder];
          } else {
            cash := cash + BudgetOf(remainder, o.referencePrice);
          }
        }
        forall s
          ensures Get(sells, s) == SumBy(orders[..i + 1], OpenSellOf(pid, s))
        {
          SumSnoc<ExecutionOrder>(orders[..i], o, OpenSellOf(pid, s));
          assert Get(before, s) == SumBy(orders[..i], OpenSellOf(pid, s));
        }
        forall s ensures s in sells <==> SellsIn(orders[..i + 1], pid, s) {
          SellsInSnoc(orders, i, pid, s);
        }
      }
      assert orders[..|orders|] == orders;
    }

    /** Each symbol's SELL row is resized or released. */
    method ResizeSells(pid: string, sells: map<Symbol, real>)
      requires UniqueActive(reservations)
      requires forall s <- sells :: sells[s] == SellRemaining(Rows(), pid, s)
      modifies this`reservations
      ensures |reservations| == |old(reservations)| && UniqueActive(reservations)
      ensures forall i | 0 <= i < |reservations| ::
                reservations[i] == SellStage(old(Rows()), pid, sells.Keys, old(reservations)[i])
    {
      ghost var t := Rows();
      var rest := sells.Keys;
      while rest != {}
        invariant rest <= sells.Keys && |reservations| == |t.reservations|
        invariant forall i | 0 <= i < |reservations| ::
                    reservations[i] == SellStage(t, pid, sells.Keys - rest, t.reservations[i])
        decreases rest
      {
        var s :| s in rest;
        ghost var done, before := sells.Keys - rest, reservations;
        StageKeepsUnique(t, pid, done, reservations);
        SellRowUnique(reservations, pid, s);
        RemainingNonNegative(t, pid, s);
        if sells[s] <= 0.0 {
          ReleaseActive(pid, SellQuantity, Some(s), None);
        } else {
          ResizeActive(pid, SellQuantity, Some(s), Some(sells[s]), None);
        }
        rest := rest - {s};
        assert sells.Keys - rest == done + {s};
        forall i | 0 <= i < |reservations|
          ensures reservations[i] == SellStage(t, pid, done + {s}, t.reservations[i])
        {
          SellStageStep(t, pid, done, s, t.reservations[i]);
        }
      }
      assert sells.Keys - rest == sells.Keys;
      StageKeepsUnique(t, pid, sells.Keys, reservations);
    }

    /** `sync_proposal_reservations` */
    method SyncProposalReservations(pid: string)
      requires UniqueActive(reservations)
      modifies this`reservations
      ensures Rows() == SyncProposal(old(Rows()), pid)
    {
      hide SellTracked, SellRemaining, CashRemaining, Adjusted, IdentityStage;
      ghost var t := Rows();
      if !(exists o <- orders :: o.proposalId == pid) {
        return;
      }
      if exists o <- orders :: o.proposalId == pid && o.state.IsUncertain() {
        return;
      }
      var sells, cash := AccumulateRemaining(pid);
      ResizeSells(pid, sells);
      ghost var sold := reservations;
      CashRowUnique(reservations, pid);
      if cash <= 0.0 {
        ReleaseActive(pid, CashDeployment, None, None);
      } else {
        ResizeActive(pid, CashDeployment, None, None, Some(cash));
      }
      assert forall i | 0 <= i < |sold| :: reservations[i] == CashStage(t, pid, sold[i]);
      ReleaseIdentities(pid, t);
      forall i | 0 <= i < |reservations| ensures reservations[i] == AdjustedRows(t, pid)[i] {
        StagesAreAdjusted(t, pid, sells.Keys, t.reservations[i]);
      }
      assert reservations == AdjustedRows(t, pid);
    }

    /** The last loop of the sync: identities of terminal orders are released. */
    method ReleaseIdentities(pid: string, ghost t: Tables)
      requires t.orders == orders
      modifies this`reservations
      ensures |reservations| == |old(reservations)|
      ensures forall i | 0 <= i < |reservations| ::
                reservations[i] == IdentityStage(t, pid, |t.orders|, old(reservations)[i])
    {
      for k := 0 to |orders|
        invariant |reservations| == |old(reservations)|
        invariant forall i | 0 <= i < |reservations| :: reservations[i] == IdentityStage(t, pid, k, old(reservations)[i])
      {
        ghost var before := reservations;
        assert orders[..k + 1] == orders[..k] + [orders[k]];
        if orders[k].proposalId == pid && orders[k].state.IsTerminal() {
          ReleaseActive(pid, OrderIdentity, None, Some(orders[k].id));
        }
        forall i | 0 <= i < |reservations| ensures reservations[i] == IdentityStage(t, pid, k + 1, old(reservations)[i]) {
          IdentityStageStep(t, pid, k, old(reservations)[i]);
        }
      }
    }

    // ---- order transactions ----

    /** `_record_sell_settlement` */
    method RecordSellSettlement(i: nat, now: Instant, cal: TradingCalendar) returns (ok: bool)
      requires i < |orders|
      modifies this`events, this`orders
      ensures ok == SettleSale(old(Rows()), i, now, cal).Ok?
      ensures ok ==> Rows() == SettleSale(old(Rows()), i, now, cal).value
    {
      var o := orders[i];
      if !o.side.Sell? || o.filled <= 0.0 {
        return true;
      }
      var proceeds := FilledProceeds(o);
      var increment := proceeds - o.settledProceeds;
      if increment <= 0.0 || HasEvent(events, FillKey(o.id, o.filled)) {
        return true;
      }
      var settlement := AddTradingDays(cal, DateOf(now), 1);
      if settlement.Err? {
        return false;
      }
      SettlementAfterTrade(cal, DateOf(now));
      events := events + [SettlementEvent(FillKey(o.id, o.filled), o.symbol, DateOf(now), settlement.value, increment)];
      orders := orders[i := o.(settledProceeds := proceeds)];
      return true;
    }

    /** The row update of `_acknowledge_payload` and `_sync_leg_from_broker`: a SUBMITTING
        order that turns out FILLED passes through SUBMITTED. */
    method WriteReport(i: nat, channel: Channel, report: Report) returns (ok: bool)
      requires i < |orders|
      modifies this`orders
      ensures ok == Reported(channel, old(orders)[i], report).Ok?
      ensures orders == if ok then old(orders)[i := Reported(channel, old(orders)[i], report).value] else old(orders)
      ensures ok ==> Continues(old(orders)[i], orders[i]) && MayBecome(old(orders)[i].state, orders[i].state)
    {
      var saved := orders;
      var current: ExecutionOrder, target := orders[i], MapBrokerStatus(report.status);
      var filled := FilledBy(channel, current, report);
      if current.state.Submitting? && target.Filled? {
        var known := if channel.Lookup? && report.brokerOrderId.None? then current.brokerOrderId else report.brokerOrderId;
        current := current.(state := ExecutionState.Submitted, brokerOrderId := known);
        orders := orders[i := current];
      }
      if !MayBecome(current.state, target) || filled > current.quantity {
        orders := saved;
        return false;
      }
      current := current.(state := target, filled := filled, remaining := current.quantity - filled,
                          brokerOrderId := if report.brokerOrderId.Some? then report.brokerOrderId else current.brokerOrderId,
                          filledAvgPrice := AveragePrice(current, report, filled));
      orders := orders[i := current];
      return true;
    }

    /** `_acknowledge_payload`, and `_sync_leg_from_broker` on an order that was found. */
    method TakeReport(id: OrderId, channel: Channel, report: Report, now: Instant, cal: TradingCalendar) returns (ok: bool)
      requires UniqueActive(reservations)
      modifies this
      ensures Rows() == ApplyReport(old(Rows()), id, channel, report, now, cal)
      ensures LedgerSteps.BooksInv(old(Rows())) && LedgerSteps.NoFallingFill(old(Rows()), LedgerSteps.TakeReport(id, channel, report, now))
              ==> LedgerSteps.BooksInv(Rows())
    {
      hide SettleSale, SyncProposal, Reported, LedgerSteps.BooksInv, LedgerSteps.NoFallingFill;
      ghost var step := LedgerSteps.TakeReport(id, channel, report, now);
      if LedgerSteps.BooksInv(Rows()) && LedgerSteps.NoFallingFill(Rows(), step) {
        LedgerSteps.OrderStepKeeps(Rows(), cal, step);
      }
      var index := IndexOf(orders, id);
      if index.None? {
        return false;
      }
      var saved, i := Rows(), index.value;
      ok := WriteReport(i, channel, report);
      if !ok {
        return false;
      }
      if orders[i].filled > saved.orders[i].filled {
        ok := RecordSellSettlement(i, now, cal);
        if !ok {
          Restore(saved);
          return false;
        }
      }
      SyncProposalReservations(saved.orders[i].proposalId);
    }

    /** `upsert_unknown_order` */
    method UpsertUnknownOrder(row: UnknownOrder)
      modifies this`unknown
      ensures unknown == UpsertUnknown(old(unknown), row)
    {
      for i := 0 to |unknown|
        invariant unknown == old(unknown)
        invariant forall k | 0 <= k < i :: unknown[k].clientOrderId != row.clientOrderId
      {
        if unknown[i].clientOrderId == row.clientOrderId {
          UpsertFinds(unknown, i, row);
          unknown := unknown[i := unknown[i].(state := row.state, quantity := row.quantity, filled := row.filled)];
          return;
        }
      }
      UpsertMisses(unknown, row);
      unknown := unknown + [row];
    }

    /** The transaction after a timeout, or after a lookup that found nothing. */
    method MarkUnknown(id: OrderId)
      modifies this
      ensures Rows() == LoseTrack(old(Rows()), id)
    {
      var index := IndexOf(orders, id);
      if index.None? || !MayBecome(orders[index.value].state, ExecutionState.Unknown) {
        return;
      }
      var o: ExecutionOrder := orders[index.value].(state := ExecutionState.Unknown);
      orders := orders[index.value := o];
      UpsertUnknownOrder(UnknownRowOf(o));
    }

    /** First transaction of `cancel_remaining`. */
    method MarkCancelPending(id: OrderId)
      modifies this`orders
      ensures Rows() == RequestCancel(old(Rows()), id)
      ensures LedgerSteps.BooksInv(old(Rows())) ==> LedgerSteps.BooksInv(Rows())
    {
      hide LedgerSteps.BooksInv;
      if LedgerSteps.BooksInv(Rows()) {
        LedgerSteps.OrderStepKeeps(Rows(), Static({}), LedgerSteps.Cancel(id));
      }
      var index := IndexOf(orders, id);
      if index.None? {
        return;
      }
      var o := orders[index.value];
      if o.state.Unknown? || o.state.Submitting? || o.state.IsTerminal() || o.brokerOrderId.None? {
        return;
      }
      if MayBecome(o.state, ExecutionState.CancelPending) {
        orders := orders[index.value := o.(state := ExecutionState.CancelPending)];
      }
    }

    /** `_mark_not_submitted` */
    method MarkOrderNotSubmitted(id: OrderId)
      requires UniqueActive(reservations)
      modifies this
      ensures Rows() == MarkNotSubmitted(old(Rows()), id)
    {
      var index := IndexOf(orders, id);
      if index.None? || orders[index.value].state.NotSubmitted? {
        return;
      }
      var o := orders[index.value];
      if !o.state.Submitting? || o.brokerOrderId.Some? {
        return;
      }
      orders := orders[index.value := o.(state := ExecutionState.NotSubmitted)];
      SyncProposalReservations(o.proposalId);
    }

    /** `_abort_unsent_legs` */
    method AbortUnsentLegs(pid: string, attempted: set<OrderId>)
      requires UniqueActive(reservations)
      modifies this
      ensures Rows() == AbortUnsent(old(Rows()), pid, attempted)
    {
      hide SyncProposal;
      ghost var t := Rows();
      var changed := false;
      for i := 0 to |orders|
        invariant Rows() == t.(orders := orders) && |orders| == |t.orders|
        invariant changed <==> exists k | 0 <= k < i :: Aborts(t.orders[k], pid, attempted)
        invariant forall k | 0 <= k < i :: orders[k] == AbortedOrders(t.orders, pid, attempted)[k]
        invariant forall k | i <= k < |orders| :: orders[k] == t.orders[k]
      {
        var o := orders[i];
        if o.proposalId == pid && o.id !in attempted && o.state.Submitting? && o.brokerOrderId.None? {
          assert Aborts(t.orders[i], pid, attempted);
          orders := orders[i := o.(state := ExecutionState.NotSubmitted)];
          changed := true;
        }
      }
      assert orders == AbortedOrders(t.orders, pid, attempted);
      if changed {
        assert exists o <- t.orders :: Aborts(o, pid, attempted);
        SyncProposalReservations(pid);
      } else {
        assert orders == t.orders;
        forall o <- t.orders ensures !Aborts(o, pid, attempted) {
          var k :| 0 <= k < |t.orders| && t.orders[k] == o;
        }
      }
    }

    /** `stamp_reconciled_fills` */
    method StampReconciledFills()
      modifies this`orders
      ensures orders == StampedOrders(old(orders))
    {
      for i := 0 to |orders|
        invariant |orders| == |old(orders)|
        invariant forall k | 0 <= k < i :: orders[k] == StampedOrders(old(orders))[k]
        invariant forall k | i <= k < |orders| :: orders[k] == old(orders)[k]
      {
        orders := orders[i := orders[i].(reconciledFilled := orders[i].filled)];
      }
    }

    // ---- reserving and starting ----

    /** Totals by symbol, with the order id of the last sell leg of each. */
    method CollectSells(p: Proposal) returns (symbols: seq<Symbol>, quantity: map<Symbol, real>, last: map<Symbol, OrderId>)
      ensures symbols == SoldSymbols(p.legs)
      ensures forall s <- symbols :: s in quantity && quantity[s] == p.SellQuantity(s)
      ensures forall s <- symbols :: s in last && LastSellId(p.legs, s) == Some(last[s])
    {
      symbols, quantity, last := [], map[], map[];
      for i := 0 to |p.legs|
        invariant symbols == SoldSymbols(p.legs[..i])
        invariant forall s :: Get(quantity, s) == SumBy(p.legs[..i], SellQuantityOf(s))
        invariant forall s :: s in symbols <==> s in quantity
        invariant forall s <- symbols :: s in last && LastSellId(p.legs[..i], s) == Some(last[s])
      {
        var l := p.legs[i];
        ghost var before := quantity;
        assert p.legs[..i + 1][..i] == p.legs[..i] && p.legs[..i + 1] == p.legs[..i] + [l];
        if l.side.Sell? {
          if l.symbol !in quantity {
            symbols := symbols + [l.symbol];
          }
          quantity := quantity[l.symbol := Get(quantity, l.symbol) + l.quantity];
          last := last[l.symbol := l.clientOrderId];
        }
        forall s ensures Get(quantity, s) == SumBy(p.legs[..i + 1], SellQuantityOf(s)) {
          SumSnoc<Leg>(p.legs[..i], l, SellQuantityOf(s));
          assert Get(before, s) == SumBy(p.legs[..i], SellQuantityOf(s));
        }
      }
      assert p.legs[..|p.legs|] == p.legs;
    }

    method InsertSellRows(p: Proposal)
      modifies this`reservations
      ensures reservations == old(reservations) + SellRows(p, SoldSymbols(p.legs), |old(reservations)|)
    {
      hide SumBy, SoldSymbols, LastSellId;
      ghost var before := reservations;
      var nextId := |reservations|;
      var symbols, quantity, last := CollectSells(p);
      for i := 0 to |symbols|
        invariant reservations == before + SellRows(p, symbols, nextId)[..i]
      {
        var s := symbols[i];
        assert s in symbols;
        SellQuantityNonNegative(p, s);
        assert SellRows(p, symbols, nextId)[i] == SellRow(p, s, nextId + i);
        reservations := reservations
          + [Reservation(nextId + i, p.proposalId, SellQuantity, Some(s), Some(quantity[s]), None, Some(last[s]), true)];
      }
    }

    method InsertIdentityRows(p: Proposal)
      modifies this`reservations
      ensures reservations == old(reservations) + IdentityRows(p, |old(reservations)|)
    {
      ghost var before := reservations;
      var nextId := |reservations|;
      for i := 0 to |p.legs|
        invariant reservations == before + IdentityRows(p, nextId)[..i]
      {
        var l := p.legs[i];
        reservations := reservations
          + [Reservation(nextId + i, p.proposalId, OrderIdentity, Some(l.symbol), None, None, Some(l.clientOrderId), true)];
      }
    }

    /** `persist_reservations` */
    method InsertReservations(p: Proposal, now: Instant)
      modifies this`reservations, this`history
      ensures Rows() == PersistReservations(old(Rows()), p, now)
    {
      hide SellRows, IdentityRows, AggregateNotional, SumBy;
      ghost var before := reservations;
      InsertSellRows(p);
      var buys, nextId := p.TotalBuyNotional(), |reservations|;
      if buys > 0.0 {
        reservations := reservations + [Reservation(nextId, p.proposalId, CashDeployment, None, None, Some(buys), None, true)];
      }
      InsertIdentityRows(p);
      history := history + [AutonomousExecution(p.proposalId, now, AggregateNotional(p))];
      assert reservations == before + NewRows(p, |before|);
    }

    /** The insert loop of `_persist_submission_intents`; a primary-key conflict rolls the
        whole transaction back, new reservations included. */
    method InsertIntents(p: Proposal, now: Instant) returns (ok: bool)
      modifies this
      ensures Rows() == WriteIntents(old(Rows()), p, now)
    {
      hide NewRows;
      var saved := Rows();
      if !HasCapacity(saved, p.proposalId) {
        InsertReservations(p, now);
      }
      for i := 0 to |p.legs|
        invariant var backed := if HasCapacity(saved, p.proposalId) then saved else PersistReservations(saved, p, now);
                  Rows() == backed.(orders := orders)
        invariant orders == saved.orders + IntentRows(p)[..i]
        invariant forall k | 0 <= k < i :: p.legs[k].clientOrderId !in OrderIds(saved.orders)
        invariant forall j, k | 0 <= j < k < i :: p.legs[j].clientOrderId != p.legs[k].clientOrderId
      {
        if IndexOf(orders, p.legs[i].clientOrderId).Some? {
          TakenId(saved.orders, p, i);
          Restore(saved);
          return false;
        }
        FreeId(saved.orders, p, i);
        orders := orders + [IntentRow(p.legs[i], p.proposalId)];
      }
      assert FreshIds(LegIds(p.legs), OrderIds(saved.orders));
      assert IntentRows(p)[..|p.legs|] == IntentRows(p);
      return true;
    }

    /** `evaluate_and_reserve` */
    method ReserveProposal(p: Proposal, cfg: Settings, call: Call) returns (outcome: Outcome)
      modifies this
      ensures (Rows(), outcome) == EvaluateAndReserve(old(Rows()), p, cfg, call)
      ensures LedgerSteps.BooksInv(old(Rows())) ==> LedgerSteps.BooksInv(Rows())
    {
      hide DecisionOf, ContextOf, NewRows, IdentityFree, LedgerSteps.BooksInv;
      if LedgerSteps.BooksInv(Rows()) {
        LedgerSteps.ReserveKeepsBooks(Rows(), p, cfg, call);
      }
      var existing := RowOf(proposals, p.proposalId);
      if existing.Some? && existing.value.proposal != p {
        return Blocked(false);
      }
      var usable := SnapshotUsable(Rows(), cfg, call);
      if existing.Some? {
        var row := existing.value;
        if !usable || call.killSwitch || (row.authority.NeedsApproval? && !ApprovalValid(row, call.now)) {
          return Blocked(true);
        }
        return Replayed(row.authority);
      }
      if !usable || !call.quotesUsable {
        return Blocked(false);
      }
      var authority := Decide(p, ContextOf(Rows(), cfg, call, None));
      if !IdentityFree(Rows(), p) {
        return Raised;
      }
      proposals := proposals + [DecidedRow(p, authority, cfg, call, snapshot.value.version)];
      if authority.Auto? {
        InsertReservations(p, call.now);
      }
      return Decided(authority);
    }

    /** `_persist_submission_intents` */
    method StartProposal(p: Proposal, cfg: Settings, call: Call) returns (started: bool)
      modifies this
      ensures Rows() == PersistIntents(old(Rows()), p, cfg, call)
      ensures LedgerSteps.BooksInv(old(Rows())) ==> LedgerSteps.BooksInv(Rows())
    {
      hide DecisionOf, ContextOf, NewRows, WriteIntents, LedgerSteps.BooksInv;
      if LedgerSteps.BooksInv(Rows()) {
        LedgerSteps.StartKeepsBooks(Rows(), p, cfg, call);
      }
      var row := RowOf(proposals, p.proposalId);
      if Started(Rows(), p.proposalId) || row.None? || row.value.proposal != p {
        return false;
      }
      if !SnapshotUsable(Rows(), cfg, call) || call.killSwitch || !call.quotesUsable {
        return false;
      }
      var decision := Decide(p, ContextOf(Rows(), cfg, call, Some(p.proposalId)));
      if decision.Reject? || (decision.NeedsApproval? && !(call.granted && ApprovalValid(row.value, call.now))) {
        return false;
      }
      if !HasCapacity(Rows(), p.proposalId) && row.value.authority.Auto? {
        return false;
      }
      started := InsertIntents(p, call.now);
    }

    // ---- reconciling ----

    /** `_lookup_unknown`, on rows read before the transaction. */
    method LookupUnknown(prior: seq<UnknownOrder>, view: View) returns (rows: seq<UnknownRow>, review: bool)
      ensures rows == ResolvedRows(prior, view)
      ensures review == ReviewRequired(rows)
    {
      hide Resolved;
      rows, review := [], false;
      for i := 0 to |prior|
        invariant rows == ResolvedRows(prior, view)[..i]
        invariant review <==> exists u <- rows :: u.state.UnknownRequiresReview?
      {
        var r := Resolved(prior[i], view);
        ghost var before := rows;
        rows := rows + [r];
        assert r in rows && (forall u <- before :: u in rows) && forall u <- rows :: u in before || u == r;
        if r.state.UnknownRequiresReview? {
          review := true;
        }
      }
      assert ResolvedRows(prior, view)[..|prior|] == ResolvedRows(prior, view);
    }

    /** The upsert loop at the head of the transaction. */
    method UpsertResolved(resolved: seq<UnknownRow>)
      requires forall i | 0 <= i < |resolved| :: !ContradictoryPair(resolved[i])
      modifies this`unknown
      ensures unknown == UpsertAll(old(unknown), resolved)
    {
      for i := 0 to |resolved|
        invariant unknown == UpsertAll(old(unknown), resolved[..i])
      {
        assert resolved[..i + 1][..i] == resolved[..i];
        UpsertUnknownOrder(resolved[i]);
      }
      assert resolved[..|resolved|] == resolved;
    }

    /** `reconcile`, after one complete read of the broker. `prior` holds the unknown rows as
        they were read before the transaction; other rows may have come since. */
    method ReconcileWith(prior: seq<UnknownOrder>, view: View, now: Instant) returns (r: Reconciliation)
      modifies this
      ensures Rows() == ReconcileTables(old(Rows()), prior, view, now) && r == Judgement(old(Rows()), prior, view, now)
      ensures LedgerSteps.BooksInv(old(Rows())) ==> LedgerSteps.BooksInv(Rows())
    {
      hide VerdictOf, Invalid, UpsertAll, LedgerSteps.BooksInv;
      var t := Rows();
      if LedgerSteps.BooksInv(t) {
        LedgerSteps.ReconcileKeepsBooks(t, prior, view, now);
      }
      var resolved, review := LookupUnknown(prior, view);
      InvalidPairs(t, prior, view, now);
      if exists u <- resolved :: ContradictoryPair(u) {
        return InvalidBrokerState;
      }
      UpsertResolved(resolved);
      var compared := CompareState(InputsOf(t, prior, view, now));
      if compared.Err? {
        Restore(t);
        return InvalidBrokerState;
      }
      var verdict := compared.value.0;
      if review {
        ReviewFlagIsRedundant(t, prior, view, now);
        verdict := NeedsReview;
      }
      snapshot := Some(NewSnapshot(t, view, now, verdict.Agrees?));
      if verdict.Agrees? {
        StampReconciledFills();
      }
      return Judged(verdict);
    }
  }

  // ---- primary keys and broker rows ----

  lemma TakenId(taken: seq<ExecutionOrder>, p: Proposal, i: nat)
    requires i < |p.legs| && IndexOf(taken + IntentRows(p)[..i], p.legs[i].clientOrderId).Some?
    ensures !FreshIds(LegIds(p.legs), OrderIds(taken))
  {
    var k := IndexOf(taken + IntentRows(p)[..i], p.legs[i].clientOrderId).value;
    assert LegIds(p.legs)[i] in LegIds(p.legs);
    if k < |taken| {
      assert OrderIds(taken)[k] in OrderIds(taken);
    } else {
      assert LegIds(p.legs)[k - |taken|] == LegIds(p.legs)[i];
    }
  }

  lemma FreeId(taken: seq<ExecutionOrder>, p: Proposal, i: nat)
    requires i < |p.legs| && IndexOf(taken + IntentRows(p)[..i], p.legs[i].clientOrderId).None?
    ensures p.legs[i].clientOrderId !in OrderIds(taken)
    ensures forall j | 0 <= j < i :: p.legs[j].clientOrderId != p.legs[i].clientOrderId
  {
    var all := taken + IntentRows(p)[..i];
    forall k | 0 <= k < |taken| ensures OrderIds(taken)[k] != p.legs[i].clientOrderId {
      assert all[k] in all;
    }
    forall j | 0 <= j < i ensures p.legs[j].clientOrderId != p.legs[i].clientOrderId {
      assert all[|taken| + j] in all;
    }
  }

  lemma {:induction false} UpsertFinds(rows: seq<UnknownOrder>, i: nat, row: UnknownOrder)
    requires i < |rows| && rows[i].clientOrderId == row.clientOrderId
    requires forall k | 0 <= k < i :: rows[k].clientOrderId != row.clientOrderId
    ensures UpsertUnknown(rows, row)
         == rows[i := rows[i].(state := row.state, quantity := row.quantity, filled := row.filled)]
  {
    if i > 0 {
      assert forall k | 0 <= k < i - 1 :: rows[1..][k] == rows[k + 1];
      UpsertFinds(rows[1..], i - 1, row);
    }
  }

  lemma {:induction false} UpsertMisses(rows: seq<UnknownOrder>, row: UnknownOrder)
    requires forall k | 0 <= k < |rows| :: rows[k].clientOrderId != row.clientOrderId
    ensures UpsertUnknown(rows, row) == rows + [row]
  {
    if rows != [] {
      assert forall k | 0 <= k < |rows| - 1 :: rows[1..][k] == rows[k + 1];
      UpsertMisses(rows[1..], row);
    }
  }

  // ---- steps of the loops ----

  predicate SellsIn(orders: seq<ExecutionOrder>, pid: string, s: Symbol) {
    exists o <- orders :: o.proposalId == pid && o.side.Sell? && o.symbol == s
  }

  predicate UnsentSells(legs: seq<Leg>, orders: seq<ExecutionOrder>, pid: string, s: Symbol) {
    exists l <- legs :: l.side.Sell? && l.symbol == s && !Executed(orders, pid, l.clientOrderId)
  }

  lemma NothingUnsent(orders: seq<ExecutionOrder>, pid: string)
    ensures forall s :: SumBy<Leg>([], UnsentSellOf(orders, pid, s)) == 0.0 && !UnsentSells([], orders, pid, s)
    ensures SumBy<Leg>([], UnsentBuyOf(orders, pid)) == 0.0
  {
  }

  lemma NoOrdersYet(pid: string)
    ensures forall s :: SumBy<ExecutionOrder>([], OpenSellOf(pid, s)) == 0.0 && !SellsIn([], pid, s)
    ensures SumBy<ExecutionOrder>([], OpenBuyOf(pid)) == 0.0
  {
  }

  lemma SellsInSnoc(orders: seq<ExecutionOrder>, i: nat, pid: string, s: Symbol)
    requires i < |orders|
    ensures SellsIn(orders[..i + 1], pid, s)
       <==> SellsIn(orders[..i], pid, s) || (orders[i].proposalId == pid && orders[i].side.Sell? && orders[i].symbol == s)
  {
    var a, o := orders[..i], orders[i];
    assert orders[..i + 1] == a + [o];
    assert o in a + [o] && forall q <- a :: q in a + [o];
    assert forall q <- a + [o] :: q in a || q == o;
  }

  lemma UnsentSellsSnoc(legs: seq<Leg>, i: nat, orders: seq<ExecutionOrder>, pid: string, s: Symbol)
    requires i < |legs|
    ensures UnsentSells(legs[..i + 1], orders, pid, s)
       <==> UnsentSells(legs[..i], orders, pid, s)
            || (legs[i].side.Sell? && legs[i].symbol == s && !Executed(orders, pid, legs[i].clientOrderId))
  {
    hide Executed;
    var a, l := legs[..i], legs[i];
    assert legs[..i + 1] == a + [l];
    assert l in a + [l] && forall q <- a :: q in a + [l];
    assert forall q <- a + [l] :: q in a || q == l;
  }

  lemma SellStageStep(t: Tables, pid: string, done: set<Symbol>, s: Symbol, r: Reservation)
    requires s !in done
    ensures var staged := SellStage(t, pid, done, r);
            SellStage(t, pid, done + {s}, r)
            == if Selects(staged, pid, ReservationKind.SellQuantity, Some(s), None)
               then ResizedSell(staged, SellRemaining(t, pid, s)) else staged
  {
    hide SellRemaining;
  }

  lemma StageKeepsUnique(t: Tables, pid: string, done: set<Symbol>, rs: seq<Reservation>)
    requires UniqueActive(t.reservations) && |rs| == |t.reservations|
    requires forall i | 0 <= i < |rs| :: rs[i] == SellStage(t, pid, done, t.reservations[i])
    ensures UniqueActive(rs)
  {
    hide SellRemaining;
    FewerKeysStayUnique(t.reservations, rs);
  }

  lemma SellRowUnique(rs: seq<Reservation>, pid: string, s: Symbol)
    requires UniqueActive(rs)
    ensures forall i, j | 0 <= i < j < |rs| ::
              !(Selects(rs[i], pid, ReservationKind.SellQuantity, Some(s), None)
                && Selects(rs[j], pid, ReservationKind.SellQuantity, Some(s), None))
  {
    forall i, j | 0 <= i < j < |rs|
      ensures !(Selects(rs[i], pid, ReservationKind.SellQuantity, Some(s), None)
                && Selects(rs[j], pid, ReservationKind.SellQuantity, Some(s), None))
    {
      assert KeyOf(rs[i]) == KeyOf(rs[j]) ==> KeyOf(rs[i]).Unindexed?;
    }
  }

  lemma CashRowUnique(rs: seq<Reservation>, pid: string)
    requires UniqueActive(rs)
    ensures forall i, j | 0 <= i < j < |rs| ::
              !(Selects(rs[i], pid, CashDeployment, None, None) && Selects(rs[j], pid, CashDeployment, None, None))
  {
    forall i, j | 0 <= i < j < |rs|
      ensures !(Selects(rs[i], pid, CashDeployment, None, None) && Selects(rs[j], pid, CashDeployment, None, None))
    {
      assert KeyOf(rs[i]) == KeyOf(rs[j]) ==> KeyOf(rs[i]).Unindexed?;
    }
  }

  lemma IdentityStageStep(t: Tables, pid: string, k: nat, r: Reservation)
    requires k < |t.orders|
    ensures var staged, o := IdentityStage(t, pid, k, r), t.orders[k];
            IdentityStage(t, pid, k + 1, r)
            == if o.proposalId == pid && o.state.IsTerminal() && Selects(staged, pid, OrderIdentity, None, Some(o.id))
               then Released(staged) else staged
  {
    var a, o := t.orders[..k], t.orders[k];
    assert t.orders[..k + 1] == a + [o];
    assert o in a + [o] && forall q <- a :: q in a + [o];
    assert forall q <- a + [o] :: q in a || q == o;
  }
}
