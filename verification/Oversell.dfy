/** Long-only at ledger level: what may still be sold, plus what was sold since the last
    stamp, never exceeds the position of the latest snapshot. */
module Oversell {
  import opened Authority
  import opened Capacity
  import opened CapacitySteps
  import opened Compare
  import opened Decision
  import opened Domain
  import opened Execution
  import opened Guard
  import opened Orchestration
  import opened Reconcile
  import opened Records
  import opened ReserveRuns
  import opened Results
  import opened States
  import opened Sums
  import opened Sync
  import opened Tables
  import opened Unresolved

  /** Sell quantity that an order may still consume. */
  function OpenSellIn(s: Symbol): ExecutionOrder -> real {
    (o: ExecutionOrder) => if o.side.Sell? && o.symbol == s then Open(o) else 0.0
  }

  /** Active SELL quantity of proposals whose orders do not exist yet. */
  function WaitingSellOf(t: Tables, s: Symbol): Reservation -> real {
    (r: Reservation) => if IsActiveSell(r, s) && !Started(t, r.proposalId) then QuantityOf(r) else 0.0
  }

  function Outstanding(t: Tables, s: Symbol): real {
    SumBy(t.orders, OpenSellIn(s)) + SumBy(t.reservations, WaitingSellOf(t, s))
  }

  /** Sells minus buys filled since the last stamp. */
  function NetSold(t: Tables, s: Symbol): real {
    -Explained(t.orders, s)
  }

  ghost predicate NeverOversold(t: Tables) {
    t.snapshot.Some? ==> forall s :: Outstanding(t, s) + NetSold(t, s) <= SnapshotHeld(t, s)
  }

  // ---- active reservations cover everything outstanding ----

  function OrderProposal(): ExecutionOrder -> string {
    (o: ExecutionOrder) => o.proposalId
  }

  lemma {:induction false} DistinctCover(ids: seq<string>) returns (keys: seq<string>)
    ensures Distinct(keys) && forall id :: id in keys <==> id in ids
  {
    if ids == [] {
      keys := [];
    } else {
      var rest := DistinctCover(ids[1..]);
      assert forall id :: id in ids <==> id == ids[0] || id in ids[1..];
      if ids[0] in rest {
        keys := rest;
      } else {
        assert forall i | 0 <= i < |rest| :: rest[i] in rest;
        keys := rest + [ids[0]];
      }
    }
  }

  function ProposalIds(t: Tables): (ids: seq<string>)
    ensures forall o <- t.orders :: o.proposalId in ids
    ensures forall r <- t.reservations :: r.proposalId in ids
  {
    var a := seq(|t.orders|, i requires 0 <= i < |t.orders| => t.orders[i].proposalId);
    var b := seq(|t.reservations|, i requires 0 <= i < |t.reservations| => t.reservations[i].proposalId);
    assert forall o <- t.orders :: o.proposalId in a by {
      forall o <- t.orders ensures o.proposalId in a {
        var i :| 0 <= i < |t.orders| && t.orders[i] == o;
        assert a[i] == o.proposalId;
      }
    }
    assert forall r <- t.reservations :: r.proposalId in b by {
      forall r <- t.reservations ensures r.proposalId in b {
        var i :| 0 <= i < |t.reservations| && t.reservations[i] == r;
        assert b[i] == r.proposalId;
      }
    }
    a + b
  }

  function OpenBy(t: Tables, s: Symbol): string -> real {
    GroupSum<ExecutionOrder, string>(t.orders, OrderProposal(), OpenSellIn(s))
  }

  function WaitingBy(t: Tables, s: Symbol): string -> real {
    GroupSum<Reservation, string>(t.reservations, ProposalOf(), WaitingSellOf(t, s))
  }

  function ActiveBy(t: Tables, s: Symbol): string -> real {
    GroupSum<Reservation, string>(t.reservations, ProposalOf(), ActiveSellOf(s))
  }

  lemma OpenGroup(t: Tables, pid: string, s: Symbol)
    ensures OpenBy(t, s)(pid) == SumBy(t.orders, OpenSellOf(pid, s))
  {
    SumEq<ExecutionOrder>(t.orders, InGroup<ExecutionOrder, string>(OrderProposal(), OpenSellIn(s), pid), OpenSellOf(pid, s));
  }

  lemma ActiveGroup(t: Tables, pid: string, s: Symbol)
    ensures ActiveBy(t, s)(pid) == ReservedSell(t, pid, s)
  {
    SumEq<Reservation>(t.reservations, InGroup<Reservation, string>(ProposalOf(), ActiveSellOf(s), pid), ActiveSellFor(pid, s));
  }

  lemma WaitingGroup(t: Tables, pid: string, s: Symbol)
    ensures WaitingBy(t, s)(pid) == if Started(t, pid) then 0.0 else ReservedSell(t, pid, s)
  {
    var term := InGroup<Reservation, string>(ProposalOf(), WaitingSellOf(t, s), pid);
    if Started(t, pid) {
      SumZero<Reservation>(t.reservations, term);
    } else {
      SumEq<Reservation>(t.reservations, term, ActiveSellFor(pid, s));
    }
  }

  function OpenPlusWaiting(t: Tables, s: Symbol): string -> real {
    (pid: string) => OpenBy(t, s)(pid) + WaitingBy(t, s)(pid)
  }

  lemma ProposalIsCovered(t: Tables, pid: string, s: Symbol)
    requires CapacityInv(t)
    ensures OpenPlusWaiting(t, s)(pid) <= ActiveBy(t, s)(pid)
  {
    OpenGroup(t, pid, s);
    ActiveGroup(t, pid, s);
    WaitingGroup(t, pid, s);
    if Started(t, pid) {
      assert Accounted(t, pid) && Covered(t, pid);
      SumNonNegative(LegsOf(t, pid), UnsentSellOf(t.orders, pid, s));
    } else {
      SumZero(t.orders, OpenSellOf(pid, s));
    }
  }

  /** All that is outstanding is reserved. */
  lemma ReservationsCoverOutstanding(t: Tables, s: Symbol)
    requires CapacityInv(t)
    ensures Outstanding(t, s) <= SumBy(t.reservations, ActiveSellOf(s))
  {
    hide CapacityInv;
    var keys := DistinctCover(ProposalIds(t));
    SumByGroups<ExecutionOrder, string>(t.orders, keys, OrderProposal(), OpenSellIn(s));
    SumByGroups<Reservation, string>(t.reservations, keys, ProposalOf(), WaitingSellOf(t, s));
    SumByGroups<Reservation, string>(t.reservations, keys, ProposalOf(), ActiveSellOf(s));
    SumPlus<string>(keys, OpenBy(t, s), WaitingBy(t, s), OpenPlusWaiting(t, s));
    forall pid <- keys ensures OpenPlusWaiting(t, s)(pid) <= ActiveBy(t, s)(pid) {
      ProposalIsCovered(t, pid, s);
    }
    SumLe<string>(keys, OpenPlusWaiting(t, s), ActiveBy(t, s));
  }

  // ---- order transactions do not raise the exposure ----

  /** What an order may still take from the position of the latest snapshot. */
  function Exposure(o: ExecutionOrder): real {
    if o.side.Sell? then Open(o) + (o.filled - o.reconciledFilled) else o.reconciledFilled - o.filled
  }

  function ExposureIn(s: Symbol): ExecutionOrder -> real {
    (o: ExecutionOrder) => if o.symbol == s then Exposure(o) else 0.0
  }

  lemma OrdersExposure(orders: seq<ExecutionOrder>, s: Symbol)
    ensures SumBy(orders, ExposureIn(s)) == SumBy(orders, OpenSellIn(s)) - Explained(orders, s)
  {
    SumPlus<ExecutionOrder>(orders, ExposureIn(s), IncrementOf(s), OpenSellIn(s));
  }

  predicate ExposureShrinks(before: seq<ExecutionOrder>, after: seq<ExecutionOrder>) {
    && SameOwners(before, after)
    && forall i | 0 <= i < |before| :: Exposure(after[i]) <= Exposure(before[i])
  }

  predicate SameOwners(before: seq<ExecutionOrder>, after: seq<ExecutionOrder>) {
    && |before| == |after|
    && forall i | 0 <= i < |before| ::
         after[i].proposalId == before[i].proposalId && after[i].symbol == before[i].symbol
  }

  /** A report that is refused, or does not raise the fill of a sell that is over. */
  predicate SaleIsFinal(channel: Channel, current: ExecutionOrder, report: Report) {
    Reported(channel, current, report).Ok? && current.side.Sell? && current.state.IsTerminal() ==>
      FilledBy(channel, current, report) <= current.filled
  }

  /** Exactly which accepted reports raise the exposure of their order: those that raise the
      fill of a sell that is over, and those that lower the fill of a buy. */
  lemma ExposureRisesIff(channel: Channel, current: ExecutionOrder, report: Report)
    requires Reported(channel, current, report).Ok?
    ensures Exposure(Reported(channel, current, report).value) > Exposure(current)
            <==> if current.side.Sell? then !SaleIsFinal(channel, current, report)
                 else FilledBy(channel, current, report) < current.filled
  {
  }

  lemma SameStarted(t: Tables, u: Tables, pid: string)
    requires SameOwners(t.orders, u.orders)
    ensures Started(u, pid) <==> Started(t, pid)
  {
    if Started(t, pid) {
      var i :| 0 <= i < |t.orders| && t.orders[i].proposalId == pid;
      assert u.orders[i] in u.orders;
    }
    if Started(u, pid) {
      var i :| 0 <= i < |u.orders| && u.orders[i].proposalId == pid;
      assert t.orders[i] in t.orders;
    }
  }

  /** Rows of waiting proposals are as they were. */
  predicate WaitingRowsKept(t: Tables, u: Tables) {
    && |t.reservations| == |u.reservations|
    && forall i | 0 <= i < |t.reservations| ::
         u.reservations[i] == t.reservations[i]
         || (Started(t, t.reservations[i].proposalId) && u.reservations[i].proposalId == t.reservations[i].proposalId)
  }

  lemma ExposureStaysBounded(t: Tables, u: Tables)
    requires NeverOversold(t) && u.snapshot == t.snapshot
    requires ExposureShrinks(t.orders, u.orders) && WaitingRowsKept(t, u)
    ensures NeverOversold(u)
  {
    if t.snapshot.Some? {
      forall s ensures Outstanding(u, s) + NetSold(u, s) <= SnapshotHeld(u, s) {
        OrdersExposure(t.orders, s);
        OrdersExposure(u.orders, s);
        SumZipLe<ExecutionOrder>(u.orders, t.orders, ExposureIn(s));
        WaitingSame(t, u, s);
        assert Outstanding(t, s) + NetSold(t, s) <= SnapshotHeld(t, s);
      }
    }
  }

  lemma WaitingSame(t: Tables, u: Tables, s: Symbol)
    requires SameOwners(t.orders, u.orders) && WaitingRowsKept(t, u)
    ensures SumBy(u.reservations, WaitingSellOf(u, s)) == SumBy(t.reservations, WaitingSellOf(t, s))
  {
    forall i | 0 <= i < |t.reservations|
      ensures WaitingSellOf(u, s)(u.reservations[i]) == WaitingSellOf(t, s)(t.reservations[i])
    {
      SameStarted(t, u, t.reservations[i].proposalId);
    }
    SumMapped<Reservation, Reservation>(u.reservations, t.reservations, WaitingSellOf(u, s), WaitingSellOf(t, s));
  }

  lemma SyncKeepsWaiting(t: Tables, pid: string)
    ensures WaitingRowsKept(t, SyncProposal(t, pid))
  {
    hide Adjusted;
    if Started(t, pid) {
      forall i | 0 <= i < |t.reservations|
        ensures AdjustedRows(t, pid)[i] == t.reservations[i]
                || (t.reservations[i].proposalId == pid && AdjustedRows(t, pid)[i].proposalId == pid)
      {
        AdjustedRow(t, pid, t.reservations[i]);
      }
    }
  }

  /** Any order transaction that ends in a sync. */
  lemma SyncedStaysBounded(t: Tables, u: Tables, pid: string)
    requires NeverOversold(t) && u.snapshot == t.snapshot && u.reservations == t.reservations
    requires ExposureShrinks(t.orders, u.orders)
    ensures NeverOversold(SyncProposal(u, pid))
  {
    hide SyncProposal, NeverOversold;
    ExposureStaysBounded(t, u);
    SyncKeepsTables(u, pid);
    SyncKeepsWaiting(u, pid);
    ExposureStaysBounded(u, SyncProposal(u, pid));
  }

  lemma ReportBounded(t: Tables, id: OrderId, channel: Channel, report: Report, now: Instant, cal: Calendar.TradingCalendar)
    requires NeverOversold(t)
    requires forall i | 0 <= i < |t.orders| && t.orders[i].id == id ::
               NeverFalls(channel, t.orders[i], report) && SaleIsFinal(channel, t.orders[i], report)
    ensures NeverOversold(ApplyReport(t, id, channel, report, now, cal))
  {
    hide NeverOversold, SyncProposal;
    var i := IndexOf(t.orders, id);
    if i.Some? {
      var recorded := RecordReport(t, i.value, channel, report, now, cal);
      if recorded.Ok? {
        RecordedExposure(t, i.value, channel, report, now, cal);
        SyncedStaysBounded(t, recorded.value, t.orders[i.value].proposalId);
      }
    }
  }

  lemma RecordedExposure(t: Tables, i: nat, channel: Channel, report: Report, now: Instant, cal: Calendar.TradingCalendar)
    requires i < |t.orders| && RecordReport(t, i, channel, report, now, cal).Ok?
    requires NeverFalls(channel, t.orders[i], report) && SaleIsFinal(channel, t.orders[i], report)
    ensures var u := RecordReport(t, i, channel, report, now, cal).value;
            ExposureShrinks(t.orders, u.orders) && u.snapshot == t.snapshot && u.reservations == t.reservations
  {
    ExposureRisesIff(channel, t.orders[i], report);
  }

  // ---- exactly which reports keep the bound ----

  /** What a symbol has left of the snapshot position. */
  function Room(t: Tables, s: Symbol): real
    requires t.snapshot.Some?
  {
    SnapshotHeld(t, s) - Outstanding(t, s) - NetSold(t, s)
  }

  lemma RoomMoves(t: Tables, u: Tables, i: nat, o: ExecutionOrder, s: Symbol)
    requires t.snapshot.Some? && u.snapshot == t.snapshot && u.reservations == t.reservations
    requires i < |t.orders| && u.orders == t.orders[i := o]
    requires o.proposalId == t.orders[i].proposalId && o.symbol == t.orders[i].symbol
    ensures Room(u, s) == Room(t, s) - if o.symbol == s then Exposure(o) - Exposure(t.orders[i]) else 0.0
  {
    hide Exposure, Open;
    OrdersExposure(t.orders, s);
    OrdersExposure(u.orders, s);
    SumUpdate<ExecutionOrder>(t.orders, i, o, ExposureIn(s));
    WaitingSame(t, u, s);
  }

  lemma SyncKeepsRoom(t: Tables, pid: string, s: Symbol)
    requires t.snapshot.Some?
    ensures SyncProposal(t, pid).snapshot == t.snapshot && Room(SyncProposal(t, pid), s) == Room(t, s)
  {
    hide SyncProposal;
    SyncKeepsTables(t, pid);
    SyncKeepsWaiting(t, pid);
    WaitingSame(t, SyncProposal(t, pid), s);
  }

  lemma BoundedIsRoom(t: Tables)
    requires t.snapshot.Some?
    ensures NeverOversold(t) <==> forall s :: Room(t, s) >= 0.0
  {
    hide Outstanding, NetSold, SnapshotHeld;
    if NeverOversold(t) {
      forall s ensures Room(t, s) >= 0.0 {
        assert Outstanding(t, s) + NetSold(t, s) <= SnapshotHeld(t, s);
      }
    }
    if forall s :: Room(t, s) >= 0.0 {
      forall s ensures Outstanding(t, s) + NetSold(t, s) <= SnapshotHeld(t, s) {
        assert Room(t, s) >= 0.0;
      }
    }
  }

  lemma RecordedRow(t: Tables, i: nat, channel: Channel, report: Report, now: Instant, cal: Calendar.TradingCalendar)
    requires i < |t.orders| && RecordReport(t, i, channel, report, now, cal).Ok?
    ensures Reported(channel, t.orders[i], report).Ok?
    ensures var u := RecordReport(t, i, channel, report, now, cal).value;
            && u.snapshot == t.snapshot && u.reservations == t.reservations && |u.orders| == |t.orders|
            && u.orders == t.orders[i := u.orders[i]]
            && u.orders[i].proposalId == t.orders[i].proposalId && u.orders[i].symbol == t.orders[i].symbol
            && Exposure(u.orders[i]) == Exposure(Reported(channel, t.orders[i], report).value)
  {
    hide Calendar.SettlementDate, FilledProceeds;
  }

  /** Exactly which accepted reports keep the bound, rising or falling, early or late: those
      that raise the exposure of their order by no more than its symbol has room for. */
  lemma ReportBoundedIff(t: Tables, id: OrderId, i: nat, channel: Channel, report: Report, now: Instant,
                         cal: Calendar.TradingCalendar)
    requires NeverOversold(t) && t.snapshot.Some?
    requires IndexOf(t.orders, id) == Some(i) && RecordReport(t, i, channel, report, now, cal).Ok?
    ensures Reported(channel, t.orders[i], report).Ok?
    ensures NeverOversold(ApplyReport(t, id, channel, report, now, cal))
            <==> Exposure(Reported(channel, t.orders[i], report).value) - Exposure(t.orders[i]) <= Room(t, t.orders[i].symbol)
  {
    hide NeverOversold, SyncProposal, RecordReport, Exposure, Room;
    RecordedRow(t, i, channel, report, now, cal);
    var u, pid := RecordReport(t, i, channel, report, now, cal).value, t.orders[i].proposalId;
    var v := SyncProposal(u, pid);
    SyncKeepsTables(u, pid);
    BoundedIsRoom(t);
    BoundedIsRoom(v);
    forall s
      ensures Room(v, s) == Room(t, s) - if t.orders[i].symbol == s then Exposure(u.orders[i]) - Exposure(t.orders[i]) else 0.0
    {
      RoomMoves(t, u, i, u.orders[i], s);
      SyncKeepsRoom(u, pid, s);
    }
  }

  lemma PutBounded(t: Tables, u: Tables, i: nat, o: ExecutionOrder)
    requires NeverOversold(t) && i < |t.orders| && u.orders == t.orders[i := o]
    requires u.reservations == t.reservations && u.snapshot == t.snapshot
    requires o.proposalId == t.orders[i].proposalId && o.symbol == t.orders[i].symbol && Exposure(o) <= Exposure(t.orders[i])
    ensures NeverOversold(u)
  {
    hide NeverOversold;
    ExposureStaysBounded(t, u);
  }

  lemma LoseTrackBounded(t: Tables, id: OrderId)
    requires NeverOversold(t)
    ensures NeverOversold(LoseTrack(t, id))
  {
    hide NeverOversold;
    var i := IndexOf(t.orders, id);
    if i.Some? && LoseTrack(t, id) != t {
      PutBounded(t, LoseTrack(t, id), i.value, LoseTrack(t, id).orders[i.value]);
    }
  }

  lemma RequestCancelBounded(t: Tables, id: OrderId)
    requires NeverOversold(t)
    ensures NeverOversold(RequestCancel(t, id))
  {
    hide NeverOversold;
    var i := IndexOf(t.orders, id);
    if i.Some? && RequestCancel(t, id) != t {
      PutBounded(t, RequestCancel(t, id), i.value, RequestCancel(t, id).orders[i.value]);
    }
  }

  lemma NotSubmittedBounded(t: Tables, id: OrderId)
    requires NeverOversold(t)
    ensures NeverOversold(MarkNotSubmitted(t, id))
  {
    hide NeverOversold, SyncProposal;
    var i := IndexOf(t.orders, id);
    if i.Some? && NeverSent(t.orders[i.value]) {
      var o: ExecutionOrder := t.orders[i.value].(state := ExecutionState.NotSubmitted);
      SyncedStaysBounded(t, t.(orders := t.orders[i.value := o]), o.proposalId);
    }
  }

  lemma AbortBounded(t: Tables, pid: string, attempted: set<OrderId>)
    requires NeverOversold(t)
    ensures NeverOversold(AbortUnsent(t, pid, attempted))
  {
    hide NeverOversold, SyncProposal;
    SyncedStaysBounded(t, t.(orders := AbortedOrders(t.orders, pid, attempted)), pid);
  }

  // ---- names of SELL reservations ----

  predicate NamedBy(r: Reservation, l: Leg) {
    l.side.Sell? && r.symbol == Some(l.symbol) && r.clientOrderId == Some(l.clientOrderId)
  }

  /** The reservation carries the id of a sell leg of its proposal and symbol. */
  predicate Named(t: Tables, r: Reservation) {
    r.active && r.kind.SellQuantity? ==> exists l <- LegsOf(t, r.proposalId) :: NamedBy(r, l)
  }

  predicate SameLeg(p: string, l: Leg, q: string, m: Leg) {
    l.clientOrderId == m.clientOrderId ==> p == q && l == m
  }

  /** order_identity has one row an id. */
  ghost predicate UniqueLegIds(t: Tables) {
    forall p, q :: forall l <- LegsOf(t, p), m <- LegsOf(t, q) :: SameLeg(p, l, q, m)
  }

  ghost predicate NamesInv(t: Tables) {
    && UniqueLegIds(t) && (forall r <- t.reservations :: Named(t, r))
    && (forall o <- t.orders :: RowOf(t.proposals, o.proposalId).Some?)
    && (t.snapshot.None? ==> t.orders == [] && t.reservations == [])
  }

  predicate SellKeysDiffer(a: Reservation, b: Reservation) {
    a.active && b.active && a.kind.SellQuantity? && b.kind.SellQuantity? ==> SellKey(a) != SellKey(b)
  }

  lemma SameNameSameKey(t: Tables, a: Reservation, b: Reservation)
    requires UniqueLegIds(t) && Named(t, a) && Named(t, b)
    requires a.active && b.active && a.kind.SellQuantity? && b.kind.SellQuantity? && SellKey(a) == SellKey(b)
    ensures KeyOf(a) == KeyOf(b) && KeyOf(a).SellIndex?
  {
    var l :| l in LegsOf(t, a.proposalId) && NamedBy(a, l);
    var m :| m in LegsOf(t, b.proposalId) && NamedBy(b, m);
    assert SameLeg(a.proposalId, l, b.proposalId, m);
  }

  lemma NamesDiffer(t: Tables, i: nat, j: nat)
    requires NamesInv(t) && UniqueActive(t.reservations) && i < j < |t.reservations|
    ensures SellKeysDiffer(t.reservations[i], t.reservations[j])
  {
    var a, b := t.reservations[i], t.reservations[j];
    assert Named(t, a) && Named(t, b);
    if !SellKeysDiffer(a, b) {
      SameNameSameKey(t, a, b);
    }
  }

  lemma {:induction false} ActiveRowsDiffer(rs: seq<Reservation>, excluding: Option<string>)
    requires forall i, j | 0 <= i < j < |rs| :: SellKeysDiffer(rs[i], rs[j])
    ensures DistinctSellKeys(ActiveRows(rs, excluding))
  {
    if rs != [] {
      assert forall i | 0 <= i < |rs| - 1 :: rs[1..][i] == rs[i + 1];
      ActiveRowsDiffer(rs[1..], excluding);
      forall r <- ActiveRows(rs[1..], excluding) ensures SellKeysDiffer(rs[0], r) {
        var j :| 0 <= j < |rs| - 1 && rs[1..][j] == r;
        assert SellKeysDiffer(rs[0], rs[j + 1]);
      }
    }
  }

  lemma {:induction false} ActiveRowsSum(rs: seq<Reservation>, excluding: Option<string>, s: Symbol)
    requires excluding.Some? ==> forall r <- rs :: !(r.active && r.proposalId == excluding.value)
    ensures SumBy(ActiveRows(rs, excluding), ActiveSellOf(s)) == SumBy(rs, ActiveSellOf(s))
  {
    if rs != [] {
      ActiveRowsSum(rs[1..], excluding, s);
      var rest := ActiveRows(rs[1..], excluding);
      if rs[0].active {
        assert ActiveRows(rs, excluding) == [rs[0]] + rest;
        assert ([rs[0]] + rest)[1..] == rest;
      } else {
        assert ActiveRows(rs, excluding) == rest;
      }
    }
  }

  /** The rows picked for reservation ids are unresolved (see Unresolved.PicksUnresolved). */
  predicate PicksHold(t: Tables, excluding: Option<string>)
    requires t.snapshot.Some?
  {
    var active, unknown := ActiveRows(t.reservations, excluding), UnknownRows(t.unknown, excluding);
    PicksUnresolved(ContextOrders(active, unknown, t.snapshot.value.orders, LocalIds(t, active, unknown, excluding)),
                    FromReservations(active))
  }

  /** A context reserves at least everything outstanding, or blocks sells of the symbol. */
  lemma ContextCoversOutstanding(t: Tables, excluding: Option<string>, s: Symbol)
    requires CapacityInv(t) && NamesInv(t) && t.snapshot.Some? && PicksHold(t, excluding)
    requires excluding.Some? ==> Idle(t, excluding.value)
    ensures Undeterminable(UnresolvedIn(t, excluding), s) || Reserved(UnresolvedIn(t, excluding), s) >= Outstanding(t, s)
  {
    hide Outstanding, Merged, ContextOrders;
    var active, unknown := ActiveRows(t.reservations, excluding), UnknownRows(t.unknown, excluding);
    forall i, j | 0 <= i < j < |t.reservations| ensures SellKeysDiffer(t.reservations[i], t.reservations[j]) {
      NamesDiffer(t, i, j);
    }
    ActiveRowsDiffer(t.reservations, excluding);
    ActiveRowsSum(t.reservations, excluding, s);
    ReservationsCoverOutstanding(t, s);
    ContextReservesEverything(active, unknown, t.snapshot.value.orders, LocalIds(t, active, unknown, excluding), s);
  }

  /** What CHECK-16 admits fits beside everything outstanding. */
  lemma AdmittedSellFits(t: Tables, p: Proposal, cfg: Settings, call: Call, excluding: Option<string>, s: Symbol)
    requires CapacityInv(t) && NamesInv(t) && t.snapshot.Some? && PicksHold(t, excluding)
    requires excluding.Some? ==> Idle(t, excluding.value)
    requires LongOnly(p, ContextOf(t, cfg, call, excluding))
    ensures p.SellQuantity(s) > 0.0 ==> Outstanding(t, s) + p.SellQuantity(s) <= SnapshotHeld(t, s)
    ensures p.SellQuantity(s) >= 0.0
  {
    hide Outstanding, UnresolvedIn;
    var c := ContextOf(t, cfg, call, excluding);
    SellQuantityNonNegative(p, s);
    if p.SellQuantity(s) > 0.0 {
      if forall l <- p.legs :: !(l.side.Sell? && l.symbol == s) {
        SumZero(p.legs, SellQuantityOf(s));
      }
      assert SellAllowed(p, c, s);
      ContextCoversOutstanding(t, excluding, s);
    }
  }
}
