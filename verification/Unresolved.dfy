/** Locally reserved SELL quantity: `sell_reservations` of backend/opaca/policy/engine.py and
    the unresolved-order builders of backend/opaca/orchestration/context.py. */
module Unresolved {
  import opened Domain
  import opened Records
  import opened Results
  import opened Sums

  /** What one unresolved order reserves of a symbol. */
  function ReservedOf(s: Symbol): UnresolvedOrder -> real {
    (o: UnresolvedOrder) =>
      if o.state.IsUnresolved() && o.side.Sell? && o.symbol == s && Remaining(o).Some? then Remaining(o).value else 0.0
  }

  function Reserved(orders: seq<UnresolvedOrder>, s: Symbol): real {
    SumBy(orders, ReservedOf(s))
  }

  predicate BlocksSells(o: UnresolvedOrder, s: Symbol) {
    o.state.IsUnresolved() && o.side.Sell? && o.symbol == s && Remaining(o).None?
  }

  predicate Undeterminable(orders: seq<UnresolvedOrder>, s: Symbol) {
    exists o <- orders :: BlocksSells(o, s)
  }

  lemma UndeterminableAppend(a: seq<UnresolvedOrder>, b: seq<UnresolvedOrder>, s: Symbol)
    ensures Undeterminable(a + b, s) <==> Undeterminable(a, s) || Undeterminable(b, s)
    ensures |b| == 1 ==> (Undeterminable(b, s) <==> BlocksSells(b[0], s))
  {
    if Undeterminable(a, s) {
      var o :| o in a && BlocksSells(o, s);
      assert o in a + b;
    }
    if Undeterminable(b, s) {
      var o :| o in b && BlocksSells(o, s);
      assert o in a + b;
    }
  }

  function Get(m: map<Symbol, real>, s: Symbol): real {
    if s in m then m[s] else 0.0
  }

  method SellReservations(orders: seq<UnresolvedOrder>)
    returns (reserved: map<Symbol, real>, undeterminable: set<Symbol>)
    ensures forall s :: Get(reserved, s) == Reserved(orders, s)
    ensures forall s :: s in undeterminable <==> Undeterminable(orders, s)
  {
    reserved, undeterminable := map[], {};
    for i := 0 to |orders|
      invariant forall s :: Get(reserved, s) == Reserved(orders[..i], s)
      invariant forall s :: s in undeterminable <==> Undeterminable(orders[..i], s)
    {
      var order := orders[i];
      ghost var before := reserved;
      assert orders[..i + 1] == orders[..i] + [order];
      if order.state.IsUnresolved() && order.side.Sell? {
        var remaining := Remaining(order);
        if remaining.None? {
          undeterminable := undeterminable + {order.symbol};
        } else {
          reserved := reserved[order.symbol := Get(reserved, order.symbol) + remaining.value];
        }
      }
      forall s ensures Get(reserved, s) == Reserved(orders[..i + 1], s) {
        SumSnoc(orders[..i], order, ReservedOf(s));
        assert Get(before, s) == Reserved(orders[..i], s);
      }
      forall s ensures Undeterminable(orders[..i + 1], s) <==> Undeterminable(orders[..i], s) || BlocksSells(order, s) {
        UndeterminableAppend(orders[..i], [order], s);
      }
    }
    assert orders[..|orders|] == orders;
  }

  // ---- merging by client order id ----

  function Anonymous(orders: seq<UnresolvedOrder>): seq<UnresolvedOrder> {
    if orders == [] then []
    else
      var last := orders[|orders| - 1];
      Anonymous(orders[..|orders| - 1]) + if last.clientOrderId.None? then [last] else []
  }

  function Group(orders: seq<UnresolvedOrder>, id: OrderId): seq<UnresolvedOrder> {
    if orders == [] then []
    else
      var last := orders[|orders| - 1];
      Group(orders[..|orders| - 1], id) + if last.clientOrderId == Some(id) then [last] else []
  }

  lemma {:induction false} GroupMembers(orders: seq<UnresolvedOrder>, id: OrderId)
    ensures forall o :: o in Group(orders, id) <==> o in orders && o.clientOrderId == Some(id)
  {
    if orders != [] {
      var last := orders[|orders| - 1];
      assert forall o <- orders :: o in orders[..|orders| - 1] || o == last;
      GroupMembers(orders[..|orders| - 1], id);
    }
  }

  /** Client order ids in order of first appearance. */
  function Ids(orders: seq<UnresolvedOrder>): seq<OrderId> {
    if orders == [] then []
    else
      var before := Ids(orders[..|orders| - 1]);
      var last := orders[|orders| - 1];
      if last.clientOrderId.None? || last.clientOrderId.value in before then before
      else before + [last.clientOrderId.value]
  }

  lemma {:induction false} IdsMembers(orders: seq<UnresolvedOrder>)
    ensures Distinct(Ids(orders))
    ensures forall id :: id in Ids(orders) <==> exists o <- orders :: o.clientOrderId == Some(id)
  {
    if orders != [] {
      var last := orders[|orders| - 1];
      assert forall o <- orders :: o in orders[..|orders| - 1] || o == last;
      IdsMembers(orders[..|orders| - 1]);
    }
  }

  predicate Consistent(group: seq<UnresolvedOrder>) {
    forall o <- group, p <- group :: o.symbol == p.symbol && o.side == p.side
  }

  /** The member `max` returns: the first one with the greatest remaining quantity. */
  function FirstLargest(group: seq<UnresolvedOrder>): (m: UnresolvedOrder)
    requires group != [] && forall o <- group :: Remaining(o).Some?
    ensures m in group && forall o <- group :: Remaining(o).value <= Remaining(m).value
  {
    if |group| == 1 then group[0]
    else
      var rest := FirstLargest(group[1..]);
      if Remaining(group[0]).value >= Remaining(rest).value then group[0] else rest
  }

  function FirstUndeterminable(group: seq<UnresolvedOrder>): (m: UnresolvedOrder)
    requires exists o <- group :: Remaining(o).None?
    ensures m in group && Remaining(m).None?
  {
    if Remaining(group[0]).None? then group[0] else FirstUndeterminable(group[1..])
  }

  /** The one member that stands for a consistent group. */
  function Pick(group: seq<UnresolvedOrder>): (m: UnresolvedOrder)
    requires group != []
    ensures m in group
  {
    if exists o <- group :: Remaining(o).None? then FirstUndeterminable(group) else FirstLargest(group)
  }

  function Left(o: UnresolvedOrder): real {
    (if o.quantity.Some? then o.quantity.value else 0.0) - if o.filled.Some? then o.filled.value else 0.0
  }

  /** The first member with the largest remainder. */
  predicate LargestAt(group: seq<UnresolvedOrder>, k: int) {
    && 0 <= k < |group|
    && (forall j | 0 <= j < |group| :: Left(group[j]) <= Left(group[k]))
    && forall j | 0 <= j < k :: Left(group[j]) < Left(group[k])
  }

  /** The first member of unknown size. */
  predicate UnsizedAt(group: seq<UnresolvedOrder>, k: int) {
    0 <= k < |group| && group[k].quantity.None? && forall j | 0 <= j < k :: group[j].quantity.Some?
  }

  lemma {:induction false} LargestIsFirst(group: seq<UnresolvedOrder>) returns (k: int)
    requires group != [] && forall o <- group :: o.quantity.Some?
    ensures LargestAt(group, k) && group[k] == FirstLargest(group)
  {
    k := 0;
    if |group| > 1 {
      var rest := group[1..];
      var tail := LargestIsFirst(rest);
      LargestBehind(group, tail);
      if Left(group[0]) < Left(rest[tail]) {
        k := tail + 1;
      }
    }
  }

  lemma LargestBehind(group: seq<UnresolvedOrder>, k: int)
    requires |group| > 1 && LargestAt(group[1..], k)
    ensures group[k + 1] == group[1..][k]
    ensures LargestAt(group, if Left(group[0]) < Left(group[k + 1]) then k + 1 else 0)
  {
    hide Left;
    assert forall j | 0 < j < |group| :: group[j] == group[1..][j - 1];
  }

  lemma {:induction false} UnsizedIsFirst(group: seq<UnresolvedOrder>) returns (k: int)
    requires exists o <- group :: o.quantity.None?
    ensures UnsizedAt(group, k) && group[k] == FirstUndeterminable(group)
  {
    k := 0;
    if group[0].quantity.Some? {
      var tail := UnsizedIsFirst(group[1..]);
      k := tail + 1;
      assert forall j | 0 < j < |group| :: group[j] == group[1..][j - 1];
    }
  }

  function Representatives(group: seq<UnresolvedOrder>): seq<UnresolvedOrder>
    requires group != []
  {
    if |group| == 1 || !Consistent(group) then group else [Pick(group)]
  }

  /** What stands for a group of orders with one id: all of it, if they disagree on symbol or
      side, or else the one member picked. */
  lemma RepresentativesAre(group: seq<UnresolvedOrder>)
    requires group != []
    ensures if |group| == 1 || exists o <- group, p <- group :: o.symbol != p.symbol || o.side != p.side
            then Representatives(group) == group
            else if exists o <- group :: o.quantity.None?
            then exists k :: UnsizedAt(group, k) && Representatives(group) == [group[k]]
            else exists k :: LargestAt(group, k) && Representatives(group) == [group[k]]
  {
    if exists o <- group :: o.quantity.None? {
      var k := UnsizedIsFirst(group);
    } else {
      var k := LargestIsFirst(group);
    }
  }

  function MergedGroups(orders: seq<UnresolvedOrder>, ids: seq<OrderId>): seq<UnresolvedOrder>
    requires forall id <- ids :: Group(orders, id) != []
  {
    if ids == [] then []
    else MergedGroups(orders, ids[..|ids| - 1]) + Representatives(Group(orders, ids[|ids| - 1]))
  }

  lemma IdsHaveGroups(orders: seq<UnresolvedOrder>)
    ensures forall id <- Ids(orders) :: Group(orders, id) != []
  {
    IdsMembers(orders);
    forall id <- Ids(orders) ensures Group(orders, id) != [] {
      var o :| o in orders && o.clientOrderId == Some(id);
      GroupMembers(orders, id);
    }
  }

  /** The list that `_merge_unresolved` returns. */
  function Merged(orders: seq<UnresolvedOrder>): seq<UnresolvedOrder> {
    IdsHaveGroups(orders);
    Anonymous(orders) + MergedGroups(orders, Ids(orders))
  }

  lemma GroupingSnoc(orders: seq<UnresolvedOrder>, i: nat)
    requires i < |orders|
    ensures Anonymous(orders[..i + 1]) == Anonymous(orders[..i]) + if orders[i].clientOrderId.None? then [orders[i]] else []
    ensures Ids(orders[..i + 1])
         == if orders[i].clientOrderId.None? || orders[i].clientOrderId.value in Ids(orders[..i]) then Ids(orders[..i])
            else Ids(orders[..i]) + [orders[i].clientOrderId.value]
    ensures forall id :: Group(orders[..i + 1], id)
                      == Group(orders[..i], id) + if orders[i].clientOrderId == Some(id) then [orders[i]] else []
  {
    assert orders[..i + 1][..i] == orders[..i];
  }

  /** The grouping loop of `_merge_unresolved`. */
  method GroupOrders(orders: seq<UnresolvedOrder>)
    returns (anonymous: seq<UnresolvedOrder>, ids: seq<OrderId>, grouped: map<OrderId, seq<UnresolvedOrder>>)
    ensures anonymous == Anonymous(orders) && ids == Ids(orders)
    ensures forall id <- ids :: id in grouped && grouped[id] == Group(orders, id)
  {
    anonymous, ids, grouped := [], [], map[];
    for i := 0 to |orders|
      invariant anonymous == Anonymous(orders[..i]) && ids == Ids(orders[..i])
      invariant forall id :: id in grouped <==> id in ids
      invariant forall id :: Group(orders[..i], id) == if id in grouped then grouped[id] else []
    {
      var order := orders[i];
      GroupingSnoc(orders, i);
      if order.clientOrderId.None? {
        anonymous := anonymous + [order];
      } else {
        var id := order.clientOrderId.value;
        if id !in grouped {
          ids := ids + [id];
          grouped := grouped[id := [order]];
        } else {
          grouped := grouped[id := grouped[id] + [order]];
        }
      }
    }
    assert orders[..|orders|] == orders;
  }

  /** The body of the loop over the groups. */
  method Represent(group: seq<UnresolvedOrder>) returns (rows: seq<UnresolvedOrder>)
    requires group != []
    ensures rows == Representatives(group)
  {
    if |group| == 1 || !Consistent(group) {
      rows := group;
    } else {
      rows := [Pick(group)];
    }
  }

  lemma MergedGroupsSnoc(orders: seq<UnresolvedOrder>, ids: seq<OrderId>, k: nat)
    requires k < |ids| && forall id <- ids :: Group(orders, id) != []
    ensures MergedGroups(orders, ids[..k + 1]) == MergedGroups(orders, ids[..k]) + Representatives(Group(orders, ids[k]))
  {
    assert ids[..k + 1][..k] == ids[..k];
  }

  method MergeUnresolved(orders: seq<UnresolvedOrder>) returns (merged: seq<UnresolvedOrder>)
    ensures merged == Merged(orders)
  {
    hide Group, Ids, Anonymous, Representatives;
    var anonymous, ids, grouped := GroupOrders(orders);
    IdsHaveGroups(orders);
    merged := [];
    for k := 0 to |ids|
      invariant merged == MergedGroups(orders, ids[..k])
    {
      MergedGroupsSnoc(orders, ids, k);
      assert ids[k] in ids;
      var rows := Represent(grouped[ids[k]]);
      merged := merged + rows;
    }
    assert ids[..|ids|] == ids;
    merged := anonymous + merged;
  }

  // ---- merging never frees shares ----

  /** What the representatives of one id reserve of a symbol. */
  function Picked(orders: seq<UnresolvedOrder>, id: OrderId, s: Symbol): real {
    var g := Group(orders, id);
    if g == [] then 0.0 else Reserved(Representatives(g), s)
  }

  function PickedOf(orders: seq<UnresolvedOrder>, s: Symbol): OrderId -> real {
    (id: OrderId) => Picked(orders, id, s)
  }

  lemma ReservedByLast(orders: seq<UnresolvedOrder>, ids: seq<OrderId>, s: Symbol)
    requires ids != [] && forall id <- ids :: Group(orders, id) != []
    ensures Reserved(MergedGroups(orders, ids), s)
         == Reserved(MergedGroups(orders, ids[..|ids| - 1]), s) + Picked(orders, ids[|ids| - 1], s)
  {
    hide Group, Representatives, ReservedOf, SumBy;
    var last := Representatives(Group(orders, ids[|ids| - 1]));
    SumAppend<UnresolvedOrder>(MergedGroups(orders, ids[..|ids| - 1]), last, ReservedOf(s));
  }

  lemma {:induction false} MergedGroupsReserved(orders: seq<UnresolvedOrder>, ids: seq<OrderId>, s: Symbol)
    requires forall id <- ids :: Group(orders, id) != []
    ensures Reserved(MergedGroups(orders, ids), s) == SumBy(ids, PickedOf(orders, s))
  {
    hide Group, Representatives, ReservedOf, Picked;
    if ids != [] {
      var n := |ids| - 1;
      MergedGroupsReserved(orders, ids[..n], s);
      ReservedByLast(orders, ids, s);
      SumSnoc<OrderId>(ids[..n], ids[n], PickedOf(orders, s));
      assert ids[..n] + [ids[n]] == ids;
    }
  }

  lemma {:induction false} MergedGroupsMember(orders: seq<UnresolvedOrder>, ids: seq<OrderId>, id: OrderId)
    requires forall k <- ids :: Group(orders, k) != []
    requires id in ids
    ensures forall o <- Representatives(Group(orders, id)) :: o in MergedGroups(orders, ids)
  {
    var n := |ids| - 1;
    if id != ids[n] {
      assert id in ids[..n];
      MergedGroupsMember(orders, ids[..n], id);
    }
  }

  /** The exact condition under which a group keeps the shares that one of its SELL
      members reserves: the group is kept whole, or the member picked for it is still
      unresolved. */
  lemma GroupKeepsReservation(group: seq<UnresolvedOrder>, r: UnresolvedOrder)
    requires r in group && r.side.Sell? && r.state.IsUnresolved()
    requires Remaining(r).Some? && Remaining(r).value > 0.0
    ensures Undeterminable(Representatives(group), r.symbol)
            || Reserved(Representatives(group), r.symbol) >= Remaining(r).value
       <==> |group| == 1 || !Consistent(group) || Pick(group).state.IsUnresolved()
  {
    var reps := Representatives(group);
    if |group| == 1 || !Consistent(group) {
      var i :| 0 <= i < |reps| && reps[i] == r;
      TermLeSum(reps, i, ReservedOf(r.symbol));
    } else {
      var m := Pick(group);
      assert m.symbol == r.symbol && m.side == r.side;
      assert reps == [m] && m in reps;
      assert reps[1..] == [];
      assert Reserved(reps, r.symbol) == ReservedOf(r.symbol)(m) + Reserved(reps[1..], r.symbol);
    }
  }

  /** A consistent group counts once: what it reserves is what its pick reserves, and a
      determinable pick has the largest remaining quantity of the group. */
  lemma ConsistentGroupCountsOnce(group: seq<UnresolvedOrder>, s: Symbol)
    requires |group| > 1 && Consistent(group)
    ensures Reserved(Representatives(group), s) == ReservedOf(s)(Pick(group))
    ensures Remaining(Pick(group)).Some? ==>
              forall o <- group :: Remaining(o).Some? && Remaining(o).value <= Remaining(Pick(group)).value
  {
    var reps := Representatives(group);
    assert reps == [Pick(group)] && reps[1..] == [];
    assert Reserved(reps, s) == ReservedOf(s)(Pick(group)) + Reserved(reps[1..], s);
  }

  /** Every group that holds a reservation keeps it (see GroupKeepsReservation). */
  predicate PicksUnresolved(orders: seq<UnresolvedOrder>, reservations: seq<UnresolvedOrder>) {
    forall r <- reservations | r.clientOrderId.Some? ::
      var g := Group(orders, r.clientOrderId.value);
      g != [] && (|g| == 1 || !Consistent(g) || Pick(g).state.IsUnresolved())
  }

  predicate ReservationShaped(reservations: seq<UnresolvedOrder>) {
    && (forall r <- reservations ::
          r.clientOrderId.Some? && r.side.Sell? && r.state.AutoAuthorized? && Remaining(r).Some?)
    && (forall i, j | 0 <= i < j < |reservations| :: reservations[i].clientOrderId != reservations[j].clientOrderId)
  }

  function IdKeyOf(): UnresolvedOrder -> OrderId {
    (o: UnresolvedOrder) => if o.clientOrderId.Some? then o.clientOrderId.value else External("")
  }

  lemma UndeterminableLifts(orders: seq<UnresolvedOrder>, id: OrderId, s: Symbol)
    requires id in Ids(orders) && Group(orders, id) != []
    ensures Undeterminable(Representatives(Group(orders, id)), s) ==> Undeterminable(Merged(orders), s)
  {
    if Undeterminable(Representatives(Group(orders, id)), s) {
      var o :| o in Representatives(Group(orders, id)) && BlocksSells(o, s);
      IdsHaveGroups(orders);
      MergedGroupsMember(orders, Ids(orders), id);
      assert o in Merged(orders);
    }
  }

  lemma PickedCoversReservation(orders: seq<UnresolvedOrder>, reservations: seq<UnresolvedOrder>, s: Symbol, id: OrderId)
    requires ReservationShaped(reservations)
    requires forall r <- reservations :: r in orders
    requires PicksUnresolved(orders, reservations)
    requires id in Ids(orders) && !Undeterminable(Merged(orders), s)
    ensures GroupSum(reservations, IdKeyOf(), ReservedOf(s))(id) <= Picked(orders, id, s)
  {
    var g := Group(orders, id);
    var term := InGroup(IdKeyOf(), ReservedOf(s), id);
    IdsHaveGroups(orders);
    SumNonNegative(Representatives(g), ReservedOf(s));
    if exists i :: 0 <= i < |reservations| && reservations[i].clientOrderId == Some(id) && reservations[i].symbol == s {
      var i :| 0 <= i < |reservations| && reservations[i].clientOrderId == Some(id) && reservations[i].symbol == s;
      var r := reservations[i];
      SumSingle(reservations, i, term);
      GroupMembers(orders, id);
      if Remaining(r).value > 0.0 {
        GroupKeepsReservation(g, r);
        UndeterminableLifts(orders, id, s);
      }
    } else {
      SumZero(reservations, term);
    }
  }

  /** Merging never frees shares: a symbol is undeterminable, or at least the sum of its
      SELL reservations stays reserved. */
  lemma MergeKeepsReservations(orders: seq<UnresolvedOrder>, reservations: seq<UnresolvedOrder>, s: Symbol)
    requires ReservationShaped(reservations)
    requires forall r <- reservations :: r in orders
    requires PicksUnresolved(orders, reservations)
    ensures Undeterminable(Merged(orders), s) || Reserved(Merged(orders), s) >= Reserved(reservations, s)
  {
    if !Undeterminable(Merged(orders), s) {
      var ids := Ids(orders);
      IdsHaveGroups(orders);
      IdsMembers(orders);
      SumByGroups(reservations, ids, IdKeyOf(), ReservedOf(s));
      forall id <- ids ensures GroupSum(reservations, IdKeyOf(), ReservedOf(s))(id) <= PickedOf(orders, s)(id) {
        PickedCoversReservation(orders, reservations, s, id);
      }
      SumLe(ids, GroupSum(reservations, IdKeyOf(), ReservedOf(s)), PickedOf(orders, s));
      MergedGroupsReserved(orders, ids, s);
      SumAppend(Anonymous(orders), MergedGroups(orders, ids), ReservedOf(s));
      SumNonNegative(Anonymous(orders), ReservedOf(s));
    }
  }

  // ---- the three sources of unresolved orders ----

  function AsUnresolved(r: Reservation): (o: UnresolvedOrder)
    requires r.symbol.Some? && r.quantity.Some?
  {
    UnresolvedOrder(r.symbol.value, Sell,
                    Some(if r.clientOrderId.Some? then r.clientOrderId.value else ReservationRef(r.reservationId)),
                    AutoAuthorized, r.quantity, Some(0.0))
  }

  /** `_sell_unresolved_from_reservations` */
  function FromReservations(reservations: seq<Reservation>): seq<UnresolvedOrder> {
    if reservations == [] then []
    else
      var r := reservations[0];
      (if r.kind.SellQuantity? && r.symbol.Some? && r.quantity.Some? then [AsUnresolved(r)] else [])
      + FromReservations(reservations[1..])
  }

  /** `_unresolved_from_unknown` */
  function FromUnknown(unknown: seq<UnknownOrder>): seq<UnresolvedOrder> {
    if unknown == [] then []
    else
      var u := unknown[0];
      [UnresolvedOrder(u.symbol, u.side, Some(u.clientOrderId), u.state, u.quantity, u.filled)] + FromUnknown(unknown[1..])
  }

  /** `_unresolved_from_broker_orders`: the broker's copy of a local order is skipped. */
  function FromBroker(orders: seq<BrokerOrder>, localIds: set<OrderId>): seq<UnresolvedOrder> {
    if orders == [] then []
    else
      var b := orders[0];
      (if UnresolvedAtBroker(b.mappedState) && b.clientOrderId !in localIds
       then [UnresolvedOrder(b.symbol, b.side, Some(b.clientOrderId), b.mappedState, b.quantity, b.filled)] else [])
      + FromBroker(orders[1..], localIds)
  }

  /** The unresolved orders of a policy context. */
  function ContextOrders(active: seq<Reservation>, unknown: seq<UnknownOrder>, broker: seq<BrokerOrder>,
                         localIds: set<OrderId>): seq<UnresolvedOrder> {
    FromReservations(active) + FromUnknown(unknown) + FromBroker(broker, localIds)
  }

  lemma {:induction false} LocalCopySkipped(before: seq<BrokerOrder>, copy: BrokerOrder, after: seq<BrokerOrder>,
                                            localIds: set<OrderId>)
    requires copy.clientOrderId in localIds
    ensures FromBroker(before + [copy] + after, localIds) == FromBroker(before + after, localIds)
  {
    if before == [] {
      assert before + [copy] + after == [copy] + after && before + after == after;
      assert ([copy] + after)[1..] == after;
    } else {
      LocalCopySkipped(before[1..], copy, after, localIds);
      assert (before + [copy] + after)[1..] == before[1..] + [copy] + after;
      assert (before + after)[1..] == before[1..] + after;
    }
  }

  /** A local order is not counted twice: the broker's copy of it, wherever it is reported and
      whatever it says, neither reserves a share nor blocks a sell. */
  lemma LocalCopyReservesNothing(active: seq<Reservation>, unknown: seq<UnknownOrder>, before: seq<BrokerOrder>,
                                 copy: BrokerOrder, after: seq<BrokerOrder>, localIds: set<OrderId>, s: Symbol)
    requires copy.clientOrderId in localIds
    ensures var merged := Merged(ContextOrders(active, unknown, before + after, localIds));
            var copied := Merged(ContextOrders(active, unknown, before + [copy] + after, localIds));
            Reserved(copied, s) == Reserved(merged, s) && (Undeterminable(copied, s) <==> Undeterminable(merged, s))
  {
    LocalCopySkipped(before, copy, after, localIds);
  }

  /** Where unresolved orders come from, row by row: sells in reservation, orders that got lost,
      and what the broker may still work that is not ours. */
  lemma {:induction false} ReservationSources(active: seq<Reservation>, o: UnresolvedOrder)
    ensures o in FromReservations(active) <==>
              exists r <- active ::
                && r.kind == SellQuantity && r.symbol == Some(o.symbol) && r.quantity.Some? && o.quantity == r.quantity
                && o.side == Sell && o.filled == Some(0.0) && o.state == AutoAuthorized
                && o.clientOrderId == Some(if r.clientOrderId.Some? then r.clientOrderId.value else ReservationRef(r.reservationId))
  {
    if active != [] {
      ReservationSources(active[1..], o);
      assert forall r <- active :: r == active[0] || r in active[1..];
    }
  }

  lemma {:induction false} UnknownSources(unknown: seq<UnknownOrder>, o: UnresolvedOrder)
    ensures o in FromUnknown(unknown) <==>
              exists u <- unknown ::
                && o.symbol == u.symbol && o.side == u.side && o.clientOrderId == Some(u.clientOrderId) && o.state == u.state
                && o.quantity == u.quantity && o.filled == u.filled
  {
    if unknown != [] {
      UnknownSources(unknown[1..], o);
      assert forall u <- unknown :: u == unknown[0] || u in unknown[1..];
    }
  }

  lemma {:induction false} BrokerSources(orders: seq<BrokerOrder>, localIds: set<OrderId>, o: UnresolvedOrder)
    ensures o in FromBroker(orders, localIds) <==>
              exists b <- orders ::
                && b.clientOrderId !in localIds && UnresolvedAtBroker(b.mappedState)
                && o.symbol == b.symbol && o.side == b.side && o.clientOrderId == Some(b.clientOrderId)
                && o.state == b.mappedState && o.quantity == b.quantity && o.filled == b.filled
  {
    if orders != [] {
      BrokerSources(orders[1..], localIds, o);
      assert forall b <- orders :: b == orders[0] || b in orders[1..];
    }
  }

  function SellKey(r: Reservation): OrderId {
    if r.clientOrderId.Some? then r.clientOrderId.value else ReservationRef(r.reservationId)
  }

  /** Two SELL reservations never share an order: order ids are a primary key. */
  predicate DistinctSellKeys(active: seq<Reservation>) {
    forall i, j | 0 <= i < j < |active| && active[i].kind.SellQuantity? && active[j].kind.SellQuantity? ::
      SellKey(active[i]) != SellKey(active[j])
  }

  lemma {:induction false} FromReservationsKeys(active: seq<Reservation>)
    ensures forall o <- FromReservations(active) ::
              exists r <- active :: r.kind.SellQuantity? && o.clientOrderId == Some(SellKey(r))
  {
    if active != [] {
      FromReservationsKeys(active[1..]);
      assert active[0] in active && forall q <- active[1..] :: q in active;
    }
  }

  lemma {:induction false} FromReservationsSum(active: seq<Reservation>, s: Symbol)
    requires forall r <- active :: r.active
    ensures Reserved(FromReservations(active), s) == SumBy(active, ActiveSellOf(s))
  {
    if active != [] {
      var r := active[0];
      FromReservationsSum(active[1..], s);
      var rest := FromReservations(active[1..]);
      if r.kind.SellQuantity? && r.symbol.Some? && r.quantity.Some? {
        var first: seq<UnresolvedOrder> := [AsUnresolved(r)];
        SumAppend<UnresolvedOrder>(first, rest, ReservedOf(s));
        assert first[1..] == [];
      } else {
        assert FromReservations(active) == rest;
      }
    }
  }

  lemma {:induction false} FromReservationsShape(active: seq<Reservation>)
    requires DistinctSellKeys(active)
    ensures ReservationShaped(FromReservations(active))
  {
    if active != [] {
      var r := active[0];
      assert forall i | 0 <= i < |active| - 1 :: active[1..][i] == active[i + 1];
      FromReservationsShape(active[1..]);
      FromReservationsKeys(active[1..]);
      var rest := FromReservations(active[1..]);
      if r.kind.SellQuantity? && r.symbol.Some? && r.quantity.Some? {
        forall o <- rest ensures o.clientOrderId != AsUnresolved(r).clientOrderId {
          var q :| q in active[1..] && q.kind.SellQuantity? && o.clientOrderId == Some(SellKey(q));
          var j :| 0 <= j < |active| - 1 && active[1..][j] == q;
          assert active[j + 1] == q;
        }
      }
    }
  }

  /** `_merge_unresolved` and `sell_reservations` over a whole context: no active SELL
      reservation is lost while the row picked for its id is unresolved. */
  lemma ContextReservesEverything(active: seq<Reservation>, unknown: seq<UnknownOrder>, broker: seq<BrokerOrder>,
                                  localIds: set<OrderId>, s: Symbol)
    requires forall r <- active :: r.active
    requires DistinctSellKeys(active)
    requires PicksUnresolved(ContextOrders(active, unknown, broker, localIds), FromReservations(active))
    ensures var merged := Merged(ContextOrders(active, unknown, broker, localIds));
            Undeterminable(merged, s) || Reserved(merged, s) >= SumBy(active, ActiveSellOf(s))
  {
    FromReservationsShape(active);
    FromReservationsSum(active, s);
    MergeKeepsReservations(ContextOrders(active, unknown, broker, localIds), FromReservations(active), s);
  }

  /** A stale UNKNOWN row with a larger remaining quantity, already cancelled at the broker,
      is picked over the reservation that shares its id, and the reserved shares vanish. */
  lemma ResolvedPickFreesShares()
    ensures var active: seq<Reservation> :=
              [Reservation(0, "p", SellQuantity, Some("SGOV"), Some(5.0), None, Some(Derived("p", 1)), true)];
            var unknown: seq<UnknownOrder> :=
              [UnknownOrder(Derived("p", 1), "p", "SGOV", Sell, Canceled, Some(10.0), Some(0.0))];
            var merged := Merged(ContextOrders(active, unknown, [], {}));
            && SumBy(active, ActiveSellOf("SGOV")) == 5.0
            && !Undeterminable(merged, "SGOV")
            && Reserved(merged, "SGOV") == 0.0
  {
    var id := Derived("p", 1);
    var r: Reservation := Reservation(0, "p", SellQuantity, Some("SGOV"), Some(5.0), None, Some(id), true);
    var u: UnknownOrder := UnknownOrder(id, "p", "SGOV", Sell, Canceled, Some(10.0), Some(0.0));
    var a: UnresolvedOrder := AsUnresolved(r);
    var b: UnresolvedOrder := UnresolvedOrder("SGOV", Sell, Some(id), Canceled, Some(10.0), Some(0.0));
    assert FromReservations([r]) == [a] by { assert [r][1..] == []; }
    assert FromUnknown([u]) == [b] by { assert [u][1..] == []; }
    assert ContextOrders([r], [u], [], {}) == [a, b];
    assert SumBy([r], ActiveSellOf("SGOV")) == 5.0 by { assert [r][1..] == []; }
    MergedPair(a, b, id);
    var merged: seq<UnresolvedOrder> := [b];
    assert merged[1..] == [];
    assert Reserved(merged, "SGOV") == ReservedOf("SGOV")(b) + Reserved(merged[1..], "SGOV");
  }

  lemma GroupedPair(a: UnresolvedOrder, b: UnresolvedOrder, id: OrderId)
    requires a.clientOrderId == b.clientOrderId == Some(id)
    ensures Anonymous([a, b]) == [] && Ids([a, b]) == [id] && Group([a, b], id) == [a, b]
  {
    var orders := [a, b];
    assert orders[..0] == [] && orders[..1] == [a] && orders[..2] == orders;
    GroupingSnoc(orders, 0);
    GroupingSnoc(orders, 1);
    assert Group(orders[..0], id) == [] && Ids(orders[..0]) == [] && Anonymous(orders[..0]) == [];
  }

  lemma LargerRepresents(a: UnresolvedOrder, b: UnresolvedOrder)
    requires a.symbol == b.symbol && a.side == b.side
    requires Remaining(a).Some? && Remaining(b).Some? && Remaining(a).value < Remaining(b).value
    ensures Representatives([a, b]) == [b]
  {
    var group := [a, b];
    assert group[1..] == [b];
    assert FirstLargest(group) == b;
    assert Pick(group) == b;
  }

  lemma MergedPair(a: UnresolvedOrder, b: UnresolvedOrder, id: OrderId)
    requires a.clientOrderId == b.clientOrderId == Some(id) && a.symbol == b.symbol && a.side == b.side
    requires Remaining(a).Some? && Remaining(b).Some? && Remaining(a).value < Remaining(b).value
    ensures Merged([a, b]) == [b]
  {
    hide Group, Ids, Anonymous, Representatives;
    GroupedPair(a, b, id);
    LargerRepresents(a, b);
    IdsHaveGroups([a, b]);
    MergedGroupsSnoc([a, b], [id], 0);
    assert [id][..1] == [id];
  }
}
