/** What the delegated-authority checks bound over whole runs: every window, not only those
    that end at a decision (backend/opaca/authority/engine.py). */
module RollingAuthority {
  import opened Authority
  import opened Domain
  import opened Sums

  /** One autonomous reservation and the clock it was decided on. Clocks may be out of order. */
  datatype Grant = Grant(now: Instant, proposal: Proposal)

  function RowOfGrant(g: Grant): AutonomousExecution {
    AutonomousExecution(g.proposal.proposalId, g.now, AggregateNotional(g.proposal))
  }

  /** The autonomous_executions rows that the grants leave: one a proposal. */
  function HistoryOf(grants: seq<Grant>): seq<AutonomousExecution> {
    if grants == [] then []
    else HistoryOf(grants[..|grants| - 1]) + [RowOfGrant(grants[|grants| - 1])]
  }

  /** Each grant passed CHECK-07 and CHECK-13 against the rows before it. */
  predicate Authorized(policy: AuthorityPolicy, grants: seq<Grant>) {
    grants == [] ||
    var before, last := grants[..|grants| - 1], grants[|grants| - 1];
    && Authorized(policy, before)
    && WithinAuthority(last.proposal, policy, HistoryOf(before), last.now)
    && WithinRunawayLimit(last.proposal, policy, HistoryOf(before), last.now)
  }

  /** The window of a given length that ends at an instant. */
  predicate InSpan(at: Instant, end: Instant, length: int) {
    end - length < at <= end
  }

  function NotionalIn(end: Instant, length: int): Grant -> real {
    (g: Grant) => if InSpan(g.now, end, length) then AggregateNotional(g.proposal) else 0.0
  }

  function ProposalsIn(grants: seq<Grant>, end: Instant, length: int): nat {
    if grants == [] then 0
    else
      ProposalsIn(grants[..|grants| - 1], end, length)
      + if InSpan(grants[|grants| - 1].now, end, length) then 1 else 0
  }

  function OrdersIn(grants: seq<Grant>, end: Instant, length: int): nat {
    if grants == [] then 0
    else
      OrdersIn(grants[..|grants| - 1], end, length)
      + if InSpan(grants[|grants| - 1].now, end, length) then |grants[|grants| - 1].proposal.legs| else 0
  }

  // ---- a decision sees the whole of any window it falls into ----

  lemma AggregateNonNegative(p: Proposal)
    ensures AggregateNotional(p) >= 0.0
  {
    SumNonNegative(p.legs, BuyNotionalOf());
    SumNonNegative(p.legs, SellNotionalOf());
  }

  lemma {:induction false} RollingSeesWindow(grants: seq<Grant>, now: Instant, end: Instant)
    requires InSpan(now, end, MICROS_PER_DAY)
    ensures SumBy(grants, NotionalIn(end, MICROS_PER_DAY)) <= RollingNotional(HistoryOf(grants), now)
  {
    if grants != [] {
      var before, last := grants[..|grants| - 1], grants[|grants| - 1];
      assert grants == before + [last];
      RollingSeesWindow(before, now, end);
      AggregateNonNegative(last.proposal);
      SumSnoc(before, last, NotionalIn(end, MICROS_PER_DAY));
      SumSnoc(HistoryOf(before), RowOfGrant(last), NotionalInWindow(now, MICROS_PER_DAY));
    }
  }

  lemma {:induction false} CountSeesWindow(grants: seq<Grant>, now: Instant, end: Instant, length: int)
    requires InSpan(now, end, length)
    ensures ProposalsIn(grants, end, length) <= RollingCount(HistoryOf(grants), now, length)
  {
    if grants != [] {
      var before, last := grants[..|grants| - 1], grants[|grants| - 1];
      CountSeesWindow(before, now, end, length);
      CountSnoc(HistoryOf(before), RowOfGrant(last), now, length);
    }
  }

  // ---- bounds that hold in every window ----

  /** Notional reserved autonomously within any 24 hours stays within the limit. */
  lemma {:induction false} EveryWindowNotional(policy: AuthorityPolicy, grants: seq<Grant>, end: Instant)
    requires Authorized(policy, grants) && policy.rollingNotionalMax >= 0.0
    ensures SumBy(grants, NotionalIn(end, MICROS_PER_DAY)) <= policy.rollingNotionalMax
  {
    if grants != [] {
      var before, last := grants[..|grants| - 1], grants[|grants| - 1];
      assert grants == before + [last];
      SumSnoc(before, last, NotionalIn(end, MICROS_PER_DAY));
      if InSpan(last.now, end, MICROS_PER_DAY) {
        RollingSeesWindow(before, last.now, end);
      } else {
        EveryWindowNotional(policy, before, end);
      }
    }
  }

  /** Each grant found room for its legs beside the rows of a window. */
  predicate FoundRoom(grants: seq<Grant>, length: int, limit: nat) {
    grants == [] ||
    var before, last := grants[..|grants| - 1], grants[|grants| - 1];
    && FoundRoom(before, length, limit)
    && RollingCount(HistoryOf(before), last.now, length) + |last.proposal.legs| <= limit
  }

  lemma {:induction false} AuthorizedFoundRoom(policy: AuthorityPolicy, grants: seq<Grant>)
    requires Authorized(policy, grants)
    ensures FoundRoom(grants, MICROS_PER_DAY, policy.rollingCountMax)
    ensures FoundRoom(grants, MICROS_PER_HOUR, policy.runawayHourlyMax)
  {
    if grants != [] {
      AuthorizedFoundRoom(policy, grants[..|grants| - 1]);
    }
  }

  predicate NoEmptyProposal(grants: seq<Grant>) {
    forall g <- grants :: g.proposal.legs != []
  }

  lemma {:induction false} WindowProposals(grants: seq<Grant>, end: Instant, length: int, limit: nat)
    requires FoundRoom(grants, length, limit)
    ensures ProposalsIn(grants, end, length) <= limit + if NoEmptyProposal(grants) then 0 else 1
  {
    if grants != [] {
      var before, last := grants[..|grants| - 1], grants[|grants| - 1];
      WindowProposals(before, end, length, limit);
      assert last in grants;
      if InSpan(last.now, end, length) {
        CountSeesWindow(before, last.now, end, length);
      }
    }
  }

  /** Proposals reserved within any 24 hours, and within any hour, stay within the counts.
      A proposal without legs asks for no order, so one of them may go one past the count. */
  lemma EveryWindowProposals(policy: AuthorityPolicy, grants: seq<Grant>, end: Instant)
    requires Authorized(policy, grants)
    ensures var slack := if NoEmptyProposal(grants) then 0 else 1;
            && ProposalsIn(grants, end, MICROS_PER_DAY) <= policy.rollingCountMax + slack
            && ProposalsIn(grants, end, MICROS_PER_HOUR) <= policy.runawayHourlyMax + slack
  {
    AuthorizedFoundRoom(policy, grants);
    WindowProposals(grants, end, MICROS_PER_DAY, policy.rollingCountMax);
    WindowProposals(grants, end, MICROS_PER_HOUR, policy.runawayHourlyMax);
  }

  /** Exactly when an authorized proposal leaves the rows of both windows within the counts:
      when it has legs, or when a row was still free. */
  lemma RowsFitIff(policy: AuthorityPolicy, history: seq<AutonomousExecution>, g: Grant)
    requires WithinAuthority(g.proposal, policy, history, g.now)
    requires WithinRunawayLimit(g.proposal, policy, history, g.now)
    ensures var after := history + [RowOfGrant(g)];
            && (RollingCount(after, g.now, MICROS_PER_DAY) <= policy.rollingCountMax
                <==> g.proposal.legs != [] || RollingCount(history, g.now, MICROS_PER_DAY) < policy.rollingCountMax)
            && (RollingCount(after, g.now, MICROS_PER_HOUR) <= policy.runawayHourlyMax
                <==> g.proposal.legs != [] || RollingCount(history, g.now, MICROS_PER_HOUR) < policy.runawayHourlyMax)
  {
    CountSnoc(history, RowOfGrant(g), g.now, MICROS_PER_DAY);
    CountSnoc(history, RowOfGrant(g), g.now, MICROS_PER_HOUR);
  }

  function TighterCount(policy: AuthorityPolicy): nat {
    if policy.rollingCountMax <= policy.runawayHourlyMax then policy.rollingCountMax else policy.runawayHourlyMax
  }

  function Name(k: nat): string {
    seq(k, i => 'p')
  }

  function Nothing(k: nat): Proposal {
    Proposal(Name(k), [])
  }

  function EmptyGrants(k: nat): (grants: seq<Grant>)
    ensures |grants| == k
  {
    if k == 0 then [] else EmptyGrants(k - 1) + [Grant(0, Nothing(k))]
  }

  lemma {:induction false} EmptyGrantsAuthorized(policy: AuthorityPolicy, k: nat)
    requires policy.perProposalMax >= 0.0 && policy.rollingNotionalMax >= 0.0 && k <= TighterCount(policy) + 1
    ensures Authorized(policy, EmptyGrants(k))
    ensures HistoryTotals(HistoryOf(EmptyGrants(k)), 0, k)
    ensures ProposalsIn(EmptyGrants(k), 0, MICROS_PER_DAY) == ProposalsIn(EmptyGrants(k), 0, MICROS_PER_HOUR) == k
  {
    hide WithinAuthority, WithinRunawayLimit, AggregateNotional, HistoryTotals, TighterCount;
    if k == 0 {
      NoHistory();
    } else {
      var before, last := EmptyGrants(k - 1), Grant(0, Nothing(k));
      EmptyGrantsAuthorized(policy, k - 1);
      assert EmptyGrants(k)[..k - 1] == before && EmptyGrants(k)[k - 1] == last;
      NothingIsAuthorized(policy, k, HistoryOf(before));
      HistoryTotalsSnoc(HistoryOf(before), RowOfGrant(last), 0, k - 1, 0);
    }
  }

  lemma NoHistory()
    ensures HistoryTotals([], 0, 0)
  {
  }

  lemma NothingIsAuthorized(policy: AuthorityPolicy, k: nat, history: seq<AutonomousExecution>)
    requires policy.perProposalMax >= 0.0 && policy.rollingNotionalMax >= 0.0 && 0 < k <= TighterCount(policy) + 1
    requires HistoryTotals(history, 0, k - 1)
    ensures AggregateNotional(Nothing(k)) == 0.0
    ensures WithinAuthority(Nothing(k), policy, history, 0) && WithinRunawayLimit(Nothing(k), policy, history, 0)
  {
    hide RollingNotional, RollingCount;
  }

  /** Under every policy some authorized history of proposals without legs goes one row past
      the tighter of the two counts, in both windows. */
  lemma EmptyProposalGoesPast(policy: AuthorityPolicy)
    requires policy.perProposalMax >= 0.0 && policy.rollingNotionalMax >= 0.0
    ensures exists grants ::
              && Authorized(policy, grants)
              && ProposalsIn(grants, 0, MICROS_PER_DAY) == TighterCount(policy) + 1
              && ProposalsIn(grants, 0, MICROS_PER_HOUR) == TighterCount(policy) + 1
  {
    EmptyGrantsAuthorized(policy, TighterCount(policy) + 1);
  }

  function Triangle(n: nat): nat {
    if n == 0 then 0 else n + Triangle(n - 1)
  }

  /** The orders that k proposals may place under a limit of n: n, then n - 1, ... */
  function Descending(n: nat, k: nat): nat {
    if k == 0 then 0 else Descending(n, k - 1) + if n >= k - 1 then n - (k - 1) else 0
  }

  lemma {:induction false} DescendingMonotone(n: nat, a: nat, b: nat)
    requires a <= b
    ensures Descending(n, a) <= Descending(n, b)
  {
    if a < b {
      DescendingMonotone(n, a, b - 1);
    }
  }

  lemma {:induction false} DescendingIsTriangle(n: nat, k: nat)
    ensures Descending(n, k) <= Triangle(n)
    ensures k >= n ==> Descending(n, k) == Triangle(n)
  {
    if n == 0 {
      if k > 0 {
        DescendingIsTriangle(0, k - 1);
      }
    } else if k > 0 {
      DescendingIsTriangle(n - 1, k - 1);
      DescendingShift(n, k);
    }
  }

  lemma {:induction false} DescendingShift(n: nat, k: nat)
    requires n > 0 && k > 0
    ensures Descending(n, k) == n + Descending(n - 1, k - 1)
  {
    if k > 1 {
      DescendingShift(n, k - 1);
    } else {
      assert Descending(n, 0) == 0;
    }
  }

  lemma {:induction false} WindowOrders(grants: seq<Grant>, end: Instant, length: int, limit: nat)
    requires FoundRoom(grants, length, limit)
    ensures OrdersIn(grants, end, length) <= Descending(limit, ProposalsIn(grants, end, length)) <= Triangle(limit)
  {
    if grants != [] {
      var before, last := grants[..|grants| - 1], grants[|grants| - 1];
      WindowOrders(before, end, length, limit);
      if InSpan(last.now, end, length) {
        CountSeesWindow(before, last.now, end, length);
      }
    }
    DescendingIsTriangle(limit, ProposalsIn(grants, end, length));
  }

  /** The "order count" limits of both windows count one row a proposal, so they bound orders
      only through the triangle: n + (n - 1) + ... + 1 orders under a limit of n. */
  lemma EveryWindowOrders(policy: AuthorityPolicy, grants: seq<Grant>, end: Instant)
    requires Authorized(policy, grants)
    ensures OrdersIn(grants, end, MICROS_PER_DAY) <= Descending(policy.rollingCountMax, ProposalsIn(grants, end, MICROS_PER_DAY))
    ensures OrdersIn(grants, end, MICROS_PER_DAY) <= Triangle(policy.rollingCountMax)
    ensures OrdersIn(grants, end, MICROS_PER_HOUR) <= Descending(policy.runawayHourlyMax, ProposalsIn(grants, end, MICROS_PER_HOUR))
    ensures OrdersIn(grants, end, MICROS_PER_HOUR) <= Triangle(policy.runawayHourlyMax)
  {
    AuthorizedFoundRoom(policy, grants);
    WindowOrders(grants, end, MICROS_PER_DAY, policy.rollingCountMax);
    WindowOrders(grants, end, MICROS_PER_HOUR, policy.runawayHourlyMax);
  }

  // ---- the triangle is reached ----

  predicate CostsOne(l: Leg) {
    l.side.Buy? && l.quantity == 1.0 && l.referencePrice == 1.0
  }

  function UnitLegs(pid: string, n: nat): (legs: seq<Leg>)
    ensures |legs| == n && forall l <- legs :: CostsOne(l)
  {
    seq(n, i => ProposedOrder(pid, i, "SGOV", Buy, 1.0, 1.0, Derived(pid, i)))
  }

  function UnitProposal(n: nat, k: nat): Proposal
    requires 0 < k <= n
  {
    Proposal(Name(k), UnitLegs(Name(k), n - k + 1))
  }

  function Staircase(n: nat, k: nat): (grants: seq<Grant>)
    requires k <= n
    ensures |grants| == k
  {
    if k == 0 then [] else Staircase(n, k - 1) + [Grant(0, UnitProposal(n, k))]
  }

  lemma UnitNotional(l: Leg)
    requires CostsOne(l)
    ensures Notional(l) == 1.0
  {
    assert (1.0 * 1.0 * 100.0).Floor == 100;
  }

  lemma {:induction false} UnitAggregate(legs: seq<Leg>)
    requires forall l <- legs :: CostsOne(l)
    ensures SumBy(legs, BuyNotionalOf()) == |legs| as real && SumBy(legs, SellNotionalOf()) == 0.0
  {
    if legs != [] {
      UnitNotional(legs[0]);
      assert forall l <- legs[1..] :: l in legs;
      UnitAggregate(legs[1..]);
    }
  }

  predicate RoomForTriangle(policy: AuthorityPolicy, n: nat) {
    && policy.rollingCountMax >= n && policy.runawayHourlyMax >= n
    && policy.perOrderMax >= 1.0 && policy.perProposalMax >= n as real
    && policy.rollingNotionalMax >= Triangle(n) as real
  }

  predicate HistoryTotals(history: seq<AutonomousExecution>, notional: nat, count: nat) {
    && RollingNotional(history, 0) == notional as real
    && RollingCount(history, 0, MICROS_PER_DAY) == count && RollingCount(history, 0, MICROS_PER_HOUR) == count
  }

  lemma UnitProposalTotal(n: nat, k: nat)
    requires 0 < k <= n
    ensures AggregateNotional(UnitProposal(n, k)) == (n - k + 1) as real
  {
    UnitAggregate(UnitProposal(n, k).legs);
  }

  lemma UnitProposalAuthorized(policy: AuthorityPolicy, n: nat, k: nat, history: seq<AutonomousExecution>)
    requires 0 < k <= n && RoomForTriangle(policy, n) && HistoryTotals(history, Descending(n, k - 1), k - 1)
    ensures WithinAuthority(UnitProposal(n, k), policy, history, 0)
    ensures WithinRunawayLimit(UnitProposal(n, k), policy, history, 0)
  {
    hide RollingNotional, RollingCount, Triangle, AggregateNotional;
    var p := UnitProposal(n, k);
    UnitProposalTotal(n, k);
    DescendingIsTriangle(n, k);
    forall l <- p.legs ensures Notional(l) == 1.0 {
      UnitNotional(l);
    }
  }

  lemma HistoryTotalsSnoc(history: seq<AutonomousExecution>, e: AutonomousExecution, notional: nat, count: nat, more: nat)
    requires HistoryTotals(history, notional, count) && e.timestamp == 0 && e.notional == more as real
    ensures HistoryTotals(history + [e], notional + more, count + 1)
  {
    SumSnoc(history, e, NotionalInWindow(0, MICROS_PER_DAY));
    CountSnoc(history, e, 0, MICROS_PER_DAY);
    CountSnoc(history, e, 0, MICROS_PER_HOUR);
  }

  lemma {:induction false} StaircaseAuthorized(policy: AuthorityPolicy, n: nat, k: nat)
    requires k <= n && RoomForTriangle(policy, n)
    ensures Authorized(policy, Staircase(n, k))
    ensures HistoryTotals(HistoryOf(Staircase(n, k)), Descending(n, k), k)
    ensures OrdersIn(Staircase(n, k), 0, MICROS_PER_DAY) == OrdersIn(Staircase(n, k), 0, MICROS_PER_HOUR) == Descending(n, k)
  {
    hide WithinAuthority, WithinRunawayLimit, AggregateNotional;
    if k > 0 {
      hide HistoryTotals, RoomForTriangle;
      var before, last := Staircase(n, k - 1), Grant(0, UnitProposal(n, k));
      StaircaseAuthorized(policy, n, k - 1);
      assert Staircase(n, k)[..k - 1] == before && Staircase(n, k)[k - 1] == last;
      UnitProposalAuthorized(policy, n, k, HistoryOf(before));
      UnitProposalTotal(n, k);
      HistoryTotalsSnoc(HistoryOf(before), RowOfGrant(last), Descending(n, k - 1), k - 1, n - k + 1);
    }
  }

  /** Under every policy whose notional limits leave room for it, n + (n - 1) + ... + 1 orders
      are reserved within one hour, for the tighter count n. */
  lemma TriangleIsReached(policy: AuthorityPolicy)
    requires RoomForTriangle(policy, TighterCount(policy))
    ensures exists grants ::
              && Authorized(policy, grants)
              && OrdersIn(grants, 0, MICROS_PER_DAY) == Triangle(TighterCount(policy))
              && OrdersIn(grants, 0, MICROS_PER_HOUR) == Triangle(TighterCount(policy))
  {
    var n := TighterCount(policy);
    StaircaseAuthorized(policy, n, n);
    DescendingIsTriangle(n, n);
  }

  // ---- exactly when the counts bound orders ----

  predicate AtMostOneLeg(grants: seq<Grant>) {
    forall g <- grants :: |g.proposal.legs| <= 1
  }

  lemma {:induction false} LegsWithinLimit(grants: seq<Grant>, length: int, limit: nat)
    requires FoundRoom(grants, length, limit)
    ensures forall g <- grants :: |g.proposal.legs| <= limit
  {
    if grants != [] {
      LegsWithinLimit(grants[..|grants| - 1], length, limit);
      assert grants == grants[..|grants| - 1] + [grants[|grants| - 1]];
    }
  }

  lemma {:induction false} OrdersAreProposals(grants: seq<Grant>, end: Instant, length: int)
    requires AtMostOneLeg(grants)
    ensures OrdersIn(grants, end, length) <= ProposalsIn(grants, end, length)
  {
    if grants != [] {
      assert grants[|grants| - 1] in grants;
      OrdersAreProposals(grants[..|grants| - 1], end, length);
    }
  }

  lemma {:induction false} SingleLegsFit(grants: seq<Grant>, end: Instant, length: int, limit: nat)
    requires FoundRoom(grants, length, limit) && AtMostOneLeg(grants)
    ensures OrdersIn(grants, end, length) <= limit
  {
    if grants != [] {
      var before, last := grants[..|grants| - 1], grants[|grants| - 1];
      assert last in grants;
      SingleLegsFit(before, end, length, limit);
      if InSpan(last.now, end, length) {
        OrdersAreProposals(before, end, length);
        CountSeesWindow(before, last.now, end, length);
      }
    }
  }

  /** Every authorized history keeps the orders of every window within its count. */
  ghost predicate BoundsOrders(policy: AuthorityPolicy) {
    forall grants, end | Authorized(policy, grants) ::
      && OrdersIn(grants, end, MICROS_PER_DAY) <= policy.rollingCountMax
      && OrdersIn(grants, end, MICROS_PER_HOUR) <= policy.runawayHourlyMax
  }

  /** The two "order count" limits bound orders if one of them is at most one, and, where the
      notional limits leave room, only then. */
  lemma BoundsOrdersIff(policy: AuthorityPolicy)
    ensures TighterCount(policy) <= 1 ==> BoundsOrders(policy)
    ensures RoomForTriangle(policy, TighterCount(policy)) ==> (BoundsOrders(policy) <==> TighterCount(policy) <= 1)
  {
    hide Authorized, RoomForTriangle;
    if TighterCount(policy) <= 1 {
      forall grants, end | Authorized(policy, grants)
        ensures OrdersIn(grants, end, MICROS_PER_DAY) <= policy.rollingCountMax
        ensures OrdersIn(grants, end, MICROS_PER_HOUR) <= policy.runawayHourlyMax
      {
        AuthorizedFoundRoom(policy, grants);
        LegsWithinLimit(grants, MICROS_PER_DAY, policy.rollingCountMax);
        LegsWithinLimit(grants, MICROS_PER_HOUR, policy.runawayHourlyMax);
        SingleLegsFit(grants, end, MICROS_PER_DAY, policy.rollingCountMax);
        SingleLegsFit(grants, end, MICROS_PER_HOUR, policy.runawayHourlyMax);
      }
    } else if RoomForTriangle(policy, TighterCount(policy)) {
      TriangleIsReached(policy);
      TriangleGrows(TighterCount(policy));
    }
  }

  lemma {:induction false} TriangleGrows(n: nat)
    requires n >= 2
    ensures Triangle(n) > n
  {
    if n > 2 {
      TriangleGrows(n - 1);
    } else {
      assert Triangle(2) == 2 + Triangle(1) && Triangle(1) == 1 + Triangle(0);
    }
  }
}
