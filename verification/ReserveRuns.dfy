/** Whole runs of evaluate-and-reserve: cash is never over-committed and rolling authority
    holds in every window (backend/opaca/orchestration/reserve.py:188-519). */
module ReserveRuns {
  import opened Authority
  import opened Capacity
  import opened CapacitySteps
  import opened Decision
  import opened Domain
  import opened Execution
  import opened Guard
  import opened Liquidity
  import opened Money
  import opened Orchestration
  import opened Records
  import Requirements
  import opened Results
  import opened RollingAuthority
  import opened Sums
  import opened Tables

  datatype Request = Request(proposal: Proposal, call: Call)

  /** The tables after a sequence of calls, whatever their outcomes. */
  ghost function AfterRequests(t: Tables, cfg: Settings, requests: seq<Request>): Tables {
    if requests == [] then t
    else
      var last := requests[|requests| - 1];
      EvaluateAndReserve(AfterRequests(t, cfg, requests[..|requests| - 1]), last.proposal, cfg, last.call).0
  }

  ghost predicate ReservesAuto(t: Tables, cfg: Settings, request: Request) {
    EvaluateAndReserve(t, request.proposal, cfg, request.call).1.IsAuto()
  }

  /** A call either reserves automatically, or changes no reservation and no history. */
  lemma CallChanges(t: Tables, cfg: Settings, request: Request)
    ensures var u := EvaluateAndReserve(t, request.proposal, cfg, request.call).0;
            && u.snapshot == t.snapshot && u.events == t.events && u.orders == t.orders && u.unknown == t.unknown
            && (!ReservesAuto(t, cfg, request) ==> u.reservations == t.reservations && u.history == t.history)
  {
    hide DecisionOf, ContextOf, NewRows, IdentityFree;
  }

  lemma AutoMeans(t: Tables, cfg: Settings, request: Request)
    requires ReservesAuto(t, cfg, request)
    ensures t.snapshot.Some? && RowOf(t.proposals, request.proposal.proposalId).None?
    ensures DecisionOf(request.proposal, ContextOf(t, cfg, request.call, None)).Auto?
    ensures var u := EvaluateAndReserve(t, request.proposal, cfg, request.call).0;
            && u.reservations == t.reservations + NewRows(request.proposal, |t.reservations|)
            && u.history == t.history + [RowOfGrant(Grant(request.call.now, request.proposal))]
            && u.proposals == t.proposals
                 + [DecidedRow(request.proposal, Auto, cfg, request.call, t.snapshot.value.version)]
  {
    hide DecisionOf, ContextOf, NewRows, IdentityFree;
  }

  // ---- cash ----

  function SettledCash(t: Tables, day: int): real
    requires t.snapshot.Some?
  {
    t.snapshot.value.cash - SumBy(Unsettled(t.events, day), EventAmount())
  }

  /** Operating reserve, obligations and all active cash reservations fit into the cash
      that is settled on a day. */
  predicate CashFits(t: Tables, cfg: Settings, day: int) {
    && t.snapshot.Some?
    && RoundMoney(cfg.operatingReserve) + SumBy(cfg.obligations, ObligationAmount())
       + SumBy(t.reservations, ActiveCashOf()) <= SettledCash(t, day)
  }

  lemma {:induction false} CashObligationsSum(rs: seq<Reservation>, day: int)
    ensures SumBy(CashObligations(ActiveRows(rs, None), day), ObligationAmount()) == SumBy(rs, ActiveCashOf())
  {
    if rs != [] {
      CashObligationsSum(rs[1..], day);
      var rest := ActiveRows(rs[1..], None);
      if rs[0].active {
        assert ActiveRows(rs, None) == [rs[0]] + rest;
        assert ([rs[0]] + rest)[1..] == rest;
        if rs[0].kind.CashDeployment? && AmountOf(rs[0]) > 0.0 {
          var one: seq<Obligation> := [CashObligation(rs[0], day)];
          SumAppend<Obligation>(one, CashObligations(rest, day), ObligationAmount());
          assert one[1..] == [];
        } else {
          assert CashObligations([rs[0]] + rest, day) == CashObligations(rest, day);
        }
      } else {
        assert ActiveRows(rs, None) == rest;
      }
    }
  }

  lemma {:induction false} SettledGrows(events: seq<SettlementEvent>, from: int, to: int)
    requires from <= to
    ensures SumBy(Unsettled(events, to), EventAmount()) <= SumBy(Unsettled(events, from), EventAmount())
  {
    if events != [] {
      SettledGrows(events[1..], from, to);
      UnsettledStep(events, from);
      UnsettledStep(events, to);
    }
  }

  lemma UnsettledStep(events: seq<SettlementEvent>, day: int)
    requires events != []
    ensures SumBy(Unsettled(events, day), EventAmount())
         == SumBy(Unsettled(events[1..], day), EventAmount()) + if events[0].settlementDate > day then events[0].amount else 0.0
  {
    if events[0].settlementDate > day {
      assert Unsettled(events, day) == [events[0]] + Unsettled(events[1..], day);
      assert ([events[0]] + Unsettled(events[1..], day))[1..] == Unsettled(events[1..], day);
    } else {
      assert Unsettled(events, day) == Unsettled(events[1..], day);
    }
  }

  lemma NewRowsCashTotal(p: Proposal, nextId: nat)
    ensures SumBy(NewRows(p, nextId), ActiveCashOf()) == p.TotalBuyNotional()
  {
    hide NewRows;
    forall r <- NewRows(p, nextId) ensures ActiveCashOf()(r) == ActiveCashFor(p.proposalId)(r) {
      NewRowsShape(p, nextId, r);
    }
    SumEq(NewRows(p, nextId), ActiveCashOf(), ActiveCashFor(p.proposalId));
    NewRowsCashSum(p, nextId, p.proposalId);
  }

  lemma InvestableIsWhatFits(t: Tables, cfg: Settings, call: Call)
    requires t.snapshot.Some? && LiquidityOf(ContextOf(t, cfg, call, None)).Ok?
    ensures LiquidityOf(ContextOf(t, cfg, call, None)).value.investableCash
         == SettledCash(t, DateOf(call.now)) - RoundMoney(cfg.operatingReserve)
            - SumBy(cfg.obligations, ObligationAmount()) - SumBy(t.reservations, ActiveCashOf())
  {
    hide UnresolvedIn;
    var reserved := CashObligations(ActiveRows(t.reservations, None), DateOf(call.now));
    SumAppend<Obligation>(cfg.obligations, reserved, ObligationAmount());
    CashObligationsSum(t.reservations, DateOf(call.now));
  }

  lemma AutoPassesBase(p: Proposal, c: PolicyContext)
    requires DecisionOf(p, c).Auto?
    ensures BasePasses(p, c) && WithinAuthority(p, c.authority, c.history, c.now)
  {
  }

  /** An automatic reservation fits, together with everything reserved before it. */
  lemma AutoFits(t: Tables, cfg: Settings, request: Request)
    requires ReservesAuto(t, cfg, request)
    ensures CashFits(EvaluateAndReserve(t, request.proposal, cfg, request.call).0, cfg, DateOf(request.call.now))
  {
    hide DecisionOf, ContextOf, NewRows, EvaluateAndReserve, LiquidityOf;
    CallChanges(t, cfg, request);
    AutoMeans(t, cfg, request);
    var p, c := request.proposal, ContextOf(t, cfg, request.call, None);
    var u := EvaluateAndReserve(t, p, cfg, request.call).0;
    AutoPassesBase(p, c);
    BaseMeans(p, c, Check01);
    InvestableIsWhatFits(t, cfg, request.call);
    SumAppend<Reservation>(t.reservations, NewRows(p, |t.reservations|), ActiveCashOf());
    NewRowsCashTotal(p, |t.reservations|);
  }

  lemma FitsLater(t: Tables, cfg: Settings, from: int, to: int)
    requires CashFits(t, cfg, from) && from <= to
    ensures CashFits(t, cfg, to)
  {
    SettledGrows(t.events, from, to);
  }

  /** The date of the last automatic reservation of a run. */
  ghost function LastAutoDay(t: Tables, cfg: Settings, requests: seq<Request>): Option<int> {
    if requests == [] then None
    else
      var before, last := requests[..|requests| - 1], requests[|requests| - 1];
      if ReservesAuto(AfterRequests(t, cfg, before), cfg, last) then Some(DateOf(last.call.now))
      else LastAutoDay(t, cfg, before)
  }

  /** No cash over-commitment: once something was reserved automatically, reserve,
      obligations and all active cash reservations stay within settled cash through every
      later call and replay, on that date and every later one. */
  lemma {:induction false} RunsNeverOvercommit(t: Tables, cfg: Settings, requests: seq<Request>, day: int)
    requires LastAutoDay(t, cfg, requests).Some? && LastAutoDay(t, cfg, requests).value <= day
    ensures CashFits(AfterRequests(t, cfg, requests), cfg, day)
  {
    hide EvaluateAndReserve, CashFits;
    var before, last := requests[..|requests| - 1], requests[|requests| - 1];
    var t0 := AfterRequests(t, cfg, before);
    if ReservesAuto(t0, cfg, last) {
      AutoFits(t0, cfg, last);
      FitsLater(AfterRequests(t, cfg, requests), cfg, DateOf(last.call.now), day);
    } else {
      RunsNeverOvercommit(t, cfg, before, day);
      CallChanges(t0, cfg, last);
      FitsCarriesOver(t0, AfterRequests(t, cfg, requests), cfg, day);
    }
  }

  lemma FitsCarriesOver(t: Tables, u: Tables, cfg: Settings, day: int)
    requires CashFits(t, cfg, day)
    requires u.snapshot == t.snapshot && u.events == t.events && u.reservations == t.reservations
    ensures CashFits(u, cfg, day)
  {
  }

  // ---- rolling authority ----

  /** The automatic reservations of a run, in order. */
  ghost function GrantsOf(t: Tables, cfg: Settings, requests: seq<Request>): seq<Grant> {
    if requests == [] then []
    else
      var before, last := requests[..|requests| - 1], requests[|requests| - 1];
      GrantsOf(t, cfg, before)
      + if ReservesAuto(AfterRequests(t, cfg, before), cfg, last) then [Grant(last.call.now, last.proposal)] else []
  }

  lemma ContextAuthority(t: Tables, cfg: Settings, call: Call)
    requires t.snapshot.Some?
    ensures var c := ContextOf(t, cfg, call, None);
            c.authority == cfg.authority && c.history == t.history && c.now == call.now
  {
    hide UnresolvedIn, CashObligations;
  }

  /** The history table records the earlier grants and then exactly those of the run, and
      each was authorized by the rows before it. */
  lemma {:induction false} RunsAreAuthorized(t: Tables, cfg: Settings, earlier: seq<Grant>, requests: seq<Request>)
    requires t.history == HistoryOf(earlier) && Authorized(cfg.authority, earlier)
    ensures AfterRequests(t, cfg, requests).history == HistoryOf(earlier + GrantsOf(t, cfg, requests))
    ensures Authorized(cfg.authority, earlier + GrantsOf(t, cfg, requests))
  {
    hide EvaluateAndReserve, DecisionOf, ContextOf, WithinAuthority, WithinRunawayLimit, AggregateNotional, NewRows, BasePasses;
    if requests == [] {
      assert earlier + GrantsOf(t, cfg, requests) == earlier;
    } else {
      var before, last := requests[..|requests| - 1], requests[|requests| - 1];
      var t0, grants := AfterRequests(t, cfg, before), GrantsOf(t, cfg, before);
      RunsAreAuthorized(t, cfg, earlier, before);
      CallChanges(t0, cfg, last);
      if !ReservesAuto(t0, cfg, last) {
        assert GrantsOf(t, cfg, requests) == grants;
      } else {
        AutoMeans(t0, cfg, last);
        var c := ContextOf(t0, cfg, last.call, None);
        AutoPassesBase(last.proposal, c);
        BaseMeans(last.proposal, c, Check13);
        ContextAuthority(t0, cfg, last.call);
        var g := Grant(last.call.now, last.proposal);
        assert earlier + GrantsOf(t, cfg, requests) == (earlier + grants) + [g];
        assert ((earlier + grants) + [g])[..|earlier + grants|] == earlier + grants;
      }
    }
  }

  lemma {:induction false} GrantsKeepLimits(policy: AuthorityPolicy, grants: seq<Grant>)
    requires Authorized(policy, grants)
    ensures forall g <- grants ::
              && (forall l <- g.proposal.legs :: BudgetOf(l.quantity, l.referencePrice) <= policy.perOrderMax)
              && SumBy(g.proposal.legs, Requirements.CostOf()) <= policy.perProposalMax
  {
    hide RollingNotional, RollingCount, AggregateNotional, WithinRunawayLimit;
    if grants != [] {
      var before, last := grants[..|grants| - 1], grants[|grants| - 1];
      GrantsKeepLimits(policy, before);
      Requirements.AggregateIs(last.proposal);
      assert forall l <- last.proposal.legs :: Notional(l) == BudgetOf(l.quantity, l.referencePrice);
      assert forall g <- grants :: g in before || g == last;
    }
  }

  /** Delegated authority over whole runs, whatever was reserved before them, for every
      window and with clocks in any order. */
  lemma RunsStayWithinAuthority(t: Tables, cfg: Settings, earlier: seq<Grant>, requests: seq<Request>, end: Instant)
    requires t.history == HistoryOf(earlier) && Authorized(cfg.authority, earlier)
    requires cfg.authority.rollingNotionalMax >= 0.0
    ensures var grants := earlier + GrantsOf(t, cfg, requests);
            && SumBy(grants, NotionalIn(end, MICROS_PER_DAY)) <= cfg.authority.rollingNotionalMax
            && (forall g <- grants ::
                  && (forall l <- g.proposal.legs :: BudgetOf(l.quantity, l.referencePrice) <= cfg.authority.perOrderMax)
                  && SumBy(g.proposal.legs, Requirements.CostOf()) <= cfg.authority.perProposalMax)
            && (NoEmptyProposal(grants) ==>
                  && ProposalsIn(grants, end, MICROS_PER_DAY) <= cfg.authority.rollingCountMax
                  && ProposalsIn(grants, end, MICROS_PER_HOUR) <= cfg.authority.runawayHourlyMax)
            && OrdersIn(grants, end, MICROS_PER_DAY) <= Triangle(cfg.authority.rollingCountMax)
            && OrdersIn(grants, end, MICROS_PER_HOUR) <= Triangle(cfg.authority.runawayHourlyMax)
  {
    var grants := earlier + GrantsOf(t, cfg, requests);
    RunsAreAuthorized(t, cfg, earlier, requests);
    GrantsKeepLimits(cfg.authority, grants);
    EveryWindowNotional(cfg.authority, grants, end);
    EveryWindowProposals(cfg.authority, grants, end);
    EveryWindowOrders(cfg.authority, grants, end);
  }

  // ---- capacity ----

  /** The invariant of Capacity holds through every call. */
  lemma EvaluateAndReserveKeeps(t: Tables, cfg: Settings, request: Request)
    requires CapacityInv(t) && forall o <- t.orders :: RowOf(t.proposals, o.proposalId).Some?
    ensures CapacityInv(EvaluateAndReserve(t, request.proposal, cfg, request.call).0)
  {
    hide CapacityInv, DecisionOf, ContextOf, NewRows, IdentityFree;
    var p := request.proposal;
    var (u, outcome) := EvaluateAndReserve(t, p, cfg, request.call);
    if outcome.Decided? {
      ReserveKeeps(t, u, DecidedRow(p, outcome.authority, cfg, request.call, t.snapshot.value.version));
    }
  }
}
