/** Rolling delegated-authority windows (backend/opaca/authority/engine.py). */
module Authority {
  import opened Domain
  import opened Sums

  /** One row of the autonomous_executions table. */
  datatype AutonomousExecution = AutonomousExecution(proposalId: string, timestamp: Instant, notional: real)

  datatype AuthorityPolicy = AuthorityPolicy(
    perOrderMax: real, perProposalMax: real, rollingNotionalMax: real,
    rollingCountMax: nat, runawayHourlyMax: nat)

  /** An execution counts when it is younger than the window; a future-dated one always
      counts. */
  predicate InWindow(e: AutonomousExecution, now: Instant, window: int) {
    e.timestamp > now - window
  }

  function NotionalInWindow(now: Instant, window: int): AutonomousExecution -> real {
    (e: AutonomousExecution) => if InWindow(e, now, window) then e.notional else 0.0
  }


  function RollingNotional(history: seq<AutonomousExecution>, now: Instant): real {
    SumBy(history, NotionalInWindow(now, MICROS_PER_DAY))
  }

  function RollingCount(history: seq<AutonomousExecution>, now: Instant, window: int): nat {
    if history == [] then 0
    else (if InWindow(history[0], now, window) then 1 else 0) + RollingCount(history[1..], now, window)
  }

  function AggregateNotional(p: Proposal): real {
    p.TotalBuyNotional() + p.TotalSellNotional()
  }

  /** CHECK-07: no entry in the list of `authority_dimension_violations`. */
  predicate WithinAuthority(p: Proposal, policy: AuthorityPolicy, history: seq<AutonomousExecution>, now: Instant) {
    && (forall l <- p.legs :: Notional(l) <= policy.perOrderMax)
    && AggregateNotional(p) <= policy.perProposalMax
    && RollingNotional(history, now) + AggregateNotional(p) <= policy.rollingNotionalMax
    && RollingCount(history, now, MICROS_PER_DAY) + |p.legs| <= policy.rollingCountMax
  }

  /** CHECK-13 */
  predicate WithinRunawayLimit(p: Proposal, policy: AuthorityPolicy, history: seq<AutonomousExecution>, now: Instant) {
    RollingCount(history, now, MICROS_PER_HOUR) + |p.legs| <= policy.runawayHourlyMax
  }

  // ---- the loops ----

  lemma {:induction false} CountSnoc(history: seq<AutonomousExecution>, e: AutonomousExecution, now: Instant, window: int)
    ensures RollingCount(history + [e], now, window)
         == RollingCount(history, now, window) + if InWindow(e, now, window) then 1 else 0
  {
    if history != [] {
      assert (history + [e])[1..] == history[1..] + [e];
      CountSnoc(history[1..], e, now, window);
    } else {
      assert [e][1..] == [];
    }
  }

  /** `executions_in_window`: what `rolling_notional` and `rolling_count` total. */
  method InWindowTotals(history: seq<AutonomousExecution>, now: Instant, window: int) returns (notional: real, count: nat)
    ensures notional == SumBy(history, NotionalInWindow(now, window)) && count == RollingCount(history, now, window)
  {
    notional, count := 0.0, 0;
    for i := 0 to |history|
      invariant notional == SumBy(history[..i], NotionalInWindow(now, window))
      invariant count == RollingCount(history[..i], now, window)
    {
      var e := history[i];
      assert history[..i + 1] == history[..i] + [e];
      SumSnoc(history[..i], e, NotionalInWindow(now, window));
      CountSnoc(history[..i], e, now, window);
      if e.timestamp > now - window {
        notional, count := notional + e.notional, count + 1;
      }
    }
    assert history[..|history|] == history;
  }

  /** `authority_dimension_violations` leaves an empty list. */
  method CheckDimensions(p: Proposal, policy: AuthorityPolicy, history: seq<AutonomousExecution>, now: Instant)
    returns (passed: bool)
    ensures passed == WithinAuthority(p, policy, history, now)
  {
    passed := true;
    for i := 0 to |p.legs|
      invariant passed <==> forall l <- p.legs[..i] :: Notional(l) <= policy.perOrderMax
    {
      assert p.legs[..i + 1] == p.legs[..i] + [p.legs[i]];
      if Notional(p.legs[i]) > policy.perOrderMax {
        passed := false;
      }
    }
    assert p.legs[..|p.legs|] == p.legs;
    if AggregateNotional(p) > policy.perProposalMax {
      passed := false;
    }
    var notional, count := InWindowTotals(history, now, MICROS_PER_DAY);
    if notional + AggregateNotional(p) > policy.rollingNotionalMax {
      passed := false;
    }
    if count + |p.legs| > policy.rollingCountMax {
      passed := false;
    }
  }
}
