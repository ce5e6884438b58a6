/** Reading the tables into a policy context, and the evaluate-and-reserve transaction
    (backend/opaca/orchestration/context.py, reserve.py). */
module Orchestration {
  import opened Authority
  import opened Calendar
  import CapacitySteps
  import opened Decision
  import opened Domain
  import opened Execution
  import opened Guard
  import opened Records
  import opened Results
  import opened States
  import opened Sums
  import opened Tables
  import opened Unresolved

  datatype RawSettings = Settings(
    operatingReserve: real, permitted: set<Symbol>, concentrationMax: real, minTradeNotional: real,
    authority: AuthorityPolicy, obligations: seq<Obligation>, approvalExpiry: nat, maxSnapshotAge: nat,
    calendar: TradingCalendar)

  /** The policy and scenario tables. */
  type Settings = s: RawSettings |
    s.operatingReserve >= 0.0 && s.minTradeNotional > 0.0 && 0.0 <= s.concentrationMax <= 1.0
    witness RawSettings.Settings(0.0, {}, 1.0, 1.0, AuthorityPolicy.AuthorityPolicy(1.0, 1.0, 1.0, 1, 1), [], 0, 0, Static({}))

  /** What one call brings along, and the gates that are single comparisons with the
      outside world. `granted` says that a human grant for this payload is stored. */
  datatype Call = Call(
    now: Instant, prices: Prices, expectedVersion: Option<int>, environmentVerified: bool,
    sessionOpen: bool, quotesUsable: bool, killSwitch: bool, granted: bool)

  // ---- build_policy_context ----

  function ActiveRows(rs: seq<Reservation>, excluding: Option<string>): (r: seq<Reservation>)
    ensures forall x <- r :: x in rs && x.active && excluding != Some(x.proposalId)
  {
    if rs == [] then []
    else
      (if rs[0].active && excluding != Some(rs[0].proposalId) then [rs[0]] else []) + ActiveRows(rs[1..], excluding)
  }

  function UnknownRows(rows: seq<UnknownOrder>, excluding: Option<string>): seq<UnknownOrder> {
    if rows == [] then []
    else (if excluding != Some(rows[0].proposalId) then [rows[0]] else []) + UnknownRows(rows[1..], excluding)
  }

  function HistoryRows(rows: seq<AutonomousExecution>, excluding: Option<string>): (r: seq<AutonomousExecution>)
    ensures excluding.None? ==> r == rows
  {
    if rows == [] then []
    else (if excluding != Some(rows[0].proposalId) then [rows[0]] else []) + HistoryRows(rows[1..], excluding)
  }

  function CashObligation(r: Reservation, due: Day): Obligation
    requires AmountOf(r) > 0.0
  {
    Obligation("reservation-cash:" + r.proposalId, AmountOf(r), due)
  }

  /** `_cash_reservation_obligations` */
  function CashObligations(active: seq<Reservation>, due: Day): seq<Obligation> {
    if active == [] then []
    else
      (if active[0].kind.CashDeployment? && AmountOf(active[0]) > 0.0 then [CashObligation(active[0], due)] else [])
      + CashObligations(active[1..], due)
  }

  /** `_local_client_order_ids`; the orders of an excluded proposal are local too. */
  function LocalIds(t: Tables, active: seq<Reservation>, unknown: seq<UnknownOrder>, excluding: Option<string>): set<OrderId> {
    (set r <- active | r.clientOrderId.Some? :: r.clientOrderId.value)
    + (set u <- unknown :: u.clientOrderId)
    + (set o <- t.orders :: o.id)
    + (if excluding.Some? then set l <- LegsOf(t, excluding.value) :: l.clientOrderId else {})
  }

  function UnresolvedIn(t: Tables, excluding: Option<string>): seq<UnresolvedOrder>
    requires t.snapshot.Some?
  {
    var active := ActiveRows(t.reservations, excluding);
    var unknown := UnknownRows(t.unknown, excluding);
    Merged(ContextOrders(active, unknown, t.snapshot.value.orders, LocalIds(t, active, unknown, excluding)))
  }

  function ContextOf(t: Tables, cfg: Settings, call: Call, excluding: Option<string>): PolicyContext
    requires t.snapshot.Some?
  {
    var snapshot := t.snapshot.value;
    PolicyContext(
      snapshot.cash, snapshot.positions,
      cfg.obligations + CashObligations(ActiveRows(t.reservations, excluding), DateOf(call.now)),
      t.events, snapshot.tradable, call.prices, cfg.operatingReserve, cfg.permitted, cfg.concentrationMax,
      cfg.minTradeNotional, cfg.authority, call.killSwitch, call.environmentVerified, call.sessionOpen,
      call.now, UnresolvedIn(t, excluding), HistoryRows(t.history, excluding), cfg.calendar)
  }

  /** The broker's copy of an order that the ledger knows by an execution row, an active
      reservation or an unknown row leaves the whole policy context as it is. */
  lemma LocalCopyChangesNoContext(t: Tables, u: Tables, cfg: Settings, call: Call, before: seq<BrokerOrder>, copy: BrokerOrder,
                                  after: seq<BrokerOrder>)
    requires t.snapshot.Some? && t.snapshot.value.orders == before + after
    requires u == t.(snapshot := Some(t.snapshot.value.(orders := before + [copy] + after)))
    requires || (exists o <- t.orders :: o.id == copy.clientOrderId)
             || (exists r <- t.reservations :: r.active && r.clientOrderId == Some(copy.clientOrderId))
             || (exists x <- t.unknown :: x.clientOrderId == copy.clientOrderId)
    ensures ContextOf(u, cfg, call, None) == ContextOf(t, cfg, call, None)
  {
    var active, unknown := ActiveRows(t.reservations, None), UnknownRows(t.unknown, None);
    AllActive(t.reservations);
    AllUnknown(t.unknown);
    assert copy.clientOrderId in LocalIds(t, active, unknown, None);
    LocalCopySkipped(before, copy, after, LocalIds(t, active, unknown, None));
  }

  lemma {:induction false} AllActive(rs: seq<Reservation>)
    ensures forall r <- rs | r.active :: r in ActiveRows(rs, None)
  {
    if rs != [] {
      AllActive(rs[1..]);
      assert forall r <- rs :: r == rs[0] || r in rs[1..];
    }
  }

  lemma {:induction false} AllUnknown(rows: seq<UnknownOrder>)
    ensures UnknownRows(rows, None) == rows
  {
    if rows != [] {
      AllUnknown(rows[1..]);
    }
  }

  // ---- evaluate_and_reserve ----

  /** `_snapshot_gate` */
  predicate SnapshotUsable(t: Tables, cfg: Settings, call: Call) {
    && t.snapshot.Some? && t.snapshot.value.reconciled
    && call.expectedVersion == Some(t.snapshot.value.version)
    && t.snapshot.value.capturedAt <= call.now
    && call.now - t.snapshot.value.capturedAt <= cfg.maxSnapshotAge
  }

  datatype Outcome =
    | Blocked(replay: bool)
    | Replayed(authority: AuthorityResult)
    | Decided(authority: AuthorityResult)
    | Raised
  {
    /** `is_auto`: a replay never asserts that it may execute. */
    predicate IsAuto() {
      Decided? && authority.Auto?
    }
  }

  /** `is_currently_valid_approval`; expiry at the exact instant is expired. */
  predicate ApprovalValid(row: ProposalRow, now: Instant) {
    row.authority.NeedsApproval? && row.expiresAt.Some? && now < row.expiresAt.value
  }

  function StoredLegIds(proposals: seq<ProposalRow>): set<OrderId> {
    set row <- proposals, l <- row.proposal.legs :: l.clientOrderId
  }

  /** PRIMARY KEY(client_order_id) of order_identity and UNIQUE(proposal_id, leg_index). */
  predicate IdentityFree(t: Tables, p: Proposal) {
    && Distinct(LegIds(p.legs)) && (forall l <- p.legs :: l.clientOrderId !in StoredLegIds(t.proposals))
    && (forall i, j | 0 <= i < j < |p.legs| :: p.legs[i].legIndex != p.legs[j].legIndex)
  }

  function DecidedRow(p: Proposal, authority: AuthorityResult, cfg: Settings, call: Call, version: int): ProposalRow {
    ProposalRow(p, authority, if authority.NeedsApproval? then Some(call.now + cfg.approvalExpiry) else None, version)
  }

  /** `persist_proposal_decision`, and `persist_reservations` when AUTO. */
  function PersistDecision(t: Tables, row: ProposalRow, now: Instant): Tables {
    var recorded := t.(proposals := t.proposals + [row]);
    if row.authority.Auto? then PersistReservations(recorded, row.proposal, now) else recorded
  }

  /** `evaluate_and_reserve` with `_replay_existing`. A reused proposal id with another
      payload is blocked before anything else. */
  ghost function EvaluateAndReserve(t: Tables, p: Proposal, cfg: Settings, call: Call): (Tables, Outcome) {
    var existing := RowOf(t.proposals, p.proposalId);
    if existing.Some? && existing.value.proposal != p then (t, Blocked(false))
    else if existing.Some? then
      var row := existing.value;
      if !SnapshotUsable(t, cfg, call) || call.killSwitch
         || (row.authority.NeedsApproval? && !ApprovalValid(row, call.now)) then (t, Blocked(true))
      else (t, Replayed(row.authority))
    else if !SnapshotUsable(t, cfg, call) || !call.quotesUsable then (t, Blocked(false))
    else
      var authority := DecisionOf(p, ContextOf(t, cfg, call, None));
      if !IdentityFree(t, p) then (t, Raised)
      else
        (PersistDecision(t, DecidedRow(p, authority, cfg, call, t.snapshot.value.version), call.now),
         Decided(authority))
  }

  /** A known proposal changes nothing, whoever asks and whatever the gates say; asking
      again after a decision replays it or blocks. */
  lemma ReplayChangesNothing(t: Tables, p: Proposal, cfg: Settings, call: Call, q: Proposal, again: Call)
    requires q.proposalId == p.proposalId
    ensures RowOf(t.proposals, p.proposalId).Some? ==> EvaluateAndReserve(t, p, cfg, call).0 == t
    ensures var first := EvaluateAndReserve(t, p, cfg, call);
            first.1.Decided? ==>
              var second := EvaluateAndReserve(first.0, q, cfg, again);
              && second.0 == first.0 && !second.1.IsAuto()
              && (q != p ==> second.1 == Blocked(false))
              && (second.1.Replayed? ==> second.1.authority == first.1.authority)
  {
    hide DecisionOf, ContextOf, NewRows, IdentityFree;
    if RowOf(t.proposals, p.proposalId).None? {
      var first := EvaluateAndReserve(t, p, cfg, call);
      if first.1.Decided? {
        var row := DecidedRow(p, first.1.authority, cfg, call, t.snapshot.value.version);
        CapacitySteps.RowOfAppend(t.proposals, row, p.proposalId);
        assert first.0.proposals == t.proposals + [row];
      }
    }
  }

  // ---- _persist_submission_intents ----

  /** Every gate before the intents are written. The decision is taken again, against a
      context without the proposal's own rows; AUTO capacity must still be there. */
  ghost predicate MayStart(t: Tables, p: Proposal, cfg: Settings, call: Call) {
    var row := RowOf(t.proposals, p.proposalId);
    && !Started(t, p.proposalId) && row.Some? && row.value.proposal == p
    && SnapshotUsable(t, cfg, call) && !call.killSwitch && call.quotesUsable
    && var decision := DecisionOf(p, ContextOf(t, cfg, call, Some(p.proposalId)));
       && !decision.Reject?
       && (decision.NeedsApproval? ==> call.granted && ApprovalValid(row.value, call.now))
       && (HasCapacity(t, p.proposalId) || !row.value.authority.Auto?)
  }

  ghost function PersistIntents(t: Tables, p: Proposal, cfg: Settings, call: Call): Tables {
    if MayStart(t, p, cfg, call) then WriteIntents(t, p, call.now) else t
  }
}
