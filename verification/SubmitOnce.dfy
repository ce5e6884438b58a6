/** At most one broker submit per client order id, for any number of concurrent executors,
    crashes, timeouts, restarts and recoveries (backend/opaca/execution/service.py:131-285,
    387-563, 566-681, 1059-1133). Each transaction and each broker call is one step. */
module SubmitOnce {
  import opened Capacity
  import opened CapacitySteps
  import opened Compare
  import opened Decision
  import opened Domain
  import opened Execution
  import opened LedgerRuns
  import opened LedgerSteps
  import opened Orchestration
  import opened Records
  import opened Reconcile
  import ReserveRuns
  import opened Results
  import opened States
  import opened Sums
  import opened Sync
  import opened Tables

  /** Where one call of `execute_reserved_proposal` stands. */
  datatype Stage =
    | BeforeIntents            // nothing written yet
    | AtLeg                    // about to pass the last gates of leg `next`
    | AwaitingAnswer           // `submit_order` was called for leg `next`
    | LeavingLoop              // the leg loop ended; unsent legs remain to be aborted
    | Gone                     // returned, raised or crashed

  datatype Executor = Executor(proposal: Proposal, next: nat, stage: Stage) {
    /** It wrote the intents of its proposal and may still act on them. */
    predicate Active() {
      stage.AtLeg? || stage.AwaitingAnswer? || stage.LeavingLoop?
    }

    /** The first leg that it has not called the broker for. */
    function Uncalled(): nat {
      if stage.AtLeg? then next else next + 1
    }
  }

  /** The store, every executor that ever ran, and the log of `submit_order` calls. */
  datatype System = System(tables: Tables, executors: seq<Executor>, submits: seq<OrderId>)

  /** What comes back from `submit_order`: an acknowledgement; a duplicate id, answered by a
      lookup that finds the order or does not; or a timeout, before or after acceptance. */
  datatype Answer = Acknowledged(report: Report) | DuplicateFound(report: Report) | NoAnswer

  datatype Move =
    | Arrive(proposal: Proposal)
    | Intend(who: nat, call: Call)
    | Refuse(who: nat)
    | Submit(who: nat)
    | Receive(who: nat, answer: Answer, now: Instant)
    | AbortRest(who: nat)
    | Crash(who: nat)
    | Elsewhere(step: Step)

  function StateOf(t: Tables, id: OrderId): Option<ExecutionState> {
    var i := IndexOf(t.orders, id);
    if i.Some? then Some(t.orders[i.value].state) else None
  }

  function At(s: System, who: nat, e: Executor, t: Tables): System
    requires who < |s.executors|
  {
    s.(tables := t, executors := s.executors[who := e])
  }

  function LegId(e: Executor): OrderId
    requires e.next < |e.proposal.legs|
  {
    e.proposal.legs[e.next].clientOrderId
  }

  function AttemptedIds(e: Executor): set<OrderId> {
    set i | 0 <= i < |e.proposal.legs| && i <= e.next :: e.proposal.legs[i].clientOrderId
  }

  /** After a leg: stop on UNKNOWN, REJECTED and NOT_SUBMITTED, else go on to the next. */
  function AfterLeg(e: Executor, t: Tables): Executor
    requires e.next < |e.proposal.legs|
  {
    var state := StateOf(t, LegId(e));
    if state.None? then e.(stage := Gone)
    else if state.value.Unknown? || state.value.Rejected? || state.value.NotSubmitted? || e.next + 1 == |e.proposal.legs|
    then e.(stage := LeavingLoop)
    else e.(next := e.next + 1, stage := AtLeg)
  }

  function AfterAnswer(t: Tables, id: OrderId, answer: Answer, now: Instant, cfg: Settings): Tables {
    match answer
    case Acknowledged(report) => ApplyReport(t, id, Acknowledgement, report, now, cfg.calendar)
    case DuplicateFound(report) => ApplyReport(t, id, Lookup, report, now, cfg.calendar)
    case NoAnswer => LoseTrack(t, id)
  }

  /** Recovery, cancels, other reservations and reconciliations, by anyone at any time. */
  predicate ByOthers(step: Step) {
    !step.Start? && (step.OnOrder? ==> !step.step.NotSent? && !step.step.Abort?)
  }

  /** The executor stands at one of its legs. */
  predicate AtItsLeg(s: System, who: nat) {
    who < |s.executors| && s.executors[who].stage.AtLeg? && s.executors[who].next < |s.executors[who].proposal.legs|
  }

  predicate Awaiting(s: System, who: nat) {
    who < |s.executors| && s.executors[who].stage.AwaitingAnswer? && s.executors[who].next < |s.executors[who].proposal.legs|
  }

  predicate Leaving(s: System, who: nat) {
    who < |s.executors| && s.executors[who].stage.LeavingLoop?
  }

  predicate Enabled(s: System, move: Move) {
    match move
    case Arrive(_) => true
    case Intend(who, _) => who < |s.executors| && s.executors[who].stage.BeforeIntents?
    case Refuse(who) => AtItsLeg(s, who)
    case Submit(who) => AtItsLeg(s, who)
    case Receive(who, _, _) => Awaiting(s, who)
    case AbortRest(who) => Leaving(s, who)
    case Crash(who) => who < |s.executors|
    case Elsewhere(step) => ByOthers(step)
  }

  /** A gate right before the submit fails: `_mark_not_submitted`. */
  function Refused(s: System, who: nat): System
    requires AtItsLeg(s, who)
  {
    var e := s.executors[who];
    var t := MarkNotSubmitted(s.tables, LegId(e));
    At(s, who, e.(stage := if StateOf(t, LegId(e)) == Some(ExecutionState.NotSubmitted) then LeavingLoop else Gone), t)
  }

  /** `submit_order` is called. */
  function Called(s: System, who: nat): System
    requires AtItsLeg(s, who)
  {
    var e := s.executors[who];
    At(s, who, e.(stage := AwaitingAnswer), s.tables).(submits := s.submits + [LegId(e)])
  }

  function Answered(s: System, who: nat, answer: Answer, now: Instant, cfg: Settings): System
    requires Awaiting(s, who)
  {
    var e := s.executors[who];
    var t := AfterAnswer(s.tables, LegId(e), answer, now, cfg);
    At(s, who, AfterLeg(e, t), t)
  }

  function Aborted(s: System, who: nat): System
    requires Leaving(s, who)
  {
    var e := s.executors[who];
    At(s, who, e.(stage := Gone), AbortUnsent(s.tables, e.proposal.proposalId, AttemptedIds(e)))
  }

  ghost predicate WritesIntents(t: Tables, p: Proposal, cfg: Settings, call: Call) {
    MayStart(t, p, cfg, call) && FreshIds(LegIds(p.legs), OrderIds(t.orders))
  }

  ghost function Intended(s: System, cfg: Settings, who: nat, call: Call): System
    requires who < |s.executors|
  {
    var e := s.executors[who];
    var written := WritesIntents(s.tables, e.proposal, cfg, call) && e.proposal.legs != [];
    At(s, who, e.(stage := if written then AtLeg else Gone), PersistIntents(s.tables, e.proposal, cfg, call))
  }

  function Arrived(s: System, p: Proposal): System {
    s.(executors := s.executors + [Executor(p, 0, BeforeIntents)])
  }

  ghost function Next(s: System, cfg: Settings, move: Move): System
    requires Enabled(s, move)
  {
    match move
    case Arrive(p) => Arrived(s, p)
    case Intend(who, call) => Intended(s, cfg, who, call)
    case Refuse(who) => Refused(s, who)
    case Submit(who) => Called(s, who)
    case Receive(who, answer, now) => Answered(s, who, answer, now, cfg)
    case AbortRest(who) => Aborted(s, who)
    case Crash(who) => At(s, who, s.executors[who].(stage := Gone), s.tables)
    case Elsewhere(step) => s.(tables := Apply(s.tables, cfg, step))
  }

  // ---- the invariant ----

  predicate HasRow(t: Tables, id: OrderId, pid: string) {
    exists o <- t.orders :: o.id == id && o.proposalId == pid
  }

  /** The row of the order is in NOT_SUBMITTED. */
  predicate GivenUp(t: Tables, id: OrderId) {
    exists o <- t.orders :: o.id == id && o.state.NotSubmitted?
  }

  predicate IsLeg(p: Proposal, id: OrderId) {
    exists i | 0 <= i < |p.legs| :: p.legs[i].clientOrderId == id
  }

  /** An executor that acts on its intents: its legs have rows, in its proposal only, and
      those it has not called for were never sent, and are not given up. */
  ghost predicate Owns(t: Tables, submits: seq<OrderId>, e: Executor) {
    var legs := e.proposal.legs;
    && e.next < |legs|
    && (forall i, j | 0 <= i < j < |legs| :: legs[i].clientOrderId != legs[j].clientOrderId)
    && (forall id :: HasRow(t, id, e.proposal.proposalId) <==> IsLeg(e.proposal, id))
    && (forall i | e.Uncalled() <= i < |legs| :: legs[i].clientOrderId !in submits)
    && (!e.stage.LeavingLoop? ==> forall i | e.Uncalled() <= i < |legs| :: !GivenUp(t, legs[i].clientOrderId))
  }

  predicate SoleOwner(a: Executor, b: Executor) {
    a.Active() && b.Active() ==> a.proposal.proposalId != b.proposal.proposalId
  }

  ghost predicate SubmitInv(s: System) {
    && DistinctOrders(s.tables.orders)
    && Distinct(s.submits)
    && (forall id <- s.submits :: (exists pid :: HasRow(s.tables, id, pid)) && !GivenUp(s.tables, id))
    && (forall i, j | 0 <= i < j < |s.executors| :: SoleOwner(s.executors[i], s.executors[j]))
    && (forall e <- s.executors | e.Active() :: Owns(s.tables, s.submits, e))
  }

  // ---- moves that keep every row ----

  /** The same orders, of which the same ones are in NOT_SUBMITTED. */
  predicate RowsKept(a: seq<ExecutionOrder>, b: seq<ExecutionOrder>) {
    && |a| == |b|
    && forall i | 0 <= i < |a| ::
         b[i].id == a[i].id && b[i].proposalId == a[i].proposalId && b[i].state.NotSubmitted? == a[i].state.NotSubmitted?
  }

  lemma RowsKeptOneWay(t: Tables, u: Tables, id: OrderId, pid: string)
    requires RowsKept(t.orders, u.orders)
    ensures HasRow(t, id, pid) ==> HasRow(u, id, pid)
    ensures GivenUp(t, id) ==> GivenUp(u, id)
  {
    if HasRow(t, id, pid) {
      var i :| 0 <= i < |t.orders| && t.orders[i].id == id && t.orders[i].proposalId == pid;
      assert u.orders[i] in u.orders;
    }
    if GivenUp(t, id) {
      var i :| 0 <= i < |t.orders| && t.orders[i].id == id && t.orders[i].state.NotSubmitted?;
      assert u.orders[i] in u.orders;
    }
  }

  lemma RowsKeptMeans(t: Tables, u: Tables)
    requires RowsKept(t.orders, u.orders)
    ensures forall id, pid :: HasRow(u, id, pid) <==> HasRow(t, id, pid)
    ensures forall id :: GivenUp(u, id) <==> GivenUp(t, id)
    ensures DistinctOrders(t.orders) ==> DistinctOrders(u.orders)
  {
    forall id, pid
      ensures HasRow(u, id, pid) <==> HasRow(t, id, pid)
    {
      RowsKeptOneWay(t, u, id, pid);
      RowsKeptOneWay(u, t, id, pid);
    }
    forall id ensures GivenUp(u, id) <==> GivenUp(t, id) {
      RowsKeptOneWay(t, u, id, "");
      RowsKeptOneWay(u, t, id, "");
    }
  }

  lemma ReportKeepsRows(t: Tables, id: OrderId, channel: Channel, report: Report, now: Instant, cal: Calendar.TradingCalendar)
    ensures RowsKept(t.orders, ApplyReport(t, id, channel, report, now, cal).orders)
  {
    hide SyncProposal;
    var i := IndexOf(t.orders, id);
    if i.Some? && RecordReport(t, i.value, channel, report, now, cal).Ok? {
      var u := RecordReport(t, i.value, channel, report, now, cal).value;
      NotSubmittedIsLocal(report.status, t.orders[i.value].state);
      RecordedRow(t, i.value, channel, report, now, cal);
      SyncKeepsTables(u, t.orders[i.value].proposalId);
    }
  }

  lemma RecordedRow(t: Tables, i: nat, channel: Channel, report: Report, now: Instant, cal: Calendar.TradingCalendar)
    requires i < |t.orders| && RecordReport(t, i, channel, report, now, cal).Ok?
    ensures RowsKept(t.orders, RecordReport(t, i, channel, report, now, cal).value.orders)
  {
    NotSubmittedIsLocal(report.status, t.orders[i].state);
  }

  lemma ReconcileKeepsRows(t: Tables, prior: seq<UnknownOrder>, view: View, now: Instant)
    ensures RowsKept(t.orders, ReconcileTables(t, prior, view, now).orders)
  {
    VerdictShape(t, prior, view, now);
  }

  lemma ReserveKeepsRows(t: Tables, p: Proposal, cfg: Settings, call: Call)
    ensures RowsKept(t.orders, EvaluateAndReserve(t, p, cfg, call).0.orders)
  {
    ReserveRuns.CallChanges(t, cfg, ReserveRuns.Request(p, call));
  }

  lemma TrackingKeepsRows(t: Tables, id: OrderId)
    ensures RowsKept(t.orders, LoseTrack(t, id).orders) && RowsKept(t.orders, RequestCancel(t, id).orders)
  {
    hide UpsertUnknown;
  }

  lemma OrderStepKeepsRows(t: Tables, cal: Calendar.TradingCalendar, step: OrderStep)
    requires !step.NotSent? && !step.Abort?
    ensures RowsKept(t.orders, ApplyOrder(t, cal, step).orders)
  {
    hide ApplyReport, RowsKept, LoseTrack, RequestCancel;
    match step
    case TakeReport(id, channel, report, now) => ReportKeepsRows(t, id, channel, report, now, cal);
    case LoseOrder(id) => TrackingKeepsRows(t, id);
    case Cancel(id) => TrackingKeepsRows(t, id);
  }

  /** Nothing that others do creates an order, or gives one up. */
  lemma OthersKeepRows(t: Tables, cfg: Settings, step: Step)
    requires ByOthers(step)
    ensures RowsKept(t.orders, Apply(t, cfg, step).orders)
  {
    hide ReconcileTables, EvaluateAndReserve, RowsKept, ApplyOrder;
    match step
    case OnOrder(order) => OrderStepKeepsRows(t, cfg.calendar, order);
    case Reconcile(prior, view, now) => ReconcileKeepsRows(t, prior, view, now);
    case Reserve(p, call) => ReserveKeepsRows(t, p, cfg, call);
  }

  lemma AnswerKeepsRows(t: Tables, id: OrderId, answer: Answer, now: Instant, cfg: Settings)
    ensures RowsKept(t.orders, AfterAnswer(t, id, answer, now, cfg).orders)
  {
    hide ApplyReport;
    match answer
    case Acknowledged(report) => ReportKeepsRows(t, id, Acknowledgement, report, now, cfg.calendar);
    case DuplicateFound(report) => ReportKeepsRows(t, id, Lookup, report, now, cfg.calendar);
    case NoAnswer =>
  }

  lemma KeepingRowsKeepsInv(s: System, u: Tables)
    requires SubmitInv(s) && RowsKept(s.tables.orders, u.orders)
    ensures SubmitInv(s.(tables := u))
  {
    RowsKeptMeans(s.tables, u);
    hide HasRow, GivenUp, IsLeg, RowsKept;
    forall e <- s.executors | e.Active() ensures Owns(u, s.submits, e) {
      assert Owns(s.tables, s.submits, e);
    }
  }

  /** One executor moves on, without claiming more than it had. */
  lemma MovingOnKeepsInv(s: System, who: nat, e: Executor)
    requires SubmitInv(s) && who < |s.executors| && e.proposal == s.executors[who].proposal
    requires e.Active() ==> s.executors[who].Active() && Owns(s.tables, s.submits, e)
    ensures SubmitInv(s.(executors := s.executors[who := e]))
  {
    hide Owns, DistinctOrders, HasRow, GivenUp;
    var after := s.executors[who := e];
    forall i, j | 0 <= i < j < |after| ensures SoleOwner(after[i], after[j]) {
      assert SoleOwner(s.executors[i], s.executors[j]);
    }
  }

  // ---- writing intents ----

  lemma IntentHasRow(p: Proposal, id: OrderId)
    ensures IsLeg(p, id) <==> exists o <- IntentRows(p) :: o.id == id
  {
    if IsLeg(p, id) {
      var i :| 0 <= i < |p.legs| && p.legs[i].clientOrderId == id;
      assert IntentRows(p)[i] in IntentRows(p);
    }
    if o :| o in IntentRows(p) && o.id == id {
      var i :| 0 <= i < |p.legs| && IntentRows(p)[i] == o;
    }
  }

  lemma IntentsRowsShape(t: Tables, u: Tables, p: Proposal, id: OrderId, pid: string)
    requires u.orders == t.orders + IntentRows(p) && !Started(t, p.proposalId)
    ensures HasRow(u, id, pid) <==> if pid == p.proposalId then IsLeg(p, id) else HasRow(t, id, pid)
  {
    IntentHasRow(p, id);
    hide IsLeg;
    var rows := IntentRows(p);
    assert forall o <- rows :: o.proposalId == p.proposalId;
    assert forall o <- u.orders :: o in t.orders || o in rows;
    assert forall o <- t.orders :: o in u.orders;
    assert forall o <- rows :: o in u.orders;
  }

  lemma IntentsGiveNothingUp(t: Tables, u: Tables, p: Proposal, id: OrderId)
    requires u.orders == t.orders + IntentRows(p)
    ensures GivenUp(u, id) <==> GivenUp(t, id)
  {
    assert forall o <- IntentRows(p) :: !o.state.NotSubmitted?;
    assert forall o <- u.orders :: o in t.orders || o in IntentRows(p);
    assert forall o <- t.orders :: o in u.orders;
  }

  lemma FreshMeans(t: Tables, submits: seq<OrderId>, p: Proposal)
    requires FreshIds(LegIds(p.legs), OrderIds(t.orders))
    requires forall id <- submits :: exists pid :: HasRow(t, id, pid)
    ensures forall i | 0 <= i < |p.legs| :: p.legs[i].clientOrderId !in submits && !GivenUp(t, p.legs[i].clientOrderId)
    ensures forall i, j | 0 <= i < j < |p.legs| :: p.legs[i].clientOrderId != p.legs[j].clientOrderId
  {
    forall i | 0 <= i < |p.legs|
      ensures forall o <- t.orders :: o.id != p.legs[i].clientOrderId
    {
      assert LegIds(p.legs)[i] in LegIds(p.legs);
      forall o <- t.orders ensures o.id != p.legs[i].clientOrderId {
        var k :| 0 <= k < |t.orders| && t.orders[k] == o;
        assert OrderIds(t.orders)[k] in OrderIds(t.orders);
      }
    }
    forall i, j | 0 <= i < j < |p.legs| ensures p.legs[i].clientOrderId != p.legs[j].clientOrderId {
      assert LegIds(p.legs)[i] != LegIds(p.legs)[j];
    }
  }

  lemma ActiveIsStarted(s: System, e: Executor)
    requires SubmitInv(s) && e in s.executors && e.Active()
    ensures Started(s.tables, e.proposal.proposalId)
  {
    assert Owns(s.tables, s.submits, e);
    assert IsLeg(e.proposal, e.proposal.legs[0].clientOrderId);
    assert HasRow(s.tables, e.proposal.legs[0].clientOrderId, e.proposal.proposalId);
  }

  /** The executor that wins the intents transaction owns the proposal alone. */
  lemma WinningKeepsInv(s: System, u: Tables, who: nat)
    requires SubmitInv(s) && who < |s.executors|
    requires var p := s.executors[who].proposal;
             && u.orders == s.tables.orders + IntentRows(p) && !Started(s.tables, p.proposalId)
             && FreshIds(LegIds(p.legs), OrderIds(s.tables.orders)) && p.legs != []
    requires s.executors[who].next == 0
    ensures SubmitInv(At(s, who, s.executors[who].(stage := AtLeg), u))
  {
    var e := s.executors[who].(stage := AtLeg);
    var p, after := e.proposal, s.executors[who := e];
    IntentsDistinct(s.tables, p);
    FreshMeans(s.tables, s.submits, p);
    forall id, pid
      ensures HasRow(u, id, pid) <==> if pid == p.proposalId then IsLeg(p, id) else HasRow(s.tables, id, pid)
    {
      IntentsRowsShape(s.tables, u, p, id, pid);
    }
    forall id ensures GivenUp(u, id) <==> GivenUp(s.tables, id) {
      IntentsGiveNothingUp(s.tables, u, p, id);
    }
    forall x <- s.executors | x.Active() ensures x.proposal.proposalId != p.proposalId && Owns(s.tables, s.submits, x) {
      ActiveIsStarted(s, x);
    }
    hide HasRow, GivenUp, IsLeg, FreshIds, DistinctOrders, Started;
    forall id <- s.submits ensures (exists pid :: HasRow(u, id, pid)) && !GivenUp(u, id) {
      var pid :| HasRow(s.tables, id, pid);
      StartedByRow(s.tables, id, pid);
      assert pid != p.proposalId;
      assert HasRow(u, id, pid);
    }
    forall i, j | 0 <= i < j < |after| ensures SoleOwner(after[i], after[j]) {
      assert SoleOwner(s.executors[i], s.executors[j]);
    }
    forall x <- after | x.Active() ensures Owns(u, s.submits, x) {
      if x != e {
        assert x in s.executors;
      }
    }
  }

  lemma StartedByRow(t: Tables, id: OrderId, pid: string)
    requires HasRow(t, id, pid)
    ensures Started(t, pid)
  {
  }

  // ---- giving legs up ----

  /** Rows of one proposal may be given up; nothing else changes. */
  predicate OnlyGivesUp(t: Tables, u: Tables, pid: string, given: set<OrderId>) {
    && |t.orders| == |u.orders|
    && forall i | 0 <= i < |t.orders| ::
         && u.orders[i].id == t.orders[i].id && u.orders[i].proposalId == t.orders[i].proposalId
         && (u.orders[i].state.NotSubmitted? ==>
               t.orders[i].state.NotSubmitted? || (t.orders[i].proposalId == pid && t.orders[i].id in given))
  }

  lemma OnlyGivesUpMeans(t: Tables, u: Tables, pid: string, given: set<OrderId>)
    requires OnlyGivesUp(t, u, pid, given)
    ensures forall id, q :: HasRow(u, id, q) <==> HasRow(t, id, q)
    ensures forall id :: GivenUp(u, id) ==> GivenUp(t, id) || (HasRow(t, id, pid) && id in given)
    ensures DistinctOrders(t.orders) ==> DistinctOrders(u.orders)
  {
    forall id, q ensures HasRow(u, id, q) <==> HasRow(t, id, q) {
      if HasRow(t, id, q) {
        var i :| 0 <= i < |t.orders| && t.orders[i].id == id && t.orders[i].proposalId == q;
        assert u.orders[i] in u.orders;
      }
      if HasRow(u, id, q) {
        var i :| 0 <= i < |u.orders| && u.orders[i].id == id && u.orders[i].proposalId == q;
        assert t.orders[i] in t.orders;
      }
    }
    forall id | GivenUp(u, id) ensures GivenUp(t, id) || (HasRow(t, id, pid) && id in given) {
      var i :| 0 <= i < |u.orders| && u.orders[i].id == id && u.orders[i].state.NotSubmitted?;
      assert t.orders[i] in t.orders;
    }
  }

  lemma SameIdSameIndex(orders: seq<ExecutionOrder>, i: nat, j: nat)
    requires DistinctOrders(orders) && i < |orders| && j < |orders| && orders[i].id == orders[j].id
    ensures i == j
  {
  }

  lemma OneProposalARow(t: Tables, id: OrderId, p: string, q: string)
    requires DistinctOrders(t.orders) && HasRow(t, id, p) && HasRow(t, id, q)
    ensures p == q
  {
    var i :| 0 <= i < |t.orders| && t.orders[i].id == id && t.orders[i].proposalId == p;
    var j :| 0 <= j < |t.orders| && t.orders[j].id == id && t.orders[j].proposalId == q;
    SameIdSameIndex(t.orders, i, j);
  }

  /** Orders that were never sent may be given up by the executor that owns them, when it
      leaves its loop. */
  lemma GivingUpKeepsInv(s: System, u: Tables, who: nat, e: Executor, given: set<OrderId>)
    requires SubmitInv(s) && who < |s.executors| && s.executors[who].Active()
    requires e.proposal == s.executors[who].proposal && (e.stage.Gone? || e.stage.LeavingLoop?)
    requires OnlyGivesUp(s.tables, u, e.proposal.proposalId, given)
    requires forall id <- given | IsLeg(e.proposal, id) :: id !in s.submits
    requires e.Active() ==> Owns(s.tables, s.submits, e)
    ensures SubmitInv(At(s, who, e, u))
  {
    var pid, after := e.proposal.proposalId, s.executors[who := e];
    OnlyGivesUpMeans(s.tables, u, pid, given);
    assert Owns(s.tables, s.submits, s.executors[who]);
    MovingOnKeepsInv(s, who, e);
    hide HasRow, GivenUp, IsLeg, DistinctOrders;
    forall id <- s.submits ensures !GivenUp(u, id) {
      assert GivenUp(u, id) ==> HasRow(s.tables, id, pid) && id in given;
    }
    forall i | 0 <= i < |after| && after[i].Active() ensures Owns(u, s.submits, after[i]) {
      if i != who {
        OthersKeepTheirs(s, u, who, i, given);
      }
    }
  }

  lemma OthersKeepTheirs(s: System, u: Tables, who: nat, i: nat, given: set<OrderId>)
    requires SubmitInv(s) && who < |s.executors| && i < |s.executors| && i != who
    requires s.executors[who].Active() && s.executors[i].Active()
    requires OnlyGivesUp(s.tables, u, s.executors[who].proposal.proposalId, given)
    ensures Owns(u, s.submits, s.executors[i])
  {
    var x, pid := s.executors[i], s.executors[who].proposal.proposalId;
    OnlyGivesUpMeans(s.tables, u, pid, given);
    assert Owns(s.tables, s.submits, x);
    assert x.proposal.proposalId != pid by {
      if i < who {
        assert SoleOwner(s.executors[i], s.executors[who]);
      } else {
        assert SoleOwner(s.executors[who], s.executors[i]);
      }
    }
    hide HasRow, GivenUp, DistinctOrders;
    forall k | x.Uncalled() <= k < |x.proposal.legs| && !x.stage.LeavingLoop?
      ensures !GivenUp(u, x.proposal.legs[k].clientOrderId)
    {
      var id := x.proposal.legs[k].clientOrderId;
      assert IsLeg(x.proposal, id) && HasRow(s.tables, id, x.proposal.proposalId);
      if HasRow(s.tables, id, pid) {
        OneProposalARow(s.tables, id, pid, x.proposal.proposalId);
      }
    }
  }

  lemma MarkGivesUp(t: Tables, id: OrderId, pid: string)
    requires DistinctOrders(t.orders) && HasRow(t, id, pid)
    ensures OnlyGivesUp(t, MarkNotSubmitted(t, id), pid, {id})
  {
    hide SyncProposal;
    var i := IndexOf(t.orders, id);
    if i.Some? && NeverSent(t.orders[i.value]) {
      var o: ExecutionOrder := t.orders[i.value].(state := ExecutionState.NotSubmitted);
      SyncKeepsTables(t.(orders := t.orders[i.value := o]), o.proposalId);
      assert HasRow(t, id, o.proposalId);
      OneProposalARow(t, id, pid, o.proposalId);
    }
  }

  lemma AbortGivesUp(t: Tables, pid: string, attempted: set<OrderId>, given: set<OrderId>)
    requires forall o <- t.orders | o.proposalId == pid && o.id !in attempted :: o.id in given
    ensures OnlyGivesUp(t, AbortUnsent(t, pid, attempted), pid, given)
  {
    hide SyncProposal;
    SyncKeepsTables(t.(orders := AbortedOrders(t.orders, pid, attempted)), pid);
  }

  // ---- the moves ----

  lemma OwnLegHasRow(s: System, who: nat)
    requires SubmitInv(s) && AtItsLeg(s, who)
    ensures var e := s.executors[who];
            IsLeg(e.proposal, LegId(e)) && HasRow(s.tables, LegId(e), e.proposal.proposalId)
  {
    assert Owns(s.tables, s.submits, s.executors[who]);
  }

  lemma RefuseKeeps(s: System, who: nat)
    requires SubmitInv(s) && AtItsLeg(s, who)
    ensures SubmitInv(Refused(s, who))
  {
    hide MarkNotSubmitted, HasRow, DistinctOrders;
    var e := s.executors[who];
    OwnLegHasRow(s, who);
    MarkGivesUp(s.tables, LegId(e), e.proposal.proposalId);
    var t := MarkNotSubmitted(s.tables, LegId(e));
    var after := e.(stage := if StateOf(t, LegId(e)) == Some(ExecutionState.NotSubmitted) then LeavingLoop else Gone);
    GivingUpKeepsInv(s, t, who, after, {LegId(e)});
  }

  lemma AbortRestKeeps(s: System, who: nat)
    requires SubmitInv(s) && Leaving(s, who)
    ensures SubmitInv(Aborted(s, who))
  {
    var e := s.executors[who];
    var pid, attempted := e.proposal.proposalId, AttemptedIds(e);
    assert Owns(s.tables, s.submits, e);
    var given := set i | e.next < i < |e.proposal.legs| :: e.proposal.legs[i].clientOrderId;
    forall o <- s.tables.orders | o.proposalId == pid && o.id !in attempted ensures o.id in given {
      assert HasRow(s.tables, o.id, pid) && IsLeg(e.proposal, o.id);
      var i :| 0 <= i < |e.proposal.legs| && e.proposal.legs[i].clientOrderId == o.id;
      assert i <= e.next ==> o.id in attempted;
    }
    AbortGivesUp(s.tables, pid, attempted, given);
    hide AbortUnsent, HasRow, GivenUp, DistinctOrders;
    GivingUpKeepsInv(s, AbortUnsent(s.tables, pid, attempted), who, e.(stage := Gone), given);
  }

  /** A call is made only for an order that has its durable row, was never sent before and
      is not given up. */
  lemma SubmitIsFirst(s: System, who: nat)
    requires SubmitInv(s) && AtItsLeg(s, who)
    ensures var id := LegId(s.executors[who]);
            id !in s.submits && !GivenUp(s.tables, id) && HasRow(s.tables, id, s.executors[who].proposal.proposalId)
  {
    var e := s.executors[who];
    assert Owns(s.tables, s.submits, e);
    assert IsLeg(e.proposal, LegId(e));
  }

  lemma SubmitKeeps(s: System, who: nat)
    requires SubmitInv(s) && AtItsLeg(s, who)
    ensures SubmitInv(Called(s, who))
  {
    SubmitIsFirst(s, who);
    hide HasRow, GivenUp, DistinctOrders;
    var e, id, v := s.executors[who], LegId(s.executors[who]), Called(s, who);
    var pid := e.proposal.proposalId;
    assert v.submits == s.submits + [id];
    forall i, j | 0 <= i < j < |v.executors| ensures SoleOwner(v.executors[i], v.executors[j]) {
      assert SoleOwner(s.executors[i], s.executors[j]);
    }
    forall i | 0 <= i < |v.executors| && v.executors[i].Active() ensures Owns(v.tables, v.submits, v.executors[i]) {
      assert Owns(s.tables, s.submits, s.executors[i]) && Owns(s.tables, s.submits, e);
      if i != who {
        NotTheirs(s, who, i, id);
      }
    }
  }

  lemma NotTheirs(s: System, who: nat, i: nat, id: OrderId)
    requires SubmitInv(s) && who < |s.executors| && i < |s.executors| && i != who
    requires s.executors[who].Active() && s.executors[i].Active()
    requires HasRow(s.tables, id, s.executors[who].proposal.proposalId)
    ensures !IsLeg(s.executors[i].proposal, id)
  {
    var x, e := s.executors[i], s.executors[who];
    assert x.proposal.proposalId != e.proposal.proposalId by {
      if i < who {
        assert SoleOwner(s.executors[i], s.executors[who]);
      } else {
        assert SoleOwner(s.executors[who], s.executors[i]);
      }
    }
    assert Owns(s.tables, s.submits, x);
    hide HasRow, IsLeg, DistinctOrders;
    if IsLeg(x.proposal, id) {
      assert HasRow(s.tables, id, x.proposal.proposalId);
      OneProposalARow(s.tables, id, x.proposal.proposalId, e.proposal.proposalId);
    }
  }

  /** What an executor owns while it waits for an answer, it owns after the answer. */
  lemma OwnsNext(t: Tables, submits: seq<OrderId>, e: Executor)
    requires Owns(t, submits, e) && e.stage.AwaitingAnswer?
    ensures AfterLeg(e, t).Active() ==> Owns(t, submits, AfterLeg(e, t))
  {
    hide HasRow, GivenUp, IsLeg, StateOf;
  }

  lemma ReceiveKeeps(s: System, cfg: Settings, who: nat, answer: Answer, now: Instant)
    requires SubmitInv(s) && Awaiting(s, who)
    ensures SubmitInv(Answered(s, who, answer, now, cfg))
  {
    hide AfterAnswer, RowsKept;
    var e := s.executors[who];
    var t := AfterAnswer(s.tables, LegId(e), answer, now, cfg);
    AnswerKeepsRows(s.tables, LegId(e), answer, now, cfg);
    KeepingRowsKeepsInv(s, t);
    var v := s.(tables := t);
    assert Owns(v.tables, v.submits, e);
    OwnsNext(v.tables, v.submits, e);
    hide SubmitInv, Owns;
    MovingOnKeepsInv(v, who, AfterLeg(e, t));
  }

  lemma IntendKeeps(s: System, cfg: Settings, who: nat, call: Call)
    requires SubmitInv(s) && who < |s.executors| && s.executors[who].next == 0
    ensures SubmitInv(Intended(s, cfg, who, call))
  {
    hide MayStart, NewRows, SubmitInv, FreshIds;
    var e := s.executors[who];
    var t, u := s.tables, PersistIntents(s.tables, e.proposal, cfg, call);
    if WritesIntents(t, e.proposal, cfg, call) && e.proposal.legs != [] {
      MayStartMeans(t, e.proposal, cfg, call);
      WinningKeepsInv(s, u, who);
    } else {
      assert u.orders == t.orders by {
        if MayStart(t, e.proposal, cfg, call) && e.proposal.legs == [] {
          NoLegsNoRows(e.proposal, 0);
        }
      }
      LosingKeepsInv(s, u, who);
    }
  }

  lemma MayStartMeans(t: Tables, p: Proposal, cfg: Settings, call: Call)
    requires MayStart(t, p, cfg, call)
    ensures !Started(t, p.proposalId)
  {
  }

  lemma LosingKeepsInv(s: System, u: Tables, who: nat)
    requires SubmitInv(s) && who < |s.executors| && u.orders == s.tables.orders
    ensures SubmitInv(At(s, who, s.executors[who].(stage := Gone), u))
  {
    KeepingRowsKeepsInv(s, u);
    MovingOnKeepsInv(s.(tables := u), who, s.executors[who].(stage := Gone));
  }

  /** An executor that has not written its intents stands at its first leg. */
  predicate StartsAtZero(s: System) {
    forall e <- s.executors | e.stage.BeforeIntents? :: e.next == 0
  }

  lemma ArriveKeeps(s: System, p: Proposal)
    requires SubmitInv(s)
    ensures SubmitInv(Arrived(s, p))
  {
    hide Owns, DistinctOrders, HasRow, GivenUp;
    var v := Arrived(s, p);
    forall i, j | 0 <= i < j < |v.executors| ensures SoleOwner(v.executors[i], v.executors[j]) {
      if j < |s.executors| {
        assert SoleOwner(s.executors[i], s.executors[j]);
      }
    }
  }

  lemma ElsewhereKeeps(s: System, cfg: Settings, step: Step)
    requires SubmitInv(s) && ByOthers(step)
    ensures SubmitInv(s.(tables := Apply(s.tables, cfg, step)))
  {
    OthersKeepRows(s.tables, cfg, step);
    KeepingRowsKeepsInv(s, Apply(s.tables, cfg, step));
  }

  lemma MoveKeeps(s: System, cfg: Settings, move: Move)
    requires SubmitInv(s) && StartsAtZero(s) && Enabled(s, move)
    ensures SubmitInv(Next(s, cfg, move)) && StartsAtZero(Next(s, cfg, move))
  {
    hide SubmitInv;
    match move
    case Arrive(p) => ArriveKeeps(s, p);
    case Intend(who, call) => IntendKeeps(s, cfg, who, call);
    case Refuse(who) => RefuseKeeps(s, who);
    case Submit(who) => SubmitKeeps(s, who);
    case Receive(who, answer, now) => ReceiveKeeps(s, cfg, who, answer, now);
    case AbortRest(who) => AbortRestKeeps(s, who);
    case Crash(who) => MovingOnKeepsInv(s, who, s.executors[who].(stage := Gone));
    case Elsewhere(step) => ElsewhereKeeps(s, cfg, step);
  }

  // ---- runs ----

  ghost predicate Possible(s: System, cfg: Settings, moves: seq<Move>)
    decreases |moves|
  {
    moves == [] || (Enabled(s, moves[0]) && Possible(Next(s, cfg, moves[0]), cfg, moves[1..]))
  }

  ghost function AfterMoves(s: System, cfg: Settings, moves: seq<Move>): System
    requires Possible(s, cfg, moves)
    decreases |moves|
  {
    if moves == [] then s else AfterMoves(Next(s, cfg, moves[0]), cfg, moves[1..])
  }

  function Fresh(): System {
    System(EmptyTables(), [], [])
  }

  lemma {:induction false} MovesKeep(s: System, cfg: Settings, moves: seq<Move>)
    requires SubmitInv(s) && StartsAtZero(s) && Possible(s, cfg, moves)
    ensures SubmitInv(AfterMoves(s, cfg, moves)) && StartsAtZero(AfterMoves(s, cfg, moves))
    decreases |moves|
  {
    hide SubmitInv, StartsAtZero, Enabled, Next;
    if moves != [] {
      MoveKeeps(s, cfg, moves[0]);
      MovesKeep(Next(s, cfg, moves[0]), cfg, moves[1..]);
    }
  }

  lemma {:induction false} DistinctOnce<T>(xs: seq<T>, x: T)
    requires Distinct(xs)
    ensures multiset(xs)[x] <= 1
  {
    if xs != [] {
      assert xs == [xs[0]] + xs[1..];
      DistinctOnce(xs[1..], x);
      if xs[0] == x {
        assert x !in xs[1..];
      }
    }
  }

  /** At most one `submit_order` call for any client order id, in every run. */
  lemma AtMostOneSubmit(cfg: Settings, moves: seq<Move>, id: OrderId)
    requires Possible(Fresh(), cfg, moves)
    ensures var s := AfterMoves(Fresh(), cfg, moves);
            && multiset(s.submits)[id] <= 1
            && (id in s.submits ==> IndexOf(s.tables.orders, id).Some? && !GivenUp(s.tables, id))
  {
    MovesKeep(Fresh(), cfg, moves);
    var s := AfterMoves(Fresh(), cfg, moves);
    DistinctOnce(s.submits, id);
    if id in s.submits {
      var pid :| HasRow(s.tables, id, pid);
    }
  }

  lemma GivenUpCarries(t: Tables, u: Tables, id: OrderId)
    requires GivenUp(t, id) && |t.orders| <= |u.orders|
    requires forall i | 0 <= i < |t.orders| ::
               u.orders[i].id == t.orders[i].id && (t.orders[i].state.NotSubmitted? ==> u.orders[i].state.NotSubmitted?)
    ensures GivenUp(u, id)
  {
    var i :| 0 <= i < |t.orders| && t.orders[i].id == id && t.orders[i].state.NotSubmitted?;
    assert u.orders[i] in u.orders;
  }

  lemma TablesOnlyGiveUp(t: Tables, id: OrderId, pid: string, attempted: set<OrderId>, other: OrderId)
    requires GivenUp(t, id)
    ensures GivenUp(MarkNotSubmitted(t, other), id) && GivenUp(AbortUnsent(t, pid, attempted), id)
  {
    hide SyncProposal, GivenUp;
    var i := IndexOf(t.orders, other);
    if i.Some? && NeverSent(t.orders[i.value]) {
      var o: ExecutionOrder := t.orders[i.value].(state := ExecutionState.NotSubmitted);
      SyncKeepsTables(t.(orders := t.orders[i.value := o]), o.proposalId);
    }
    GivenUpCarries(t, MarkNotSubmitted(t, other), id);
    SyncKeepsTables(t.(orders := AbortedOrders(t.orders, pid, attempted)), pid);
    GivenUpCarries(t, AbortUnsent(t, pid, attempted), id);
  }

  lemma GivenUpStays(s: System, cfg: Settings, move: Move, id: OrderId)
    requires Enabled(s, move) && GivenUp(s.tables, id)
    ensures GivenUp(Next(s, cfg, move).tables, id)
  {
    hide GivenUp, MarkNotSubmitted, AbortUnsent, AfterAnswer, Apply, NewRows, MayStart;
    match move
    case Intend(who, call) =>
      GivenUpCarries(s.tables, PersistIntents(s.tables, s.executors[who].proposal, cfg, call), id);
    case Refuse(who) => TablesOnlyGiveUp(s.tables, id, "", {}, LegId(s.executors[who]));
    case AbortRest(who) =>
      TablesOnlyGiveUp(s.tables, id, s.executors[who].proposal.proposalId, AttemptedIds(s.executors[who]), id);
    case Receive(who, answer, now) =>
      AnswerKeepsRows(s.tables, LegId(s.executors[who]), answer, now, cfg);
      RowsKeptMeans(s.tables, AfterAnswer(s.tables, LegId(s.executors[who]), answer, now, cfg));
    case Elsewhere(step) =>
      OthersKeepRows(s.tables, cfg, step);
      RowsKeptMeans(s.tables, Apply(s.tables, cfg, step));
    case _ =>
  }

  /** An order in NOT_SUBMITTED was never sent and never will be: it stays there, and no
      continuation of the run calls the broker for it. */
  lemma {:induction false} NotSubmittedNeverSent(s: System, cfg: Settings, moves: seq<Move>, id: OrderId)
    requires SubmitInv(s) && StartsAtZero(s) && Possible(s, cfg, moves) && GivenUp(s.tables, id)
    ensures var u := AfterMoves(s, cfg, moves); GivenUp(u.tables, id) && id !in u.submits
    decreases |moves|
  {
    hide StartsAtZero, Enabled, Next, GivenUp;
    if moves == [] {
      assert forall k <- s.submits :: !GivenUp(s.tables, k);
    } else {
      MoveKeeps(s, cfg, moves[0]);
      GivenUpStays(s, cfg, moves[0], id);
      NotSubmittedNeverSent(Next(s, cfg, moves[0]), cfg, moves[1..], id);
    }
  }

  /** ... in particular at any point of any run from a fresh store. */
  lemma NotSubmittedForGood(cfg: Settings, first: seq<Move>, more: seq<Move>, id: OrderId)
    requires Possible(Fresh(), cfg, first) && GivenUp(AfterMoves(Fresh(), cfg, first).tables, id)
    requires Possible(AfterMoves(Fresh(), cfg, first), cfg, more)
    ensures id !in AfterMoves(Fresh(), cfg, first).submits
    ensures id !in AfterMoves(AfterMoves(Fresh(), cfg, first), cfg, more).submits
  {
    MovesKeep(Fresh(), cfg, first);
    NotSubmittedNeverSent(AfterMoves(Fresh(), cfg, first), cfg, [], id);
    NotSubmittedNeverSent(AfterMoves(Fresh(), cfg, first), cfg, more, id);
  }
}
