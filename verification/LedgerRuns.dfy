/** Whole runs of the ledger. Each transaction is one step; reconciling, reserving, starting,
    fills, recoveries and cancels follow each other in any order, so that any transaction may
    fall between a reconciliation and the reservation that relies on it. Each theorem names
    the premises that it needs, and holds for every run that meets them. */
module LedgerRuns {
  import opened Authority
  import opened Calendar
  import opened Capacity
  import opened CapacitySteps
  import opened Compare
  import opened Decision
  import opened Domain
  import opened Execution
  import opened Guard
  import opened LedgerSteps
  import opened Orchestration
  import opened Oversell
  import opened Reconcile
  import opened Records
  import opened Results
  import opened States
  import opened Sums
  import opened Sync
  import opened Tables
  import opened Unresolved

  datatype Step =
    | Reconcile(prior: seq<UnknownOrder>, view: View, now: Instant)
    | Reserve(proposal: Proposal, call: Call)
    | Start(proposal: Proposal, call: Call)
    | OnOrder(step: OrderStep)

  /** One transaction of the system. */
  ghost function Apply(t: Tables, cfg: Settings, step: Step): Tables {
    match step
    case Reconcile(prior, view, now) => ReconcileTables(t, prior, view, now)
    case Reserve(p, call) => EvaluateAndReserve(t, p, cfg, call).0
    case Start(p, call) => PersistIntents(t, p, cfg, call)
    case OnOrder(order) => ApplyOrder(t, cfg.calendar, order)
  }

  ghost function Run(t: Tables, cfg: Settings, steps: seq<Step>): Tables {
    if steps == [] then t else Apply(Run(t, cfg, steps[..|steps| - 1]), cfg, steps[|steps| - 1])
  }

  /** What a theorem may assume of the steps of a run. */
  datatype Premise =
    | FillsNeverFall  // no accepted report lowers the fill of an order
    | SalesAreFinal   // no accepted report raises the fill of a sell that is over
    | Reconciling     // every verdict is RECONCILED, or the broker state was invalid
    | SteadyValues    // no report corrects the value of what had filled
    | CoveringValues  // no report without a larger fill puts more value on it than was settled
    | StampedSells    // nothing is reserved for sale of which more was sold than bought since the stamp
    | OpenPicks       // no reservation is made while a resolved pick hides another

  const OVERSELL_PREMISES := {FillsNeverFall, SalesAreFinal, Reconciling, StampedSells, OpenPicks}

  ghost predicate Meets(premise: Premise, t: Tables, step: Step) {
    match premise
    case FillsNeverFall => step.OnOrder? ==> NoFallingFill(t, step.step)
    case SalesAreFinal => step.OnOrder? ==> NoLateSale(t, step.step)
    case Reconciling =>
      step.Reconcile? ==>
        var judgement := Judgement(t, step.prior, step.view, step.now);
        judgement.Judged? ==> judgement.verdict.Agrees?
    case SteadyValues => step.OnOrder? ==> SteadyReport(t, step.step)
    case CoveringValues => step.OnOrder? ==> CoveringReport(t, step.step)
    case StampedSells =>
      && (step.Reserve? ==> SellsStamped(t, step.proposal))
      && (step.Start? ==> HasCapacity(t, step.proposal.proposalId) || SellsStamped(t, step.proposal))
    case OpenPicks =>
      && (step.Reserve? ==> PicksAreOpen(t, None))
      && (step.Start? ==>
            HasCapacity(t, step.proposal.proposalId) || PicksAreOpen(t, Some(step.proposal.proposalId)))
  }

  /** Every step of the run meets every premise, in the tables it finds. */
  ghost predicate Along(premises: set<Premise>, t: Tables, cfg: Settings, steps: seq<Step>) {
    steps == [] ||
    var before, last := steps[..|steps| - 1], steps[|steps| - 1];
    Along(premises, t, cfg, before) && forall p <- premises :: Meets(p, Run(t, cfg, before), last)
  }

  lemma {:induction false} FewerPremises(few: set<Premise>, many: set<Premise>, t: Tables, cfg: Settings, steps: seq<Step>)
    requires few <= many && Along(many, t, cfg, steps)
    ensures Along(few, t, cfg, steps)
  {
    hide Meets, Run;
    if steps != [] {
      FewerPremises(few, many, t, cfg, steps[..|steps| - 1]);
    }
  }

  /** The empty ledger that a store is created with. */
  function EmptyTables(): Tables {
    Tables([], [], [], [], [], [], None)
  }

  lemma EmptyIsSound()
    ensures LedgerInv(EmptyTables())
  {
    var t := EmptyTables();
    assert forall pid :: !Started(t, pid) && Idle(t, pid);
  }

  // ---- capacity ----

  lemma StepKeepsBooks(t: Tables, cfg: Settings, step: Step)
    requires BooksInv(t) && Meets(FillsNeverFall, t, step)
    ensures BooksInv(Apply(t, cfg, step))
  {
    hide BooksInv, ReconcileTables, EvaluateAndReserve, PersistIntents, ApplyOrder, NoFallingFill;
    match step
    case Reconcile(prior, view, now) => ReconcileKeepsBooks(t, prior, view, now);
    case Reserve(p, call) => ReserveKeepsBooks(t, p, cfg, call);
    case Start(p, call) => StartKeepsBooks(t, p, cfg, call);
    case OnOrder(order) => OrderStepKeeps(t, cfg.calendar, order);
  }

  lemma {:induction false} RunKeepsBooks(t: Tables, cfg: Settings, steps: seq<Step>)
    requires BooksInv(t) && Along({FillsNeverFall}, t, cfg, steps)
    ensures BooksInv(Run(t, cfg, steps))
  {
    hide BooksInv, Meets, Apply;
    if steps != [] {
      var before := steps[..|steps| - 1];
      RunKeepsBooks(t, cfg, before);
      StepKeepsBooks(Run(t, cfg, before), cfg, steps[|steps| - 1]);
    }
  }

  /** Capacity accounting over whole runs, for every proposal whose orders exist: under any
      verdicts and any reservations, only fill reports must not fall back. */
  lemma RunsAccountCapacity(cfg: Settings, steps: seq<Step>, pid: string, s: Symbol)
    requires Along({FillsNeverFall}, EmptyTables(), cfg, steps)
    ensures var t := Run(EmptyTables(), cfg, steps);
            Started(t, pid) ==>
              && ReservedSell(t, pid, s) >= SellRemaining(t, pid, s) && ReservedCash(t, pid) >= CashRemaining(t, pid)
              && (!Uncertain(t, pid) ==>
                    ReservedSell(t, pid, s) == SellRemaining(t, pid, s) && ReservedCash(t, pid) == CashRemaining(t, pid))
              && (AllTerminal(t, pid) ==> Idle(t, pid))
  {
    EmptyIsSound();
    RunKeepsBooks(EmptyTables(), cfg, steps);
    hide SellRemaining, CashRemaining, ReservedSell, ReservedCash;
    var t := Run(EmptyTables(), cfg, steps);
    if Started(t, pid) {
      assert Accounted(t, pid);
    }
  }

  lemma ReconcileFreezes(t: Tables, prior: seq<UnknownOrder>, view: View, now: Instant)
    ensures ReconcileTables(t, prior, view, now).reservations == t.reservations
  {
    VerdictShape(t, prior, view, now);
  }

  /** While any order of a proposal is UNKNOWN or SUBMITTING, no step whatever resizes or
      releases one of its reservations. */
  lemma UncertaintyFreezes(t: Tables, cfg: Settings, step: Step, pid: string)
    requires Uncertain(Apply(t, cfg, step), pid)
    ensures RowsFrozen(t, Apply(t, cfg, step), pid)
  {
    hide NewRows, DecisionOf, ContextOf, IdentityFree, ReconcileTables, MayStart;
    match step
    case OnOrder(order) => OrderStepFreezes(t, cfg.calendar, order, pid);
    case Reconcile(prior, view, now) => ReconcileFreezes(t, prior, view, now);
    case Reserve(_, _) =>
    case Start(_, _) =>
  }

  // ---- no oversell ----

  lemma ReservingKeeps(t: Tables, cfg: Settings, p: Proposal, call: Call)
    requires LedgerInv(t) && Meets(StampedSells, t, Reserve(p, call)) && Meets(OpenPicks, t, Reserve(p, call))
    ensures LedgerInv(Apply(t, cfg, Reserve(p, call)))
  {
    hide LedgerInv, EvaluateAndReserve, SellsStamped, PicksAreOpen;
    ReserveStepKeeps(t, p, cfg, call);
  }

  lemma StartingKeeps(t: Tables, cfg: Settings, p: Proposal, call: Call)
    requires LedgerInv(t) && Meets(StampedSells, t, Start(p, call)) && Meets(OpenPicks, t, Start(p, call))
    ensures LedgerInv(Apply(t, cfg, Start(p, call)))
  {
    hide LedgerInv, PersistIntents, SellsStamped, PicksAreOpen, HasCapacity;
    StartStepKeeps(t, p, cfg, call);
  }

  lemma ReconcilingKeeps(t: Tables, cfg: Settings, prior: seq<UnknownOrder>, view: View, now: Instant)
    requires LedgerInv(t) && Meets(Reconciling, t, Reconcile(prior, view, now))
    ensures LedgerInv(Apply(t, cfg, Reconcile(prior, view, now)))
  {
    hide LedgerInv, ReconcileTables, Judgement;
    ReconcileKeeps(t, prior, view, now);
  }

  lemma OrderKeeps(t: Tables, cfg: Settings, order: OrderStep)
    requires LedgerInv(t) && Meets(FillsNeverFall, t, OnOrder(order)) && Meets(SalesAreFinal, t, OnOrder(order))
    ensures LedgerInv(Apply(t, cfg, OnOrder(order)))
  {
    hide BooksInv, NeverOversold, ApplyOrder, NoFallingFill, NoLateSale;
    OrderStepKeeps(t, cfg.calendar, order);
  }

  lemma StepKeeps(t: Tables, cfg: Settings, step: Step)
    requires LedgerInv(t) && forall p <- OVERSELL_PREMISES :: Meets(p, t, step)
    ensures LedgerInv(Apply(t, cfg, step))
  {
    assert && Meets(FillsNeverFall, t, step) && Meets(SalesAreFinal, t, step) && Meets(Reconciling, t, step)
           && Meets(StampedSells, t, step) && Meets(OpenPicks, t, step);
    hide LedgerInv, Meets, Apply;
    match step
    case Reconcile(prior, view, now) => ReconcilingKeeps(t, cfg, prior, view, now);
    case Reserve(p, call) => ReservingKeeps(t, cfg, p, call);
    case Start(p, call) => StartingKeeps(t, cfg, p, call);
    case OnOrder(order) => OrderKeeps(t, cfg, order);
  }

  /** Capacity accounting and the long-only bound hold in every state of such a run. */
  lemma {:induction false} RunKeeps(t: Tables, cfg: Settings, steps: seq<Step>)
    requires LedgerInv(t) && Along(OVERSELL_PREMISES, t, cfg, steps)
    ensures LedgerInv(Run(t, cfg, steps))
  {
    hide LedgerInv, Meets, Apply;
    if steps != [] {
      var before := steps[..|steps| - 1];
      RunKeeps(t, cfg, before);
      StepKeeps(Run(t, cfg, before), cfg, steps[|steps| - 1]);
    }
  }

  /** No oversell over whole runs: for every symbol, the quantity that orders and waiting
      proposals may still sell, plus sells minus buys filled since the last stamp, never
      exceeds the position of the latest snapshot. */
  lemma RunsNeverOversell(cfg: Settings, steps: seq<Step>, s: Symbol)
    requires Along(OVERSELL_PREMISES, EmptyTables(), cfg, steps)
    ensures var t := Run(EmptyTables(), cfg, steps);
            t.snapshot.Some? ==>
              && SumBy(t.orders, OpenSellIn(s)) - Explained(t.orders, s) <= SnapshotHeld(t, s)
              && Outstanding(t, s) + NetSold(t, s) <= SnapshotHeld(t, s)
  {
    EmptyIsSound();
    RunKeeps(EmptyTables(), cfg, steps);
    var t := Run(EmptyTables(), cfg, steps);
    SumNonNegative(t.reservations, WaitingSellOf(t, s));
    if t.snapshot.Some? {
      assert Outstanding(t, s) + NetSold(t, s) <= SnapshotHeld(t, s);
    }
  }

  // ---- position conservation ----

  lemma SameStamps(t: Tables, u: Tables, s: Symbol)
    requires OrderFrame(t, u)
    ensures Stamped(u, s) == Stamped(t, s)
  {
    SumMapped<ExecutionOrder, ExecutionOrder>(u.orders, t.orders, StampedOf(s), StampedOf(s));
  }

  lemma IntentStamps(t: Tables, p: Proposal, cfg: Settings, call: Call, s: Symbol)
    ensures var u := PersistIntents(t, p, cfg, call); u.snapshot == t.snapshot && Stamped(u, s) == Stamped(t, s)
  {
    hide MayStart, NewRows;
    IntentTotals(p, s);
    SumAppend<ExecutionOrder>(t.orders, IntentRows(p), StampedOf(s));
  }

  lemma DecisionStamps(t: Tables, p: Proposal, cfg: Settings, call: Call, s: Symbol)
    ensures var u := EvaluateAndReserve(t, p, cfg, call).0; u.snapshot == t.snapshot && Stamped(u, s) == Stamped(t, s)
  {
    ReserveRuns.CallChanges(t, cfg, ReserveRuns.Request(p, call));
  }

  /** What the snapshot position would be without any stamped fill. */
  function Basis(t: Tables, s: Symbol): real
    requires t.snapshot.Some?
  {
    SnapshotHeld(t, s) - Stamped(t, s)
  }

  lemma StepConserves(t: Tables, cfg: Settings, step: Step, s: Symbol)
    requires t.snapshot.Some? && Meets(Reconciling, t, step)
    ensures Apply(t, cfg, step).snapshot.Some? && Basis(Apply(t, cfg, step), s) == Basis(t, s)
  {
    hide ReconcileTables, Judgement, EvaluateAndReserve, PersistIntents, Stamped, OrderFrame, ApplyOrder;
    match step
    case Reconcile(prior, view, now) =>
      VerdictShape(t, prior, view, now);
      if Judgement(t, prior, view, now).Judged? {
        ReconcileShape(t, prior, view, now);
        ReconciledMovesByFills(t, prior, view, now, s);
      }
    case Reserve(p, call) => DecisionStamps(t, p, cfg, call, s);
    case Start(p, call) => IntentStamps(t, p, cfg, call, s);
    case OnOrder(order) =>
      StepFrame(t, cfg.calendar, order);
      FrameSnapshot(t, ApplyOrder(t, cfg.calendar, order));
      SameStamps(t, ApplyOrder(t, cfg.calendar, order), s);
  }

  lemma FrameSnapshot(t: Tables, u: Tables)
    requires OrderFrame(t, u)
    ensures u.snapshot == t.snapshot
  {
  }

  /** Position conservation over any chain of RECONCILED snapshots, whatever else happens in
      between: the position moves by exactly the net fills that were recorded and stamped. */
  lemma {:induction false} RunsConservePositions(t: Tables, cfg: Settings, steps: seq<Step>, s: Symbol)
    requires t.snapshot.Some? && Along({Reconciling}, t, cfg, steps)
    ensures var u := Run(t, cfg, steps);
            && u.snapshot.Some?
            && SnapshotHeld(u, s) - SnapshotHeld(t, s) == Stamped(u, s) - Stamped(t, s)
  {
    hide Meets, Apply, Stamped, SnapshotHeld;
    if steps != [] {
      var before := steps[..|steps| - 1];
      RunsConservePositions(t, cfg, before, s);
      StepConserves(Run(t, cfg, before), cfg, steps[|steps| - 1], s);
    }
  }
}
