/** The reconcile transaction: look up unknown orders, compare, persist the snapshot, and
    stamp fills when the verdict is RECONCILED (backend/opaca/reconciliation/service.py). */
module Reconcile {
  import opened Calendar
  import opened Compare
  import opened Domain
  import opened Execution
  import opened Orchestration
  import opened Records
  import opened Results
  import opened Sums
  import opened Tables

  /** The answer to a lookup by client order id. */
  datatype Answer = Unavailable | NotFound | Found(order: BrokerRow)

  datatype RawView = View(
    cash: real, positions: seq<Position>, orders: seq<BrokerOrder>, tradable: set<Symbol>, answers: map<OrderId, Answer>)

  /** One complete and validated read of the broker. */
  type View = v: RawView | v.cash >= 0.0 && DistinctSymbols(v.positions)
    witness RawView.View(0.0, [], [], {}, map[])

  /** `_lookup_unknown` for one record. */
  function Resolved(u: UnknownOrder, view: View): UnknownRow {
    if !u.state.Unknown? then u
    else
      var answer := if u.clientOrderId in view.answers then view.answers[u.clientOrderId] else NotFound;
      match answer
      case Unavailable => u.(state := OrderState.UnknownRequiresReview)
      case NotFound => u.(state := OrderState.UnknownRequiresReview)
      case Found(o) =>
        u.(symbol := o.symbol, side := o.side, quantity := o.quantity, filled := o.filled, state := o.mappedState)
  }

  function ResolvedRows(rows: seq<UnknownOrder>, view: View): (r: seq<UnknownRow>)
    ensures |r| == |rows| && forall i | 0 <= i < |r| :: r[i] == Resolved(rows[i], view)
  {
    seq(|rows|, i requires 0 <= i < |rows| => Resolved(rows[i], view))
  }

  /** `upsert_unknown_order` for each resolved record, in order. */
  function UpsertAll(rows: seq<UnknownOrder>, resolved: seq<UnknownRow>): seq<UnknownOrder>
    requires forall i | 0 <= i < |resolved| :: !ContradictoryPair(resolved[i])
  {
    if resolved == [] then rows
    else
      var n := |resolved| - 1;
      assert !ContradictoryPair(resolved[n]);
      var last: UnknownOrder := resolved[n];
      UpsertUnknown(UpsertAll(rows, resolved[..n]), last)
  }

  /** What `compare_state` is given. The unknown rows are those that were read before the
      transaction began, resolved by lookup. */
  function InputsOf(t: Tables, prior: seq<UnknownOrder>, view: View, now: Instant): Inputs {
    Inputs(view.cash, view.positions, view.orders,
           if t.snapshot.Some? then Some(t.snapshot.value.positions) else None,
           ActiveRows(t.reservations, None), ResolvedRows(prior, view), t.events, DateOf(now), t.orders)
  }

  datatype Reconciliation = InvalidBrokerState | Judged(verdict: Verdict)

  /** UNKNOWN rows that a lookup could not settle force a review. */
  predicate ReviewRequired(rows: seq<UnknownRow>) {
    exists u <- rows :: u.state.UnknownRequiresReview?
  }

  ghost function Judgement(t: Tables, prior: seq<UnknownOrder>, view: View, now: Instant): Reconciliation {
    var x := InputsOf(t, prior, view, now);
    if Invalid(x) then InvalidBrokerState else Judged(VerdictOf(x))
  }

  function NewSnapshot(t: Tables, view: View, now: Instant, reconciled: bool): Snapshot {
    Snapshot(if t.snapshot.Some? then t.snapshot.value.version + 1 else 1, reconciled, now,
             view.cash, view.positions, view.orders, view.tradable)
  }

  lemma InvalidPairs(t: Tables, prior: seq<UnknownOrder>, view: View, now: Instant)
    ensures (exists u <- ResolvedRows(prior, view) :: ContradictoryPair(u)) ==> Invalid(InputsOf(t, prior, view, now))
    ensures Adapted(InputsOf(t, prior, view, now))
  {
  }

  /** The transaction of `reconcile`. An invalid broker state is rolled back. */
  ghost function ReconcileTables(t: Tables, prior: seq<UnknownOrder>, view: View, now: Instant): Tables {
    if Invalid(InputsOf(t, prior, view, now)) then t
    else
      var agrees := VerdictOf(InputsOf(t, prior, view, now)).Agrees?;
      t.(unknown := UpsertAll(t.unknown, ResolvedRows(prior, view)),
         snapshot := Some(NewSnapshot(t, view, now, agrees)),
         orders := if agrees then StampedOrders(t.orders) else t.orders)
  }

  /** The review flag of the lookup is already part of the verdict of `compare_state`, so
      overriding the status with it changes nothing. */
  lemma ReviewFlagIsRedundant(t: Tables, prior: seq<UnknownOrder>, view: View, now: Instant)
    requires ReviewRequired(ResolvedRows(prior, view))
    ensures VerdictOf(InputsOf(t, prior, view, now)).NeedsReview?
  {
    hide OrdersVerdict, SubmittedVerdict, HoldVerdict, ReservedVerdict, PositionsMoved, CashInconsistent;
  }

  // ---- position conservation ----

  function StampedOf(s: Symbol): ExecutionOrder -> real {
    (o: ExecutionOrder) =>
      if o.symbol != s then 0.0 else if o.side.Buy? then o.reconciledFilled else -o.reconciledFilled
  }

  function FilledNetOf(s: Symbol): ExecutionOrder -> real {
    (o: ExecutionOrder) => if o.symbol != s then 0.0 else if o.side.Buy? then o.filled else -o.filled
  }

  /** Net bought quantity that RECONCILED snapshots have stamped. */
  function Stamped(t: Tables, s: Symbol): real {
    SumBy(t.orders, StampedOf(s))
  }

  function SnapshotHeld(t: Tables, s: Symbol): real
    requires t.snapshot.Some?
  {
    Held(t.snapshot.value.positions, s)
  }

  lemma ExplainedIsUnstamped(orders: seq<ExecutionOrder>, s: Symbol)
    ensures SumBy(orders, FilledNetOf(s)) == SumBy(orders, StampedOf(s)) + Explained(orders, s)
  {
    SumPlus<ExecutionOrder>(orders, StampedOf(s), IncrementOf(s), FilledNetOf(s));
  }

  lemma StampedSum(orders: seq<ExecutionOrder>, s: Symbol)
    ensures SumBy(StampedOrders(orders), StampedOf(s)) == SumBy(orders, FilledNetOf(s))
    ensures Explained(StampedOrders(orders), s) == 0.0
  {
    SumMapped<ExecutionOrder, ExecutionOrder>(StampedOrders(orders), orders, StampedOf(s), FilledNetOf(s));
    SumZero(StampedOrders(orders), IncrementOf(s));
  }

  /** A RECONCILED snapshot moves every position by exactly the signed fills that were not
      stamped, and stamps them. */
  lemma ReconciledMovesByFills(t: Tables, prior: seq<UnknownOrder>, view: View, now: Instant, s: Symbol)
    requires Judgement(t, prior, view, now) == Judged(Agrees) && t.snapshot.Some?
    ensures var u := ReconcileTables(t, prior, view, now);
            && SnapshotHeld(u, s) - SnapshotHeld(t, s) == Explained(t.orders, s)
            && SnapshotHeld(u, s) - SnapshotHeld(t, s) == Stamped(u, s) - Stamped(t, s)
            && Explained(u.orders, s) == 0.0
  {
    hide VerdictOf, Invalid;
    var x := InputsOf(t, prior, view, now);
    AgreesIsClean(x);
    assert !Moved(x, s);
    StampedSum(t.orders, s);
    ExplainedIsUnstamped(t.orders, s);
  }
}
