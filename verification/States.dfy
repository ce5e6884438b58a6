/** The execution state machine (backend/opaca/execution/states.py). */
module States {
  import opened Domain
  import opened Results

  datatype ExecutionState =
    | Ready | Submitting | Submitted | PartiallyFilled | CancelPending | Unknown
    | Filled | Cancelled | Rejected | NotSubmitted
  {
    predicate IsTerminal() {
      Filled? || Cancelled? || Rejected? || NotSubmitted?
    }

    /** States under which `sync_proposal_reservations` keeps all capacity. */
    predicate IsUncertain() {
      Unknown? || Submitting?
    }

    /** OPEN_RECOVERY_STATES */
    predicate IsOpenForRecovery() {
      Submitting? || Submitted? || PartiallyFilled? || CancelPending? || Unknown?
    }
  }

  /** LEGAL_TRANSITIONS */
  function LegalTargets(s: ExecutionState): set<ExecutionState> {
    match s
    case Ready => {ExecutionState.Submitting}
    case Submitting => {ExecutionState.Submitted, ExecutionState.PartiallyFilled, ExecutionState.Filled,
                        ExecutionState.Rejected, ExecutionState.NotSubmitted, ExecutionState.Unknown}
    case Submitted => {ExecutionState.PartiallyFilled, ExecutionState.Filled, ExecutionState.Rejected,
                       ExecutionState.CancelPending, ExecutionState.Cancelled, ExecutionState.Unknown}
    case PartiallyFilled => {ExecutionState.Filled, ExecutionState.CancelPending, ExecutionState.Cancelled,
                             ExecutionState.Unknown}
    case CancelPending => {ExecutionState.Cancelled, ExecutionState.Filled, ExecutionState.PartiallyFilled,
                           ExecutionState.Unknown}
    case Unknown => {ExecutionState.Submitted, ExecutionState.PartiallyFilled, ExecutionState.Filled,
                     ExecutionState.Rejected, ExecutionState.Cancelled, ExecutionState.CancelPending}
    case Filled => {}
    case Cancelled => {}
    case Rejected => {}
    case NotSubmitted => {}
  }

  /** `validate_transition` accepts. */
  predicate MayBecome(current: ExecutionState, target: ExecutionState) {
    current == target || target in LegalTargets(current)
  }

  /** A broker status token, already looked up in ALPACA_ORDER_STATUS_MAP. */
  datatype BrokerStatus = PendingCancel | Mapped(state: OrderState) | Unmapped

  /** `map_broker_status` */
  function MapBrokerStatus(status: BrokerStatus): ExecutionState {
    match status
    case PendingCancel => ExecutionState.CancelPending
    case Unmapped => ExecutionState.Unknown
    case Mapped(state) =>
      match state
      case New => ExecutionState.Submitted
      case Accepted => ExecutionState.Submitted
      case Submitted => ExecutionState.Submitted
      case PartiallyFilled => ExecutionState.PartiallyFilled
      case Filled => ExecutionState.Filled
      case Canceled => ExecutionState.Cancelled
      case CanceledRemainder => ExecutionState.Cancelled
      case Expired => ExecutionState.Cancelled
      case Rejected => ExecutionState.Rejected
      case _ => ExecutionState.Unknown
  }

  /** The transition table by its target: from where each state may be reached. */
  lemma ReachedFrom(a: ExecutionState, b: ExecutionState)
    ensures a != b ==>
              (MayBecome(a, b) <==>
                 match b
                 case Ready => false
                 case Submitting => a.Ready?
                 case NotSubmitted => a.Submitting?
                 case Submitted => a.Submitting? || a.Unknown?
                 case Rejected => a.Submitting? || a.Submitted? || a.Unknown?
                 case CancelPending => a.Submitted? || a.PartiallyFilled? || a.Unknown?
                 case Cancelled => a.Submitted? || a.PartiallyFilled? || a.CancelPending? || a.Unknown?
                 case PartiallyFilled => a.Submitting? || a.Submitted? || a.CancelPending? || a.Unknown?
                 case Unknown => a.IsOpenForRecovery()
                 case Filled => a.IsOpenForRecovery())
    ensures MayBecome(a, a)
  {
  }

  /** What the broker's words mean: an order is over for the execution exactly if its domain
      state is closed by the broker, and what is not known is UNKNOWN. */
  lemma StatusMeans(status: BrokerStatus)
    ensures MapBrokerStatus(status) == ExecutionState.Filled <==> status == Mapped(OrderState.Filled)
    ensures MapBrokerStatus(status) == ExecutionState.Rejected <==> status == Mapped(OrderState.Rejected)
    ensures MapBrokerStatus(status) == ExecutionState.PartiallyFilled <==> status == Mapped(OrderState.PartiallyFilled)
    ensures MapBrokerStatus(status) == ExecutionState.CancelPending <==> status == PendingCancel
    ensures MapBrokerStatus(status) == ExecutionState.Submitted
       <==> status.Mapped? && (status.state.New? || status.state.Accepted? || status.state.Submitted?)
    ensures MapBrokerStatus(status) == ExecutionState.Cancelled
       <==> status.Mapped? && (status.state.Canceled? || status.state.CanceledRemainder? || status.state.Expired?)
    ensures MapBrokerStatus(status).IsTerminal()
       <==> status.Mapped? && !status.state.IsUnresolved() && !status.state.Reconciled? && !status.state.Failed?
    ensures MapBrokerStatus(status).IsUncertain() <==> MapBrokerStatus(status) == ExecutionState.Unknown
  {
  }

  /** A sequence of states, each reached from the one before by an accepted transition. */
  predicate Path(states: seq<ExecutionState>) {
    forall i | 0 < i < |states| :: MayBecome(states[i - 1], states[i])
  }

  /** Terminal states absorb every run. */
  lemma {:induction false} TerminalAbsorbs(states: seq<ExecutionState>)
    requires Path(states) && states != [] && states[0].IsTerminal()
    ensures forall s <- states :: s == states[0]
  {
    if |states| > 1 {
      assert MayBecome(states[0], states[1]);
      var rest := states[1..];
      assert forall i | 0 < i < |rest| :: rest[i - 1] == states[i] && rest[i] == states[i + 1];
      TerminalAbsorbs(rest);
      assert forall s <- states :: s == states[0] || s in rest;
    }
  }

  /** NOT_SUBMITTED is proof that nothing was sent: no broker status means it, and only a
      SUBMITTING row may become it. */
  lemma NotSubmittedIsLocal(status: BrokerStatus, s: ExecutionState)
    ensures !MapBrokerStatus(status).NotSubmitted?
    ensures !MapBrokerStatus(status).Ready? && !MapBrokerStatus(status).Submitting?
    ensures MayBecome(s, ExecutionState.NotSubmitted) <==> s.Submitting? || s.NotSubmitted?
    ensures MayBecome(s, ExecutionState.Submitting) <==> s.Ready? || s.Submitting?
  {
  }

  /** Every non-terminal state that an order can be in after its intent is recovered. */
  lemma OpenIsNotTerminal(s: ExecutionState)
    ensures s.IsOpenForRecovery() <==> !s.IsTerminal() && !s.Ready?
    ensures s.IsTerminal() <==> LegalTargets(s) == {}
  {
    if !s.IsTerminal() {
      var t := if s.Ready? then ExecutionState.Submitting
               else if s.Unknown? then ExecutionState.Submitted else ExecutionState.Unknown;
      assert t in LegalTargets(s);
    }
  }
}
