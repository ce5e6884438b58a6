/** What the Wheel ledger answers and writes, over the rows, the contract and the policy alone. */
module WheelAnswers {
  import opened Domain
  import opened Liquidity
  import opened Money
  import opened Results
  import opened Sums
  import opened Unresolved
  import opened WheelExposure
  import opened WheelLedger
  import opened WheelRuns

  // ---- sums over the rows ----

  /** Assignment capital in force, of every row, of one name, and without one row. */
  function InForce(): WheelReservation -> real {
    (r: WheelReservation) => if r.active && r.cashDeployment then r.amount else 0.0
  }

  function InForceFor(u: Symbol): WheelReservation -> real {
    (r: WheelReservation) => if r.active && r.cashDeployment && r.underlying == u then r.amount else 0.0
  }

  function InForceBeside(own: ReservationId): WheelReservation -> real {
    (r: WheelReservation) => if r.active && r.cashDeployment && r.id != own then r.amount else 0.0
  }

  function InForceBesideFor(own: ReservationId, u: Symbol): WheelReservation -> real {
    (r: WheelReservation) => if r.active && r.cashDeployment && r.id != own && r.underlying == u then r.amount else 0.0
  }

  lemma CommittedIs(rs: seq<WheelReservation>, u: Symbol)
    ensures Committed(rs) == SumBy(rs, InForce()) && CommittedFor(rs, u) == SumBy(rs, InForceFor(u))
  {
    SumEq(rs, CommittedOf(), InForce());
    SumEq(rs, CommittedIn(u), InForceFor(u));
  }

  lemma {:induction false} ActiveIs(rs: seq<WheelReservation>, u: Symbol)
    ensures Committed(ActiveOnly(rs)) == SumBy(rs, InForce()) && CommittedFor(ActiveOnly(rs), u) == SumBy(rs, InForceFor(u))
  {
    FilteredSums(rs, u);
    CommittedIs(rs, u);
  }

  lemma OthersStep(r: WheelReservation, rest: seq<WheelReservation>, own: ReservationId, f: WheelReservation -> real)
    ensures SumBy(Others([r] + rest, own), f) == (if r.id != own then f(r) else 0.0) + SumBy(Others(rest, own), f)
  {
    assert ([r] + rest)[1..] == rest;
    if r.id != own {
      assert Others([r] + rest, own) == [r] + Others(rest, own);
      assert ([r] + Others(rest, own))[1..] == Others(rest, own);
    } else {
      assert Others([r] + rest, own) == Others(rest, own);
    }
  }

  lemma {:induction false} BesideSum(rs: seq<WheelReservation>, own: ReservationId, f: WheelReservation -> real,
                                     g: WheelReservation -> real)
    requires forall r :: g(r) == if r.active && r.cashDeployment && r.id != own then f(r) else 0.0
    ensures SumBy(Others(ActiveOnly(rs), own), f) == SumBy(rs, g)
  {
    hide Others;
    if rs != [] {
      BesideSum(rs[1..], own, f, g);
      if rs[0].active && rs[0].cashDeployment {
        assert ActiveOnly(rs) == [rs[0]] + ActiveOnly(rs[1..]);
        OthersStep(rs[0], ActiveOnly(rs[1..]), own, f);
      } else {
        assert ActiveOnly(rs) == ActiveOnly(rs[1..]);
      }
    } else {
      NoOthers(own);
    }
  }

  lemma NoOthers(own: ReservationId)
    ensures Others(ActiveOnly([]), own) == []
  {
  }

  lemma BesideIs(rs: seq<WheelReservation>, own: ReservationId, u: Symbol)
    ensures Committed(Others(ActiveOnly(rs), own)) == SumBy(rs, InForceBeside(own))
    ensures CommittedFor(Others(ActiveOnly(rs), own), u) == SumBy(rs, InForceBesideFor(own, u))
  {
    BesideSum(rs, own, CommittedOf(), InForceBeside(own));
    BesideSum(rs, own, CommittedIn(u), InForceBesideFor(own, u));
  }

  /** Held shares count with the larger of their cost and their market value. */
  lemma HeldIsLarger(lots: seq<ShareLot>, u: Symbol)
    ensures var cost, market := SumBy(lots, CostOfName(u)), SumBy(lots, ValueOfName(u));
            HeldExposure(lots, u) == if cost < market then market else cost
  {
    SumEq<ShareLot>(lots, CostIn(u), CostOfName(u));
    SumEq<ShareLot>(lots, MarketIn(u), ValueOfName(u));
  }

  function CostOfName(u: Symbol): ShareLot -> real {
    (l: ShareLot) => if l.underlying == u then TimesBasis(l.shares, l.basis) else 0.0
  }

  function TimesBasis(shares: int, basis: real): real {
    shares as real * basis
  }

  function ValueOfName(u: Symbol): ShareLot -> real {
    (l: ShareLot) => if l.underlying == u then l.marketValue else 0.0
  }

  // ---- the guard and the authority ----

  function CapitalOf(p: WheelProposal): real {
    p.contract.strike * p.contract.multiplier * p.contracts as real
  }

  /** The premium of a trade as a fraction of the capital that it binds. */
  function YieldOf(p: WheelProposal): real
    requires CapitalOf(p) != 0.0
  {
    p.bid * p.contract.multiplier * p.contracts as real / CapitalOf(p)
  }

  /** A put on a permitted name, sold to open against cash, near its expiration and before the
      close, in a name and an account that are not in doubt. */
  predicate IsOpeningPut(p: WheelProposal, c: WheelContext) {
    var days := p.contract.expiration - c.now / 86_400_000_000;
    && !c.killSwitch && c.paperVerified && c.accountMatches && c.wheelState == Cash
    && p.contract.underlying !in c.unresolved && p.contract.underlying in c.permitted
    && p.action == SellCashSecuredPut && p.contract.isPut && p.contract.active && p.contract.tradable
    && c.policy.minDte <= days && days <= c.policy.maxDte && p.contracts == c.policy.openingContracts
    && (c.sessionClose.Some? ==> c.now + c.policy.blackout < c.sessionClose.value)
  }

  /** Quoted just now, sold at the bid, and worth it. */
  predicate IsWorthwhile(p: WheelProposal, c: WheelContext) {
    && p.asOf <= c.now <= p.asOf + c.policy.maxQuoteAge && 0.0 < p.bid <= p.ask && p.limitPremium == p.bid
    && CapitalOf(p) > 0.0 && YieldOf(p) >= c.policy.minYield
  }

  /** Hard caps: a fraction of the base for the name, the whole base for the Wheel, and the cash
      that is not committed. */
  ghost predicate FitsHardCaps(p: WheelProposal, c: WheelContext, named: real, all: real) {
    && Get(c.held, p.contract.underlying) + named + CapitalOf(p) <= c.base * c.policy.hardFraction
    && TotalOf(c.held) + all + CapitalOf(p) <= c.base
    && all + CapitalOf(p) <= c.cash
  }

  predicate IsCollateralized(p: WheelProposal, c: WheelContext) {
    c.collateralConsistent && c.buyingPower.Some? && CapitalOf(p) <= c.buyingPower.value
  }

  ghost predicate Sound(p: WheelProposal, c: WheelContext, named: real, all: real) {
    IsOpeningPut(p, c) && IsWorthwhile(p, c) && FitsHardCaps(p, c, named, all) && IsCollateralized(p, c)
  }

  /** Delegated: fractions of the base for the proposal, the name and the Wheel. */
  ghost predicate IsDelegated(p: WheelProposal, c: WheelContext, named: real, all: real, proposal: real, name: real, wheel: real) {
    && c.base > 0.0 && CapitalOf(p) >= 0.0
    && 0.0 <= Get(c.held, p.contract.underlying) + named + CapitalOf(p) <= c.base * name
    && 0.0 <= TotalOf(c.held) + all + CapitalOf(p) <= c.base * wheel
    && CapitalOf(p) <= c.base * proposal
  }

  lemma CapitalIs(p: WheelProposal)
    ensures AssignmentCapital(p) == CapitalOf(p)
  {
  }

  lemma OpeningIff(p: WheelProposal, c: WheelContext)
    ensures OpeningState(c, p) && Eligible(c, p) && c.accountMatches <==> IsOpeningPut(p, c)
  {
  }

  lemma WorthwhileIff(p: WheelProposal, c: WheelContext)
    ensures Economic(c, p) <==> IsWorthwhile(p, c)
  {
    CapitalIs(p);
  }

  lemma GuardIff(p: WheelProposal, c: WheelContext)
    ensures GuardPasses(c, p)
       <==> Sound(p, c, SumBy(c.reservations, InForceFor(p.contract.underlying)), SumBy(c.reservations, InForce()))
  {
    hide OpeningState, Eligible, Economic, IsOpeningPut, IsWorthwhile, AssignmentCapital, CapitalOf, TotalOf;
    CapitalIs(p);
    OpeningIff(p, c);
    WorthwhileIff(p, c);
    CommittedIs(c.reservations, p.contract.underlying);
  }

  // ---- authorize_and_reserve ----

  predicate NewWheelOrder(w: WheelTables, id: WheelOrderId) {
    && (forall o <- w.orders :: o.id != id) && (forall r <- w.reservations :: r.id != ForOrder(id))
  }

  /** Exactly when an authorization reserves capital: granted for the bound account on the
      expected snapshot, a new order, and sound and delegated on the rows as they are, within
      10% of the base for the proposal and the name and 20% for the Wheel. */
  ghost predicate MayReserve(w: WheelTables, account: string, version: string, p: WheelProposal, c: WheelContext, granted: bool,
                             id: WheelOrderId)
  {
    var named, all := SumBy(w.reservations, InForceFor(p.contract.underlying)), SumBy(w.reservations, InForce());
    && granted && w.account == Some(account) && w.snapshotVersion == Some(version) && w.base == Some(c.base)
    && NewWheelOrder(w, id) && Sound(p, c, named, all) && IsDelegated(p, c, named, all, 0.10, 0.10, 0.20)
  }

  lemma RecheckIff(w: WheelTables, p: WheelProposal, c: WheelContext)
    ensures FinalRecheck(w, p, c)
       <==> var named, all := SumBy(w.reservations, InForceFor(p.contract.underlying)), SumBy(w.reservations, InForce());
            w.base == Some(c.base) && Sound(p, c, named, all) && IsDelegated(p, c, named, all, 0.10, 0.10, 0.20)
  {
    hide GuardPasses, IsOpeningPut, IsWorthwhile, IsCollateralized, TotalOf, AssignmentCapital, CapitalOf, Committed, CommittedFor,
         FitsHardCaps;
    var live := c.(reservations := ActiveOnly(w.reservations));
    CapitalIs(p);
    ActiveIs(w.reservations, p.contract.underlying);
    GuardIff(p, live);
    CommittedIs(live.reservations, p.contract.underlying);
    SoundIsSame(p, live, c, SumBy(w.reservations, InForceFor(p.contract.underlying)), SumBy(w.reservations, InForce()));
  }

  lemma DelegatedIff(p: WheelProposal, c: WheelContext, named: real, all: real, policy: WheelPolicy)
    ensures DelegatedAuto(c.base, AssignmentCapital(p), Get(c.held, p.contract.underlying) + named + AssignmentCapital(p),
                          TotalOf(c.held) + all + AssignmentCapital(p), policy)
       <==> IsDelegated(p, c, named, all, policy.autoProposal, policy.autoUnderlying, policy.autoAggregate)
  {
    hide AssignmentCapital, CapitalOf, TotalOf;
    CapitalIs(p);
  }

  lemma SoundIsSame(p: WheelProposal, a: WheelContext, b: WheelContext, named: real, all: real)
    requires a == b.(reservations := a.reservations)
    ensures Sound(p, a, named, all) <==> Sound(p, b, named, all)
  {
    hide CapitalOf, TotalOf;
  }

  /** A known order is returned as it is, unless its symbol differs, it is UNKNOWN or it is
      incomplete; a new one is reserved exactly if it may; else there is an error and no write. */
  lemma AuthorizeAnswers(w: WheelTables, account: string, version: string, p: WheelProposal, c: WheelContext, granted: bool,
                         runId: string, attempt: int)
    ensures var id := WheelOrderId(runId, attempt, p.contract.occSymbol, p.action, p.contracts, p.limitPremium);
            var (v, r) := Authorize(w, account, version, p, c, granted, runId, attempt);
            if MayReserve(w, account, version, p, c, granted, id) then
              && v == w.(reservations := v.reservations, orders := v.orders)
              && v.reservations == w.reservations
                   + [WheelReservation(ForOrder(id), p.contract.underlying, CapitalOf(p), true, true)]
              && v.orders == w.orders
                   + [WheelOrder(id, p.contract.occSymbol, Authorized, Some(ForOrder(id)), Some(CapitalOf(p)), version)]
              && r == Ok(AuthorizedOrder(id, ForOrder(id), CapitalOf(p), Authorized))
            else
              && v == w
              && (r.Ok? <==>
                    && granted && w.account == Some(account) && w.snapshotVersion == Some(version)
                    && OrderOf(w.orders, id).Some?
                    && var o := OrderOf(w.orders, id).value;
                       o.occSymbol == p.contract.occSymbol && !o.status.Unknown? && o.reservationId.Some? && o.capital.Some?)
              && (r.Ok? ==> var o := OrderOf(w.orders, id).value;
                            r.value == AuthorizedOrder(id, o.reservationId.value, o.capital.value, o.status))
  {
    hide FinalRecheck, Sound, IsDelegated, AssignmentCapital, CapitalOf, SumBy;
    CapitalIs(p);
    RecheckIff(w, p, c);
  }

  // ---- the last recheck ----

  /** The last recheck leaves the own reservation out, and answers AUTO exactly if the trade is
      still sound and delegated beside the others, by the fractions of the context's policy. */
  lemma FinalAnswers(rs: seq<WheelReservation>, own: ReservationId, p: WheelProposal, c: WheelContext)
    ensures var named, all := SumBy(rs, InForceBesideFor(own, p.contract.underlying)), SumBy(rs, InForceBeside(own));
            var sound := Sound(p, c, named, all);
            var delegated := IsDelegated(p, c, named, all, c.policy.autoProposal, c.policy.autoUnderlying, c.policy.autoAggregate);
            FinalDecision(rs, own, p, c) == if !sound then WheelReject else if delegated then WheelAuto else WheelApproval
  {
    hide GuardPasses, Sound, IsDelegated, DelegatedAuto, TotalOf, AssignmentCapital, Committed, CommittedFor, SumBy;
    var others := c.(reservations := Others(ActiveOnly(rs), own));
    DelegatedIff(p, c, SumBy(rs, InForceBesideFor(own, p.contract.underlying)), SumBy(rs, InForceBeside(own)), c.policy);
    BesideIs(rs, own, p.contract.underlying);
    GuardIff(p, others);
    CommittedIs(others.reservations, p.contract.underlying);
    SoundIsSame(p, others, c, SumBy(rs, InForceBesideFor(own, p.contract.underlying)), SumBy(rs, InForceBeside(own)));
  }

  /** The published policy: one to seven days, a quote of the last fifteen seconds, thirty minutes
      before the close, a tenth of a percent, a quarter of the base, one contract. */
  lemma DefaultPolicyIs(p: WheelProposal, c: WheelContext)
    requires c.policy == DEFAULT_POLICY
    ensures IsOpeningPut(p, c) ==>
              && 1 <= p.contract.expiration - c.now / 86_400_000_000 <= 7 && p.contracts == 1
              && (c.sessionClose.Some? ==> c.sessionClose.value - c.now > 1_800_000_000)
    ensures IsWorthwhile(p, c) ==> c.now - p.asOf <= 15_000_000 && YieldOf(p) >= 0.001
    ensures c.policy.hardFraction == 0.25
  {
  }

  // ---- record_wheel_order_state ----

  predicate OverUnfilled(state: WheelOrderState) {
    state.Rejected? || state.Cancelled? || state.Expired? || state.NotSubmitted?
  }

  /** The state of the order is recorded, and its reservation let go exactly if the order is over
      and it is known that nothing filled, no position is there and nothing is unresolved. */
  lemma RecordAnswers(w: WheelTables, id: WheelOrderId, state: WheelOrderState, proof: Proof)
    ensures var (v, r) := RecordState(w, id, state, proof);
            var o := OrderOf(w.orders, id);
            var proven := OverUnfilled(state) && proof.filled == Some(0) && proof.positionPresent == Some(false)
                          && proof.unresolvedOrder == Some(false);
            if o.None? || (proof.filled.Some? && proof.filled.value < 0) then v == w && r.Err?
            else
              && v == w.(orders := v.orders, reservations := v.reservations) && r.Ok?
              && |v.orders| == |w.orders|
              && (forall i | 0 <= i < |w.orders| ::
                    v.orders[i] == if w.orders[i].id == id then w.orders[i].(status := state) else w.orders[i])
              && (!proven || o.value.reservationId.None? ==> v.reservations == w.reservations)
              && (proven && o.value.reservationId.Some? ==> LetGo(w.reservations, v.reservations, o.value.reservationId.value))
              && (r.value <==> v.reservations != w.reservations)
  {
  }

  /** The active row of the id is released, and nothing else. */
  predicate LetGo(before: seq<WheelReservation>, after: seq<WheelReservation>, id: ReservationId) {
    && |after| == |before|
    && forall i | 0 <= i < |before| ::
         after[i] == if before[i].id == id && before[i].active && before[i].cashDeployment then before[i].(active := false)
                     else before[i]
  }

  // ---- bootstrap ----

  /** Binding an account: refused for a blank id or no cash, for another account, and for a
      binding that is incomplete; done once, and else left as it is. */
  lemma BootstrapAnswers(w: WheelTables, account: string, cash: real, now: Instant)
    ensures Bootstrap(w, account, cash, now) ==
            if cash <= 0.0 || Blank(account) then InvalidArgument
            else if w.account.Some? && w.account.value != account then AccountMismatch
            else if w.account.Some? == w.base.Some? == w.boundAt.Some? then
              Bound(if w.account.Some? then w else w.(account := Some(account), base := Some(cash), boundAt := Some(now)))
            else IncompleteBinding
    ensures WithVersion(w, account) == if Blank(account) then Err else Ok(w.(snapshotVersion := Some(account)))
  {
  }

  /** Blank text is made of blanks and control breaks; letters, digits and signs are not. */
  lemma BlankMeans(text: string)
    ensures text == "" ==> Blank(text)
    ensures Blank(text) ==> forall c <- text :: !('!' <= c <= '~')
    ensures (forall c <- text :: c == ' ' || '\t' <= c <= '\r') ==> Blank(text)
    ensures Blank(text) <==> forall c <- text :: c in SPACES
  {
  }

  /** Blanks of Unicode, and the separators that count as such. */
  const SPACES: set<char> :=
    {'\t', '\n', '\U{B}', '\U{C}', '\r', '\U{1C}', '\U{1D}', '\U{1E}', '\U{1F}', ' ', '\U{85}', '\U{A0}', '\U{1680}',
     '\U{2000}', '\U{2001}', '\U{2002}', '\U{2003}', '\U{2004}', '\U{2005}', '\U{2006}', '\U{2007}', '\U{2008}',
     '\U{2009}', '\U{200A}', '\U{2028}', '\U{2029}', '\U{202F}', '\U{205F}', '\U{3000}'}

  // ---- reconcile_wheel ----

  /** The cash tolerance of an assignment: five dollars or five basis points, to the cent, with
      ties to the even cent. */
  lemma ToleranceIs(capital: real)
    requires capital > 0.0
    ensures var exact, t := if capital * 0.0005 < 5.0 then 5.0 else capital * 0.0005, CashTolerance(capital);
            && WholeCents(t) && -0.005 <= t - exact <= 0.005
            && (t - exact == 0.005 || t - exact == -0.005 ==> (t * 100.0).Floor % 2 == 0)
  {
    HalfEvenIs(if 0.0005 * capital > 5.0 then 0.0005 * capital else 5.0);
  }

  lemma HalfEvenIs(x: real)
    ensures var t := HalfEvenCents(x);
            && WholeCents(t) && -0.005 <= t - x <= 0.005
            && (t - x == 0.005 || t - x == -0.005 ==> (t * 100.0).Floor % 2 == 0)
  {
    var cents := (x * 100.0).Floor;
    var rest := x * 100.0 - cents as real;
    var n := if rest > 0.5 || (rest == 0.5 && cents % 2 == 1) then cents + 1 else cents;
    CentsAre(n);
    assert HalfEvenCents(x) == n as real / 100.0;
    assert -0.5 <= n as real - x * 100.0 <= 0.5;
  }

  lemma CentsAre(n: int)
    ensures WholeCents(n as real / 100.0) && ((n as real / 100.0) * 100.0).Floor == n
  {
    assert (n as real / 100.0) * 100.0 == n as real;
  }

  /** The query makes sense by itself. */
  predicate QueryHolds(q: Query) {
    q.capital > 0.0 && q.multiplier > 0.0 && q.contracts > 0 && !Blank(q.occSymbol) && !(q.assignment.Some? && q.expiry.Some?)
  }

  /** The order is the one asked about, and its capital is still reserved. */
  predicate OrderHolds(w: WheelTables, q: Query, o: WheelOrder, r: WheelReservation) {
    && w.account == Some(q.account) && o.occSymbol == q.occSymbol && !o.status.Unknown? && o.capital == Some(q.capital)
    && r.active && r.cashDeployment && r.amount == q.capital
  }

  predicate BrokerHolds(q: Query, b: BrokerReadback) {
    b.id == q.id && b.occSymbol == q.occSymbol && b.isSell && b.isPut
  }

  function SharesOf(q: Query): real {
    q.multiplier * q.contracts as real
  }

  function BasisOf(q: Query): real
    requires SharesOf(q) != 0.0
  {
    q.capital / SharesOf(q)
  }

  /** Filled in full and gone, with exactly the shares and the cash that an assignment moves. */
  predicate WasAssigned(q: Query, b: BrokerReadback, a: Assignment) {
    && q.position.None? && b.status.Filled? && b.contracts == q.contracts && b.filled == q.contracts
    && a.afterShares == a.beforeShares + SharesOf(q) && a.attributable && !a.contradictory
    && -CashTolerance(q.capital) <= a.cashDelta + q.capital <= CashTolerance(q.capital)
    && SharesOf(q) > 0.0 && SharesOf(q) == SharesOf(q).Floor as real
    && BasisOf(q) >= 0.0 && WholeCents(BasisOf(q)) && a.afterMarketValue >= 0.0
  }

  /** Over without a fill after the buffer, and nothing moved. */
  predicate HasExpired(q: Query, b: BrokerReadback, e: Expiry) {
    && e.thresholdReached == Some(true) && q.position.None? && OverUnfilled(b.status) && b.filled == 0
    && !e.assignmentSeen && !e.contradictory && e.beforeShares == e.afterShares && e.cashDelta == 0.0
  }

  predicate IsShort(q: Query, b: BrokerReadback, underlying: Symbol) {
    && b.contracts == q.contracts && b.filled == q.contracts && q.position.Some?
    && var h := q.position.value;
       h.occSymbol == q.occSymbol && h.underlying == underlying && h.isPut && h.isShort && h.contracts == q.contracts
  }

  lemma AssignedIff(q: Query, a: Assignment)
    requires q.broker.Some?
    ensures AssignmentAgrees(q, a) <==> WasAssigned(q, q.broker.value, a)
  {
    hide CashTolerance;
    assert ExpectedShares(q) == SharesOf(q);
  }

  /** The rows that a query is about. */
  function AskedOrder(w: WheelTables, q: Query): Option<WheelOrder> {
    OrderOf(w.orders, q.id)
  }

  function AskedRow(w: WheelTables, q: Query): Option<WheelReservation> {
    var o := AskedOrder(w, q);
    if o.Some? && o.value.reservationId.Some? then ReservationOf(w.reservations, o.value.reservationId.value) else None
  }

  /** The query, the ledger and the broker speak of the same opening sale. */
  predicate Attributable(w: WheelTables, q: Query) {
    && QueryHolds(q) && AskedOrder(w, q).Some? && AskedRow(w, q).Some? && q.broker.Some?
    && OrderHolds(w, q, AskedOrder(w, q).value, AskedRow(w, q).value) && BrokerHolds(q, q.broker.value)
  }

  /** The first lot of the order is replaced in place. */
  predicate ReplacedAt(before: seq<StoredLot>, after: seq<StoredLot>, lot: StoredLot, i: int) {
    && 0 <= i < |before| == |after| && before[i].order == lot.order && after[i] == lot
    && (forall j | 0 <= j < i :: before[j].order != lot.order)
    && forall j | 0 <= j < |before| && j != i :: after[j] == before[j]
  }

  /** One lot an order: the new one, added or in place of the old one. */
  ghost predicate LotStored(before: seq<StoredLot>, after: seq<StoredLot>, lot: StoredLot) {
    if forall x <- before :: x.order != lot.order then after == before + [lot]
    else exists i :: ReplacedAt(before, after, lot, i)
  }

  lemma {:induction false} LotIsStored(lots: seq<StoredLot>, lot: StoredLot)
    ensures LotStored(lots, UpsertLot(lots, lot), lot)
  {
    if lots == [] {
      assert UpsertLot(lots, lot) == lots + [lot];
    } else if lots[0].order == lot.order {
      assert ReplacedAt(lots, UpsertLot(lots, lot), lot, 0);
    } else {
      LotIsStored(lots[1..], lot);
      LotStoredBehind(lots, UpsertLot(lots[1..], lot), lot);
    }
  }

  lemma LotStoredBehind(lots: seq<StoredLot>, rest: seq<StoredLot>, lot: StoredLot)
    requires lots != [] && lots[0].order != lot.order && LotStored(lots[1..], rest, lot)
    ensures LotStored(lots, [lots[0]] + rest, lot)
  {
    hide ReplacedAt;
    assert forall x <- lots :: x == lots[0] || x in lots[1..];
    if forall x <- lots[1..] :: x.order != lot.order {
      assert [lots[0]] + rest == lots + [lot];
    } else {
      var i :| ReplacedAt(lots[1..], rest, lot, i);
      ReplacedBehind(lots, rest, lot, i);
      assert forall x <- lots[1..] :: x in lots;
    }
  }

  lemma ReplacedBehind(lots: seq<StoredLot>, rest: seq<StoredLot>, lot: StoredLot, i: int)
    requires lots != [] && lots[0].order != lot.order && ReplacedAt(lots[1..], rest, lot, i)
    ensures ReplacedAt(lots, [lots[0]] + rest, lot, i + 1)
  {
    var after := [lots[0]] + rest;
    assert forall j | 0 < j < |lots| :: lots[j] == lots[1..][j - 1] && after[j] == rest[j - 1];
  }

  /** The symbol that a failed comparison marks: that of the reservation, or of the position where
      there is no such order. */
  function DoubtedSymbol(w: WheelTables, q: Query): Option<Symbol> {
    if !QueryHolds(q) then None
    else if AskedOrder(w, q).None? then (if q.position.Some? then Some(q.position.value.underlying) else None)
    else if AskedRow(w, q).Some? then Some(AskedRow(w, q).value.underlying)
    else None
  }

  /** The bought shares, at the basis and the value of the evidence, take the place of the row. */
  ghost predicate Assigned(w: WheelTables, v: WheelTables, q: Query, row: WheelReservation, a: Assignment)
    requires q.broker.Some? && WasAssigned(q, q.broker.value, a)
  {
    && v == w.(lots := v.lots, reservations := v.reservations, states := w.states[row.underlying := SharesHeld])
    && LetGo(w.reservations, v.reservations, row.id)
    && LotStored(w.lots, v.lots, StoredLot(q.id, ShareLot(row.underlying, SharesOf(q).Floor, BasisOf(q), a.afterMarketValue)))
  }

  /** A reconciliation finds the order assigned, expired or still short exactly if all that is
      known says so, and writes what follows; anything else is doubt and moves nothing. */
  lemma ReconcileAnswers(w: WheelTables, q: Query)
    ensures var (v, answer) := ReconcileWheel(w, q);
            if Attributable(w, q) && q.assignment.Some? && WasAssigned(q, q.broker.value, q.assignment.value) then
              answer == Agreed(SharesHeld) && Assigned(w, v, q, AskedRow(w, q).value, q.assignment.value)
            else if Attributable(w, q) && q.expiry.Some? && HasExpired(q, q.broker.value, q.expiry.value) then
              && answer == Agreed(Cash)
              && v == w.(reservations := v.reservations, states := w.states[AskedRow(w, q).value.underlying := Cash])
              && LetGo(w.reservations, v.reservations, AskedRow(w, q).value.id)
            else if Attributable(w, q) && q.assignment.None? && q.expiry.None?
                    && IsShort(q, q.broker.value, AskedRow(w, q).value.underlying) then
              answer == Agreed(ShortPutOpen) && v == w.(states := w.states[AskedRow(w, q).value.underlying := ShortPutOpen])
            else
              && answer == Doubtful
              && v == (if DoubtedSymbol(w, q).None? || Blank(DoubtedSymbol(w, q).value) then w
                       else w.(states := w.states[DoubtedSymbol(w, q).value := UnknownState]))
  {
    hide AssignmentAgrees, WasAssigned, CashTolerance, Blank, LotStored;
    if q.broker.Some? && q.assignment.Some? { AssignedIff(q, q.assignment.value); }
    if Attributable(w, q) && q.assignment.Some? && WasAssigned(q, q.broker.value, q.assignment.value) {
      AssignmentWrites(w, q, AskedRow(w, q).value, q.assignment.value);
    }
  }

  lemma AssignmentWrites(w: WheelTables, q: Query, row: WheelReservation, a: Assignment)
    requires q.broker.Some? && AssignmentAgrees(q, a) && WasAssigned(q, q.broker.value, a)
    ensures Assigned(w, Converted(w, q, a, row), q, row, a)
  {
    hide LotStored, CashTolerance;
    var lot := StoredLot(q.id, ShareLot(row.underlying, SharesOf(q).Floor, BasisOf(q), a.afterMarketValue));
    LotIsStored(w.lots, lot);
    assert ExpectedShares(q) == SharesOf(q);
  }
}
