/** The Competition Wheel's exposure arithmetic (backend/opaca/wheel/exposure.py, policy.py,
    authority.py). Several accumulators compute the same post-trade exposures; they are
    proved to agree. */
module WheelExposure {
  import opened Domain
  import opened Money
  import opened Results
  import opened Sums
  import opened Liquidity
  import opened Unresolved

  datatype WheelAction = SellCashSecuredPut | OtherAction

  /** The hash of every field of a logical order is an injective constructor. */
  datatype WheelOrderId = WheelOrderId(
    runId: string, attempt: int, occSymbol: string, action: WheelAction, contracts: int, limitPremium: real)

  /** `<client order id>-reservation`, or any other text. */
  datatype ReservationId = ForOrder(order: WheelOrderId) | Named(text: string)

  datatype WheelReservation = WheelReservation(
    id: ReservationId, underlying: Symbol, amount: real, active: bool, cashDeployment: bool)
  {
    /** What every accumulator counts. */
    predicate Counts() {
      active && cashDeployment
    }
  }

  datatype RawShareLot = ShareLot(underlying: Symbol, shares: int, basis: real, marketValue: real)

  type ShareLot = l: RawShareLot | l.shares > 0 && l.basis >= 0.0 && l.marketValue >= 0.0
    witness RawShareLot.ShareLot("", 1, 0.0, 0.0)

  function LotCost(shares: int, basis: real): real {
    shares as real * basis
  }

  // ---- the sums that the accumulators are measured against ----

  function CommittedOf(): WheelReservation -> real {
    (r: WheelReservation) => if r.Counts() then r.amount else 0.0
  }

  function CommittedIn(u: Symbol): WheelReservation -> real {
    (r: WheelReservation) => if r.Counts() && r.underlying == u then r.amount else 0.0
  }

  function Committed(rs: seq<WheelReservation>): real {
    SumBy(rs, CommittedOf())
  }

  function CommittedFor(rs: seq<WheelReservation>, u: Symbol): real {
    SumBy(rs, CommittedIn(u))
  }

  function CostIn(u: Symbol): ShareLot -> real {
    (l: ShareLot) => if l.underlying == u then LotCost(l.shares, l.basis) else 0.0
  }

  function MarketIn(u: Symbol): ShareLot -> real {
    (l: ShareLot) => if l.underlying == u then l.marketValue else 0.0
  }

  function Larger(a: real, b: real): real {
    if a < b then b else a
  }

  /** Conservative exposure of held shares: the larger of cost and market value. */
  function HeldExposure(lots: seq<ShareLot>, u: Symbol): real {
    Larger(SumBy(lots, CostIn(u)), SumBy(lots, MarketIn(u)))
  }

  /** One list of the elements of a set. */
  ghost function ListOf(s: set<Symbol>): (list: seq<Symbol>)
    ensures Enumerates(list, s)
  {
    if s == {} then []
    else
      var x :| x in s;
      var rest := ListOf(s - {x});
      assert forall i | 0 <= i < |rest| :: rest[i] in rest;
      rest + [x]
  }

  function ValueIn(m: map<Symbol, real>): Symbol -> real {
    (s: Symbol) => Get(m, s)
  }

  /** `sum(mapping.values())` */
  ghost function TotalOf(m: map<Symbol, real>): real {
    SumBy(ListOf(m.Keys), ValueIn(m))
  }

  lemma {:induction false} EnumerationsAgree(a: seq<Symbol>, b: seq<Symbol>, s: set<Symbol>)
    requires Enumerates(a, s) && Enumerates(b, s)
    ensures multiset(a) == multiset(b)
  {
    forall x ensures multiset(a)[x] == multiset(b)[x] {
      DistinctCount(a, x);
      DistinctCount(b, x);
    }
  }

  lemma {:induction false} DistinctCount(a: seq<Symbol>, x: Symbol)
    requires Distinct(a)
    ensures multiset(a)[x] == if x in a then 1 else 0
  {
    if a != [] {
      assert a == [a[0]] + a[1..];
      DistinctCount(a[1..], x);
      assert x in a <==> x == a[0] || x in a[1..];
    }
  }

  method SumValues(m: map<Symbol, real>) returns (total: real)
    ensures total == TotalOf(m)
  {
    total := 0.0;
    var list := SymbolList(m.Keys);
    for i := 0 to |list|
      invariant total == SumBy(list[..i], ValueIn(m))
    {
      assert list[..i + 1] == list[..i] + [list[i]] && list[i] in m;
      SumSnoc(list[..i], list[i], ValueIn(m));
      total := total + m[list[i]];
    }
    assert list[..|list|] == list;
    EnumerationsAgree(list, ListOf(m.Keys), m.Keys);
    SumPermutation(list, ListOf(m.Keys), ValueIn(m));
  }

  // ---- compute_wheel_exposure ----

  datatype Exposure = Exposure(
    cash: real, commitment: real, available: real, held: map<Symbol, real>,
    byUnderlying: map<Symbol, real>, aggregate: real, known: bool)

  method AccumulateReservations(rs: seq<WheelReservation>) returns (r: Result<(real, map<Symbol, real>)>)
    ensures r.Err? <==> exists x <- rs :: x.amount < 0.0
    ensures r.Ok? ==> r.value.0 == Committed(rs) && forall u :: Get(r.value.1, u) == CommittedFor(rs, u)
  {
    var total, byName: map<Symbol, real> := 0.0, map[];
    for i := 0 to |rs|
      invariant forall x <- rs[..i] :: x.amount >= 0.0
      invariant total == Committed(rs[..i])
      invariant forall u :: Get(byName, u) == CommittedFor(rs[..i], u)
    {
      var x := rs[i];
      ghost var before := byName;
      assert rs[..i + 1] == rs[..i] + [x];
      if x.amount < 0.0 {
        return Err;
      }
      SumSnoc(rs[..i], x, CommittedOf());
      if x.active && x.cashDeployment {
        total := total + x.amount;
        byName := byName[x.underlying := Get(byName, x.underlying) + x.amount];
      }
      forall u ensures Get(byName, u) == CommittedFor(rs[..i + 1], u) {
        SumSnoc(rs[..i], x, CommittedIn(u));
        assert Get(before, u) == CommittedFor(rs[..i], u);
      }
    }
    assert rs[..|rs|] == rs;
    return Ok((total, byName));
  }

  method AccumulateLots(lots: seq<ShareLot>) returns (cost: map<Symbol, real>, market: map<Symbol, real>)
    ensures cost.Keys == market.Keys == set l <- lots :: l.underlying
    ensures forall u :: Get(cost, u) == SumBy(lots, CostIn(u)) && Get(market, u) == SumBy(lots, MarketIn(u))
  {
    cost, market := map[], map[];
    for i := 0 to |lots|
      invariant cost.Keys == market.Keys == set l <- lots[..i] :: l.underlying
      invariant forall u :: Get(cost, u) == SumBy(lots[..i], CostIn(u))
      invariant forall u :: Get(market, u) == SumBy(lots[..i], MarketIn(u))
    {
      var l := lots[i];
      ghost var c, m := cost, market;
      assert lots[..i + 1] == lots[..i] + [l];
      cost := cost[l.underlying := Get(cost, l.underlying) + LotCost(l.shares, l.basis)];
      market := market[l.underlying := Get(market, l.underlying) + l.marketValue];
      forall u
        ensures Get(cost, u) == SumBy(lots[..i + 1], CostIn(u))
        ensures Get(market, u) == SumBy(lots[..i + 1], MarketIn(u))
      {
        SumSnoc<ShareLot>(lots[..i], l, CostIn(u));
        SumSnoc<ShareLot>(lots[..i], l, MarketIn(u));
        assert Get(c, u) == SumBy(lots[..i], CostIn(u)) && Get(m, u) == SumBy(lots[..i], MarketIn(u));
      }
    }
    assert lots[..|lots|] == lots;
  }

  function LargerValues(a: map<Symbol, real>, b: map<Symbol, real>): (m: map<Symbol, real>)
    ensures forall u :: Get(m, u) == Larger(Get(a, u), Get(b, u))
  {
    map u | u in a.Keys + b.Keys :: Larger(Get(a, u), Get(b, u))
  }

  function AddedValues(a: map<Symbol, real>, b: map<Symbol, real>): (m: map<Symbol, real>)
    ensures forall u :: Get(m, u) == Get(a, u) + Get(b, u)
  {
    map u | u in a.Keys + b.Keys :: Get(a, u) + Get(b, u)
  }

  /** `compute_wheel_exposure` */
  method ComputeWheelExposure(cash: real, lots: seq<ShareLot>, rs: seq<WheelReservation>, unattributable: set<Symbol>)
    returns (r: Result<Exposure>)
    ensures r.Err? <==> exists x <- rs :: x.amount < 0.0
    ensures r.Ok? ==>
              var e := r.value;
              && e.cash == cash && e.commitment == Committed(rs) && e.available == cash - Committed(rs)
              && (forall u :: Get(e.held, u) == HeldExposure(lots, u))
              && (forall u :: Get(e.byUnderlying, u) == HeldExposure(lots, u) + CommittedFor(rs, u))
              && e.aggregate == TotalOf(e.held) + Committed(rs)
              && (e.known <==> unattributable == {} && cash >= Committed(rs))
  {
    var accumulated := AccumulateReservations(rs);
    if accumulated.Err? {
      return Err;
    }
    var (commitment, byName) := accumulated.value;
    var cost, market := AccumulateLots(lots);
    var held := LargerValues(cost, market);
    var exposure := AddedValues(held, byName);
    var total := SumValues(held);
    var available := cash - commitment;
    return Ok(Exposure(cash, commitment, available, held, exposure, total + commitment,
                       unattributable == {} && available >= 0.0));
  }

  // ---- CHECK-20 and the filtered sums ----

  /** Exposure of one name, and of the whole Wheel, once a capital is added. */
  function PostName(held: map<Symbol, real>, rs: seq<WheelReservation>, u: Symbol, capital: real): real {
    Get(held, u) + CommittedFor(rs, u) + capital
  }

  ghost function PostAggregate(held: map<Symbol, real>, rs: seq<WheelReservation>, capital: real): real {
    TotalOf(held) + Committed(rs) + capital
  }

  /** `_check_20`: the fold over all rows, with its filter inside. */
  method Check20(base: real, hardFraction: real, cash: real, held: map<Symbol, real>, rs: seq<WheelReservation>,
                 u: Symbol, capital: real)
    returns (passed: bool, postName: real, postAggregate: real)
    ensures postName == PostName(held, rs, u, capital)
    ensures postAggregate == PostAggregate(held, rs, capital)
    ensures passed <==> postName <= base * hardFraction && postAggregate <= base && capital <= cash - Committed(rs)
  {
    var total, byName: map<Symbol, real> := 0.0, map[];
    for i := 0 to |rs|
      invariant total == Committed(rs[..i])
      invariant forall v :: Get(byName, v) == CommittedFor(rs[..i], v)
    {
      var x := rs[i];
      ghost var before := byName;
      assert rs[..i + 1] == rs[..i] + [x];
      SumSnoc(rs[..i], x, CommittedOf());
      if x.active && x.cashDeployment {
        total := total + x.amount;
        byName := byName[x.underlying := Get(byName, x.underlying) + x.amount];
      }
      forall v ensures Get(byName, v) == CommittedFor(rs[..i + 1], v) {
        SumSnoc(rs[..i], x, CommittedIn(v));
        assert Get(before, v) == CommittedFor(rs[..i], v);
      }
    }
    assert rs[..|rs|] == rs;
    var heldTotal := SumValues(held);
    postName := Get(held, u) + Get(byName, u) + capital;
    postAggregate := heldTotal + total + capital;
    passed := postName <= base * hardFraction && postAggregate <= base && capital <= cash - total;
  }

  /** The rows that `active_assignment_reservations` selects. */
  function ActiveOnly(rs: seq<WheelReservation>): (r: seq<WheelReservation>)
    ensures forall x <- r :: x in rs && x.Counts()
  {
    if rs == [] then [] else (if rs[0].Counts() then [rs[0]] else []) + ActiveOnly(rs[1..])
  }

  function AmountOfRow(): WheelReservation -> real {
    (r: WheelReservation) => r.amount
  }

  function AmountFor(u: Symbol): WheelReservation -> real {
    (r: WheelReservation) => if r.underlying == u then r.amount else 0.0
  }

  /** The generator sums of `authorize_and_reserve` over selected rows. */
  lemma {:induction false} FilteredSums(rs: seq<WheelReservation>, u: Symbol)
    ensures SumBy(ActiveOnly(rs), AmountOfRow()) == Committed(rs)
    ensures SumBy(ActiveOnly(rs), AmountFor(u)) == CommittedFor(rs, u)
    ensures Committed(ActiveOnly(rs)) == Committed(rs) && CommittedFor(ActiveOnly(rs), u) == CommittedFor(rs, u)
  {
    if rs != [] {
      FilteredSums(rs[1..], u);
      var rest := ActiveOnly(rs[1..]);
      if rs[0].Counts() {
        assert ActiveOnly(rs) == [rs[0]] + rest && ([rs[0]] + rest)[1..] == rest;
      } else {
        assert ActiveOnly(rs) == rest;
      }
    }
  }

  /** The rows of the final recheck: the order's own reservation is left out. */
  function Others(rs: seq<WheelReservation>, own: ReservationId): seq<WheelReservation> {
    if rs == [] then [] else (if rs[0].id != own then [rs[0]] else []) + Others(rs[1..], own)
  }

  predicate DistinctIds(rs: seq<WheelReservation>) {
    forall i, j | 0 <= i < j < |rs| :: rs[i].id != rs[j].id
  }

  lemma {:induction false} WithoutAbsent(rs: seq<WheelReservation>, own: ReservationId)
    requires forall r <- rs :: r.id != own
    ensures Others(rs, own) == rs
  {
    if rs != [] {
      WithoutAbsent(rs[1..], own);
    }
  }

  /** Leaving out the own reservation and adding its capital back changes nothing. */
  lemma {:induction false} OwnReservationAddsBack(rs: seq<WheelReservation>, own: WheelReservation, u: Symbol)
    requires DistinctIds(rs) && own in rs && own.Counts()
    ensures Committed(Others(rs, own.id)) + own.amount == Committed(rs)
    ensures CommittedFor(Others(rs, own.id), u) + (if own.underlying == u then own.amount else 0.0) == CommittedFor(rs, u)
  {
    assert forall i | 0 <= i < |rs| - 1 :: rs[1..][i] == rs[i + 1];
    var k :| 0 <= k < |rs| && rs[k] == own;
    if rs[0].id == own.id {
      assert k == 0;
      forall r <- rs[1..] ensures r.id != own.id {}
      WithoutAbsent(rs[1..], own.id);
      assert Others(rs, own.id) == rs[1..];
    } else {
      assert own in rs[1..];
      OwnReservationAddsBack(rs[1..], own, u);
      var rest := Others(rs[1..], own.id);
      assert Others(rs, own.id) == [rs[0]] + rest && ([rs[0]] + rest)[1..] == rest;
    }
  }

  lemma {:induction false} ActiveOnlyMembers(rs: seq<WheelReservation>)
    ensures forall r <- rs | r.Counts() :: r in ActiveOnly(rs)
    ensures DistinctIds(rs) ==> DistinctIds(ActiveOnly(rs))
  {
    if rs != [] {
      assert forall i | 0 <= i < |rs| - 1 :: rs[1..][i] == rs[i + 1];
      ActiveOnlyMembers(rs[1..]);
      assert forall r <- rs :: r == rs[0] || r in rs[1..];
      if DistinctIds(rs) {
        forall r <- ActiveOnly(rs[1..]) ensures r.id != rs[0].id {
          var j :| 0 <= j < |rs| - 1 && rs[1..][j] == r;
          assert rs[j + 1] == r;
        }
      }
    }
  }

  /** The accumulators agree. Against a list of reservations and the exposure that
      `compute_wheel_exposure` reports for it: what CHECK-20 and the authorization compute
      before a reservation is inserted is the reported exposure after it is inserted, and
      what the final recheck computes without the own reservation is the exposure with it. */
  lemma AccumulatorsAgree(held: map<Symbol, real>, rs: seq<WheelReservation>, own: WheelReservation)
    requires DistinctIds(rs) && own.Counts()
    ensures var after := rs + [own];
            && PostName(held, rs, own.underlying, own.amount) == Get(held, own.underlying) + CommittedFor(after, own.underlying)
            && PostAggregate(held, rs, own.amount) == TotalOf(held) + Committed(after)
    ensures PostName(held, ActiveOnly(rs), own.underlying, own.amount) == PostName(held, rs, own.underlying, own.amount)
    ensures PostAggregate(held, ActiveOnly(rs), own.amount) == PostAggregate(held, rs, own.amount)
    ensures own in rs ==>
              && PostName(held, Others(ActiveOnly(rs), own.id), own.underlying, own.amount)
                 == Get(held, own.underlying) + CommittedFor(rs, own.underlying)
              && PostAggregate(held, Others(ActiveOnly(rs), own.id), own.amount) == TotalOf(held) + Committed(rs)
  {
    hide TotalOf;
    SumSnoc(rs, own, CommittedOf());
    SumSnoc(rs, own, CommittedIn(own.underlying));
    FilteredSums(rs, own.underlying);
    if own in rs {
      ActiveOnlyMembers(rs);
      OwnReservationAddsBack(ActiveOnly(rs), own, own.underlying);
    }
  }

  lemma {:induction false} OthersMembers(rs: seq<WheelReservation>, own: ReservationId)
    ensures forall r <- Others(rs, own) :: r in rs && r.id != own
  {
    if rs != [] {
      OthersMembers(rs[1..], own);
    }
  }

  /** Every row that the final recheck sums is a counted one. */
  lemma OthersOfActive(rs: seq<WheelReservation>, own: ReservationId, u: Symbol)
    ensures SumBy(Others(ActiveOnly(rs), own), AmountOfRow()) == Committed(Others(ActiveOnly(rs), own))
    ensures SumBy(Others(ActiveOnly(rs), own), AmountFor(u)) == CommittedFor(Others(ActiveOnly(rs), own), u)
  {
    var rows := Others(ActiveOnly(rs), own);
    OthersMembers(ActiveOnly(rs), own);
    SumEq(rows, AmountOfRow(), CommittedOf());
    SumEq(rows, AmountFor(u), CommittedIn(u));
  }

  lemma {:induction false} ActiveOnlyAppend(rs: seq<WheelReservation>, r: WheelReservation)
    requires r.Counts()
    ensures ActiveOnly(rs + [r]) == ActiveOnly(rs) + [r]
  {
    if rs == [] {
      assert [r][1..] == [];
    } else {
      assert (rs + [r])[1..] == rs[1..] + [r];
      ActiveOnlyAppend(rs[1..], r);
    }
  }

  lemma {:induction false} OthersDropLast(rs: seq<WheelReservation>, r: WheelReservation)
    requires forall x <- rs :: x.id != r.id
    ensures Others(rs + [r], r.id) == rs
  {
    if rs == [] {
      assert [r][1..] == [];
    } else {
      assert (rs + [r])[1..] == rs[1..] + [r];
      OthersDropLast(rs[1..], r);
    }
  }
}
