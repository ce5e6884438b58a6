/** Partial-fill safety (backend/opaca/policy/partial_fill.py): every non-empty subset of a
    proposal's legs is run through the hard controls, and with sells the obligations must be
    covered by the filled sells alone and by none at all. */
module PartialFill {
  import opened Domain
  import opened Guard
  import opened GuardLoops
  import opened Liquidity
  import opened Money
  import opened Results
  import opened Subsets
  import opened Sums
  import opened Unresolved

  const MAX_ENUMERATED_LEGS := 12

  const PARTIAL_FILL_CHECKS := {Check01, Check02, Check04, Check06, Check11, Check16}

  datatype Finding =
    | TooManyLegs
    | CheckViolated(subset: seq<Leg>, failing: set<CheckId>)
    | SellSubsetUncovered(subset: seq<Leg>)
    | ZeroFillUncovered

  datatype Assessment = Assessment(
    safe: bool, subsetsEvaluated: nat, violations: seq<Finding>, zeroFillCovers: Option<bool>)

  function SellLegs(legs: seq<Leg>): seq<Leg> {
    if legs == [] then [] else (if legs[0].side.Sell? then [legs[0]] else []) + SellLegs(legs[1..])
  }

  /** Amount of `_event_by_leg[index]`: the dictionary keeps the last sell leg of an index. */
  function EventAmountAt(legs: seq<Leg>, index: int): (a: real)
    ensures a >= 0.0
  {
    if legs == [] then 0.0
    else
      var last := legs[|legs| - 1];
      if last.side.Sell? && last.legIndex == index then Notional(last)
      else EventAmountAt(legs[..|legs| - 1], index)
  }

  /** Proceeds of a filled sell that settle by a due date. */
  function ProceedsBy(p: Proposal, settlement: int, due: int): Leg -> real {
    (l: Leg) => if settlement <= due then EventAmountAt(p.legs, l.legIndex) else 0.0
  }

  predicate CoverageDerivable(p: Proposal, c: PolicyContext) {
    LiquidityOf(c).Ok? && Calendar.SettlementDate(c.calendar, DateOf(c.now)).Ok?
  }

  function AvailableWithFills(p: Proposal, c: PolicyContext, fills: seq<Leg>, due: int): real
    requires CoverageDerivable(p, c)
  {
    var l := LiquidityOf(c).value;
    var settlement := Calendar.SettlementDate(c.calendar, DateOf(c.now)).value;
    l.settledCash - p.TotalBuyNotional() + l.ProceedsSettlingBy(due)
    + SumBy(fills, ProceedsBy(p, settlement, due)) - l.ObligationsDueBy(due)
  }

  /** Every obligation is covered when only these sells fill. */
  predicate Covers(p: Proposal, c: PolicyContext, fills: seq<Leg>)
    requires CoverageDerivable(p, c)
  {
    forall o <- LiquidityOf(c).value.obligations :: AvailableWithFills(p, c, fills, o.dueDate) >= 0.0
  }

  /** The generator sum over the filled sells. */
  method SumProceeds(p: Proposal, settlement: int, due: int, fills: seq<Leg>) returns (proceeds: real)
    ensures proceeds == SumBy(fills, ProceedsBy(p, settlement, due))
  {
    proceeds := 0.0;
    for k := 0 to |fills|
      invariant proceeds == SumBy(fills[..k], ProceedsBy(p, settlement, due))
    {
      assert fills[..k + 1] == fills[..k] + [fills[k]];
      SumSnoc<Leg>(fills[..k], fills[k], ProceedsBy(p, settlement, due));
      if settlement <= due {
        proceeds := proceeds + EventAmountAt(p.legs, fills[k].legIndex);
      }
    }
    assert fills[..|fills|] == fills;
  }

  /** `covers_with_subset` */
  method CoversWithSubset(p: Proposal, c: PolicyContext, fills: seq<Leg>) returns (covered: bool)
    requires CoverageDerivable(p, c)
    ensures covered == Covers(p, c, fills)
  {
    hide LiquidityOf, EventAmountAt, Calendar.SettlementDate, SumBy;
    var l := LiquidityOf(c).value;
    var settlement := Calendar.SettlementDate(c.calendar, DateOf(c.now)).value;
    for i := 0 to |l.obligations|
      invariant forall o <- l.obligations[..i] :: AvailableWithFills(p, c, fills, o.dueDate) >= 0.0
    {
      var due := l.obligations[i].dueDate;
      assert l.obligations[..i + 1] == l.obligations[..i] + [l.obligations[i]];
      var proceeds := SumProceeds(p, settlement, due, fills);
      if l.settledCash - p.TotalBuyNotional() + l.ProceedsSettlingBy(due) + proceeds - l.ObligationsDueBy(due) < 0.0 {
        assert AvailableWithFills(p, c, fills, l.obligations[i].dueDate) < 0.0;
        return false;
      }
    }
    assert l.obligations[..|l.obligations|] == l.obligations;
    return true;
  }

  function FillOf(p: Proposal, subset: seq<Leg>): Proposal {
    Proposal(p.proposalId, subset)
  }

  predicate SubsetSafe(p: Proposal, c: PolicyContext, subset: seq<Leg>)
    requires p.HasSells() ==> CoverageDerivable(p, c)
  {
    && Evaluate(FillOf(p, subset), c, PARTIAL_FILL_CHECKS) == {}
    && (p.HasSells() ==> Covers(p, c, SellLegs(subset)))
  }

  ghost predicate EverySubsetSafe(p: Proposal, c: PolicyContext)
    requires p.HasSells() ==> CoverageDerivable(p, c)
  {
    && (forall s: seq<Leg> | s != [] && IsSubsequence(s, p.legs) :: SubsetSafe(p, c, s))
    && (p.HasSells() ==> Covers(p, c, []))
  }

  /** The loop over the subsets: both questions are put to each of them. */
  method ExamineSubsets(p: Proposal, c: PolicyContext, subsets: seq<seq<Leg>>) returns (violations: seq<Finding>)
    requires p.HasSells() ==> CoverageDerivable(p, c)
    ensures violations == [] <==> forall k | 0 <= k < |subsets| :: SubsetSafe(p, c, subsets[k])
  {
    violations := [];
    for i := 0 to |subsets|
      invariant violations == [] <==> forall k | 0 <= k < i :: SubsetSafe(p, c, subsets[k])
    {
      var failing := EvaluateProposal(FillOf(p, subsets[i]), c, PARTIAL_FILL_CHECKS);
      if failing != {} {
        violations := violations + [CheckViolated(subsets[i], failing)];
      }
      if p.HasSells() {
        var covered := CoversWithSubset(p, c, SellLegs(subsets[i]));
        if !covered {
          violations := violations + [SellSubsetUncovered(SellLegs(subsets[i]))];
        }
      }
    }
  }

  /** `assess_partial_fill_safety`. Building the coverage arithmetic raises when liquidity or
      the settlement date cannot be derived. */
  method AssessPartialFillSafety(p: Proposal, c: PolicyContext) returns (r: Result<Assessment>)
    ensures |p.legs| > MAX_ENUMERATED_LEGS ==> r.Ok? && !r.value.safe && r.value.subsetsEvaluated == 0
    ensures |p.legs| <= MAX_ENUMERATED_LEGS ==> (r.Ok? <==> (p.HasSells() ==> CoverageDerivable(p, c)))
    ensures |p.legs| <= MAX_ENUMERATED_LEGS && r.Ok? ==>
              && r.value.subsetsEvaluated == PowerOfTwo(|p.legs|) - 1
              && (r.value.safe <==> EverySubsetSafe(p, c))
              && r.value.zeroFillCovers == if p.HasSells() then Some(Covers(p, c, [])) else None
    ensures r.Ok? ==> (r.value.safe <==> r.value.violations == [])
  {
    if |p.legs| > MAX_ENUMERATED_LEGS {
      return Ok(Assessment(false, 0, [TooManyLegs], None));
    }
    var hasSells := p.HasSells();
    if hasSells && !CoverageDerivable(p, c) {
      return Err;
    }
    var zeroFill: Option<bool> := None;
    if hasSells {
      var covered := CoversWithSubset(p, c, []);
      zeroFill := Some(covered);
    }
    var subsets := AllSubsets(p.legs);
    var violations := ExamineSubsets(p, c, subsets);
    if zeroFill == Some(false) {
      violations := violations + [ZeroFillUncovered];
    }
    SubsetCount(p.legs);
    AllSubsetsSafe(p, c, subsets);
    return Ok(Assessment(violations == [], |subsets|, violations, zeroFill));
  }

  lemma AllSubsetsSafe(p: Proposal, c: PolicyContext, subsets: seq<seq<Leg>>)
    requires p.HasSells() ==> CoverageDerivable(p, c)
    requires subsets == SubsetsUpTo(p.legs, |p.legs|)
    ensures (forall k | 0 <= k < |subsets| :: SubsetSafe(p, c, subsets[k]))
       <==> forall s: seq<Leg> | s != [] && IsSubsequence(s, p.legs) :: SubsetSafe(p, c, s)
  {
    forall s: seq<Leg> ensures s in subsets <==> s != [] && IsSubsequence(s, p.legs) {
      SubsetMembers<Leg>(p.legs, s);
    }
    forall k | 0 <= k < |subsets| ensures subsets[k] in subsets {}
  }
}
