/** The composite authority decision (backend/opaca/policy/decision.py and
    `decide_authority` of backend/opaca/authority/engine.py). */
module Decision {
  import opened Authority
  import opened Domain
  import opened FillSafety
  import opened Guard
  import opened GuardLoops
  import opened PartialFill
  import opened Results
  import opened Tables

  /** Guard, then fill safety, then the delegated-authority dimensions. */
  ghost function DecisionOf(p: Proposal, c: PolicyContext): AuthorityResult {
    if !BasePasses(p, c) then Reject
    else
      BaseDerivable(p, c);
      if |p.legs| > MAX_ENUMERATED_LEGS || !EverySubsetSafe(p, c) then Reject
      else if WithinAuthority(p, c.authority, c.history, c.now) then Auto
      else NeedsApproval
  }

  lemma PassesMeansNoViolation(p: Proposal, c: PolicyContext)
    ensures BasePasses(p, c) <==> Evaluate(p, c, HARD_CHECKS) == {}
  {
  }

  /** `decide` */
  method Decide(p: Proposal, c: PolicyContext) returns (r: AuthorityResult)
    ensures r == DecisionOf(p, c)
  {
    hide BasePasses, EverySubsetSafe, CoverageDerivable, WithinAuthority;
    var violated := EvaluateProposal(p, c, HARD_CHECKS);
    PassesMeansNoViolation(p, c);
    if violated != {} {
      return Reject;
    }
    BaseDerivable(p, c);
    var assessment := AssessPartialFillSafety(p, c);
    if assessment.Err? || !assessment.value.safe {
      return Reject;
    }
    var delegated := CheckDimensions(p, c.authority, c.history, c.now);
    if delegated {
      return Auto;
    }
    return NeedsApproval;
  }

  /** The decision needs no enumeration of fills: a proposal of at most twelve legs that
      passes the guard is judged by the linear test. */
  lemma DecisionIsLinear(p: Proposal, c: PolicyContext)
    ensures BasePasses(p, c) ==> Pool(c).Ok?
    ensures DecisionOf(p, c).Reject? <==>
              !BasePasses(p, c) || |p.legs| > MAX_ENUMERATED_LEGS || !LinearTest(p, c)
    ensures DecisionOf(p, c).Auto? ==> WithinAuthority(p, c.authority, c.history, c.now)
    ensures DecisionOf(p, c).NeedsApproval? ==> !WithinAuthority(p, c.authority, c.history, c.now)
  {
    hide BasePasses, EverySubsetSafe, WithinAuthority, LinearTest, CoverageDerivable;
    if BasePasses(p, c) {
      ExhaustiveIsLinear(p, c);
    }
  }
}
