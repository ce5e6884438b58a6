/** `sync_proposal_reservations` (backend/opaca/execution/reservations.py): the only place
    where reserved capacity shrinks or is released. */
module Sync {
  import opened Domain
  import opened Money
  import opened Records
  import opened Results
  import opened States
  import opened Sums
  import opened Tables

  /** The symbols that `sell_remaining` has an entry for. */
  predicate SellTracked(t: Tables, pid: string, s: Symbol) {
    || (exists o <- t.orders :: o.proposalId == pid && o.side.Sell? && o.symbol == s)
    || (exists l <- LegsOf(t, pid) :: l.side.Sell? && l.symbol == s && !Executed(t.orders, pid, l.clientOrderId))
  }

  predicate TerminalOrder(t: Tables, pid: string, id: OrderId) {
    exists o <- t.orders :: o.proposalId == pid && o.id == id && o.state.IsTerminal()
  }

  function Released(r: Reservation): Reservation {
    r.(active := false)
  }

  /** Resized to what is left, or released when nothing is. */
  function ResizedSell(r: Reservation, left: real): Reservation {
    if left <= 0.0 then Released(r) else r.(quantity := Some(left), amount := None)
  }

  function ResizedCash(r: Reservation, left: real): Reservation {
    if left <= 0.0 then Released(r) else r.(quantity := None, amount := Some(left))
  }

  /** What one sync makes of one row. */
  function Adjusted(t: Tables, pid: string, r: Reservation): Reservation {
    if !r.active || r.proposalId != pid then r
    else
      match r.kind
      case SellQuantity =>
        if r.symbol.Some? && SellTracked(t, pid, r.symbol.value)
        then ResizedSell(r, SellRemaining(t, pid, r.symbol.value)) else r
      case CashDeployment => ResizedCash(r, CashRemaining(t, pid))
      case OrderIdentity =>
        if r.clientOrderId.Some? && TerminalOrder(t, pid, r.clientOrderId.value) then Released(r) else r
  }

  function AdjustedRows(t: Tables, pid: string): (rs: seq<Reservation>)
    ensures |rs| == |t.reservations|
    ensures forall i | 0 <= i < |rs| :: rs[i] == Adjusted(t, pid, t.reservations[i])
  {
    seq(|t.reservations|, i requires 0 <= i < |t.reservations| => Adjusted(t, pid, t.reservations[i]))
  }

  function SyncProposal(t: Tables, pid: string): Tables {
    if !Started(t, pid) || Uncertain(t, pid) then t
    else t.(reservations := AdjustedRows(t, pid))
  }

  // ---- remaining quantities ----

  lemma RemainingNonNegative(t: Tables, pid: string, s: Symbol)
    ensures SellRemaining(t, pid, s) >= 0.0
    ensures CashRemaining(t, pid) >= 0.0
  {
    SumNonNegative(t.orders, OpenSellOf(pid, s));
    SumNonNegative(LegsOf(t, pid), UnsentSellOf(t.orders, pid, s));
    SumNonNegative(t.orders, OpenBuyOf(pid));
    SumNonNegative(LegsOf(t, pid), UnsentBuyOf(t.orders, pid));
  }

  lemma UntrackedSellsNothing(t: Tables, pid: string, s: Symbol)
    requires !SellTracked(t, pid, s)
    ensures SellRemaining(t, pid, s) == 0.0
  {
    SumZero(t.orders, OpenSellOf(pid, s));
    SumZero(LegsOf(t, pid), UnsentSellOf(t.orders, pid, s));
  }

  lemma SellRowIsSum(rs: seq<Reservation>, i: nat, pid: string, s: Symbol)
    requires UniqueActive(rs) && i < |rs| && IsSellRow(rs[i], pid, s)
    ensures SumBy(rs, ActiveSellFor(pid, s)) == QuantityOf(rs[i])
  {
    SumSingle(rs, i, ActiveSellFor(pid, s));
  }

  lemma CashRowIsSum(rs: seq<Reservation>, i: nat, pid: string)
    requires UniqueActive(rs) && i < |rs| && IsCashRow(rs[i], pid)
    ensures SumBy(rs, ActiveCashFor(pid)) == AmountOf(rs[i])
  {
    SumSingle(rs, i, ActiveCashFor(pid));
  }

  lemma NoSellRow(rs: seq<Reservation>, pid: string, s: Symbol)
    requires forall r <- rs :: !IsSellRow(r, pid, s)
    ensures SumBy(rs, ActiveSellFor(pid, s)) == 0.0
  {
    SumZero(rs, ActiveSellFor(pid, s));
  }

  lemma NoCashRow(rs: seq<Reservation>, pid: string)
    requires forall r <- rs :: !IsCashRow(r, pid)
    ensures SumBy(rs, ActiveCashFor(pid)) == 0.0
  {
    SumZero(rs, ActiveCashFor(pid));
  }

  // ---- after a sync the reserved capacity is exact ----

  /** A row keeps its index entry or loses it. */
  lemma AdjustedKey(t: Tables, pid: string, r: Reservation)
    ensures KeyOf(Adjusted(t, pid, r)) == KeyOf(r) || KeyOf(Adjusted(t, pid, r)).Unindexed?
  {
  }

  lemma AdjustedSell(t: Tables, pid: string, s: Symbol, r: Reservation)
    requires SellTracked(t, pid, s) && IsSellRow(r, pid, s)
    ensures Adjusted(t, pid, r) == ResizedSell(r, SellRemaining(t, pid, s))
  {
  }

  lemma AdjustedCash(t: Tables, pid: string, r: Reservation)
    requires IsCashRow(r, pid)
    ensures Adjusted(t, pid, r) == ResizedCash(r, CashRemaining(t, pid))
  {
  }

  lemma AdjustedKeys(t: Tables, pid: string)
    ensures forall i | 0 <= i < |t.reservations| ::
              var key := KeyOf(AdjustedRows(t, pid)[i]);
              key == KeyOf(t.reservations[i]) || key.Unindexed?
  {
    hide Adjusted;
    forall i | 0 <= i < |t.reservations|
      ensures var key := KeyOf(AdjustedRows(t, pid)[i]);
              key == KeyOf(t.reservations[i]) || key.Unindexed?
    {
      AdjustedKey(t, pid, t.reservations[i]);
    }
  }

  lemma FewerKeysStayUnique(before: seq<Reservation>, after: seq<Reservation>)
    requires UniqueActive(before) && |before| == |after|
    requires forall i | 0 <= i < |after| :: KeyOf(after[i]) == KeyOf(before[i]) || KeyOf(after[i]).Unindexed?
    ensures UniqueActive(after)
  {
  }

  lemma SyncKeepsUnique(t: Tables, pid: string)
    requires UniqueActive(t.reservations)
    ensures UniqueActive(AdjustedRows(t, pid))
  {
    AdjustedKeys(t, pid);
    FewerKeysStayUnique(t.reservations, AdjustedRows(t, pid));
  }

  lemma ResizedRowSum(before: seq<Reservation>, after: seq<Reservation>, i: nat, pid: string, s: Symbol, left: real)
    requires UniqueActive(before) && |before| == |after|
    requires forall k | 0 <= k < |after| :: KeyOf(after[k]) == KeyOf(before[k]) || KeyOf(after[k]).Unindexed?
    requires left >= 0.0 && i < |before| && IsSellRow(before[i], pid, s) && after[i] == ResizedSell(before[i], left)
    ensures SumBy(after, ActiveSellFor(pid, s)) == left
  {
    FewerKeysStayUnique(before, after);
    if left > 0.0 {
      SellRowIsSum(after, i, pid, s);
    } else {
      forall r <- after ensures !IsSellRow(r, pid, s) {
        var j :| 0 <= j < |after| && after[j] == r;
      }
      NoSellRow(after, pid, s);
    }
  }

  lemma ResizedCashSum(before: seq<Reservation>, after: seq<Reservation>, i: nat, pid: string, left: real)
    requires UniqueActive(before) && |before| == |after|
    requires forall k | 0 <= k < |after| :: KeyOf(after[k]) == KeyOf(before[k]) || KeyOf(after[k]).Unindexed?
    requires left >= 0.0 && i < |before| && IsCashRow(before[i], pid) && after[i] == ResizedCash(before[i], left)
    ensures SumBy(after, ActiveCashFor(pid)) == left
  {
    FewerKeysStayUnique(before, after);
    if left > 0.0 {
      CashRowIsSum(after, i, pid);
    } else {
      forall r <- after ensures !IsCashRow(r, pid) {
        var j :| 0 <= j < |after| && after[j] == r;
      }
      NoCashRow(after, pid);
    }
  }

  predicate HasSellRow(rs: seq<Reservation>, pid: string, s: Symbol) {
    exists r <- rs :: IsSellRow(r, pid, s)
  }

  predicate HasCashRow(rs: seq<Reservation>, pid: string) {
    exists r <- rs :: IsCashRow(r, pid)
  }

  /** A sync that is not held back makes a SELL reservation equal to what its proposal may
      still sell, exactly if there is an active row to resize or nothing left to sell. */
  lemma SyncMakesSellExact(t: Tables, pid: string, s: Symbol)
    requires UniqueActive(t.reservations) && Started(t, pid) && !Uncertain(t, pid)
    requires SellTracked(t, pid, s)
    ensures ReservedSell(SyncProposal(t, pid), pid, s) == SellRemaining(t, pid, s)
            <==> HasSellRow(t.reservations, pid, s) || SellRemaining(t, pid, s) == 0.0
  {
    hide Adjusted, SellRemaining, SellTracked;
    var before, after := t.reservations, AdjustedRows(t, pid);
    RemainingNonNegative(t, pid, s);
    AdjustedKeys(t, pid);
    if i :| 0 <= i < |before| && IsSellRow(before[i], pid, s) {
      AdjustedSell(t, pid, s, before[i]);
      ResizedRowSum(before, after, i, pid, s, SellRemaining(t, pid, s));
    } else {
      forall r <- after ensures !IsSellRow(r, pid, s) {
        var j :| 0 <= j < |after| && after[j] == r;
      }
      NoSellRow(after, pid, s);
    }
  }

  /** Likewise for cash. */
  lemma SyncMakesCashExact(t: Tables, pid: string)
    requires UniqueActive(t.reservations) && Started(t, pid) && !Uncertain(t, pid)
    ensures ReservedCash(SyncProposal(t, pid), pid) == CashRemaining(t, pid)
            <==> HasCashRow(t.reservations, pid) || CashRemaining(t, pid) == 0.0
  {
    hide Adjusted, CashRemaining;
    var before, after := t.reservations, AdjustedRows(t, pid);
    RemainingNonNegative(t, pid, "");
    AdjustedKeys(t, pid);
    if i :| 0 <= i < |before| && IsCashRow(before[i], pid) {
      AdjustedCash(t, pid, before[i]);
      ResizedCashSum(before, after, i, pid, CashRemaining(t, pid));
    } else {
      forall r <- after ensures !IsCashRow(r, pid) {
        var j :| 0 <= j < |after| && after[j] == r;
      }
      NoCashRow(after, pid);
    }
  }

  lemma AdjustedOther(t: Tables, pid: string, r: Reservation)
    requires r.proposalId != pid
    ensures Adjusted(t, pid, r) == r
  {
  }

  lemma AdjustedOwn(t: Tables, pid: string, r: Reservation, other: string, s: Symbol)
    requires other != pid
    ensures ActiveSellFor(other, s)(Adjusted(t, pid, r)) == ActiveSellFor(other, s)(r)
    ensures ActiveCashFor(other)(Adjusted(t, pid, r)) == ActiveCashFor(other)(r)
  {
    if r.proposalId != pid {
      AdjustedOther(t, pid, r);
    } else {
      AdjustedKey(t, pid, r);
      hide Adjusted;
    }
  }

  /** Other proposals keep every row. */
  lemma SyncIsLocal(t: Tables, pid: string, other: string, s: Symbol)
    requires other != pid
    ensures ReservedSell(SyncProposal(t, pid), other, s) == ReservedSell(t, other, s)
    ensures ReservedCash(SyncProposal(t, pid), other) == ReservedCash(t, other)
  {
    hide Adjusted, ActiveSellFor, ActiveCashFor;
    if Started(t, pid) && !Uncertain(t, pid) {
      forall i | 0 <= i < |t.reservations|
        ensures ActiveSellFor(other, s)(AdjustedRows(t, pid)[i]) == ActiveSellFor(other, s)(t.reservations[i])
        ensures ActiveCashFor(other)(AdjustedRows(t, pid)[i]) == ActiveCashFor(other)(t.reservations[i])
      {
        AdjustedOwn(t, pid, t.reservations[i], other, s);
      }
      SumZipEq(AdjustedRows(t, pid), t.reservations, ActiveSellFor(other, s));
      SumZipEq(AdjustedRows(t, pid), t.reservations, ActiveCashFor(other));
    }
  }

  /** A sync never creates or revives a row. */
  lemma SyncOnlyShrinks(t: Tables, pid: string, i: nat)
    requires i < |t.reservations|
    ensures |SyncProposal(t, pid).reservations| == |t.reservations|
    ensures SyncProposal(t, pid).reservations[i].active ==> t.reservations[i].active
    ensures Uncertain(t, pid) ==> SyncProposal(t, pid) == t
  {
  }
}
