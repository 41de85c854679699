/** Distribution accruals and their settlements for one side, and the ledger postings they turn into.
    Amounts are cents. */
module Distributions {
  import opened Common
  import opened Cents
  import opened Settlements
  import opened Revisions

  datatype Holding = Holding(lot: Lot, symbol: string, side: Side, quantity: real, entryAt: int, exitAt: Option<int>)

  /** A reporting window with the opening balances of this action and side. */
  datatype Snapshot = Snapshot(
    window: Window, receivable: real, payable: real, refund: real, repayment: real,
    target: Option<real>, settled: real)

  datatype Reason =
    | MissingRate | MissingCurrency | UnscopedSettlement | ConflictingSettlement
    | ConflictingRevision | MissingSettlementAmount | MissingSettlementCurrency | CurrencyMismatch

  /** `Refused` is the ValueError of the lot allocation. */
  datatype DistributionResult =
    | Unknown(reason: Reason)
    | Refused
    | Known(target: int, settled: real, cashDelta: real, income: int,
            receivable: real, payable: real, refund: real, repayment: real, payments: set<string>)

  const NOTHING := Known(0, 0.0, 0.0, 0, 0.0, 0.0, 0.0, 0.0, {})

  predicate Qualified(h: Holding, action: Action) {
    && h.symbol == action.symbol && h.quantity != 0.0 && h.entryAt < action.exAt
    && (h.exitAt.None? || h.exitAt.value >= action.exAt)
  }

  predicate WellFormed(holdings: seq<Holding>, action: Action) {
    && (forall i :: 0 <= i < |holdings| ==> holdings[i].quantity >= 0.0)
    && (action.perShare.Some? ==> action.perShare.value >= 0.0)
  }

  function QualifiedFor(holdings: seq<Holding>, action: Action, side: Side): (r: seq<Holding>)
    ensures forall i :: 0 <= i < |r| ==> r[i] in holdings && r[i].side == side && Qualified(r[i], action)
  {
    if holdings == [] then []
    else
      var front, last := QualifiedFor(holdings[..|holdings| - 1], action, side), holdings[|holdings| - 1];
      assert holdings == holdings[..|holdings| - 1] + [last];
      if last.side == side && Qualified(last, action) then front + [last] else front
  }

  function Quantity(holdings: seq<Holding>): real {
    if holdings == [] then 0.0 else Quantity(holdings[..|holdings| - 1]) + holdings[|holdings| - 1].quantity
  }

  function Worth(h: Holding, perShare: real): real { h.quantity * perShare }

  /** Exact amounts keyed by lot; a repeated lot id keeps the later holding only. */
  function ExactByLot(holdings: seq<Holding>, perShare: real): (m: Amounts)
    ensures forall lot :: lot in m <==> exists i :: 0 <= i < |holdings| && holdings[i].lot == lot
  {
    if holdings == [] then map[]
    else
      var last := holdings[|holdings| - 1];
      var front := ExactByLot(holdings[..|holdings| - 1], perShare);
      front[last.lot := Worth(last, perShare)]
  }

  /** Lots in order of first appearance. */
  function LotOrder(holdings: seq<Holding>): seq<Lot> {
    if holdings == [] then []
    else
      var front, last := LotOrder(holdings[..|holdings| - 1]), holdings[|holdings| - 1];
      if last.lot in front then front else front + [last.lot]
  }

  lemma {:induction false} LotOrderLists(holdings: seq<Holding>, perShare: real)
    ensures Lists(LotOrder(holdings), ExactByLot(holdings, perShare).Keys)
  {
    if holdings == [] {
    } else {
      LotOrderLists(holdings[..|holdings| - 1], perShare);
    }
  }

  predicate AllocationRefused(byLot: Amounts, order: seq<Lot>, target: int)
    requires forall i :: 0 <= i < |order| ==> order[i] in byLot
  {
    Kept(byLot, order) != [] && Cents.Refused(Positive(byLot), Kept(byLot, order), target)
  }

  // --- one side of one action ---

  predicate Inherited(snapshot: Option<Snapshot>) {
    snapshot.Some?
    && (snapshot.value.receivable != 0.0 || snapshot.value.payable != 0.0
        || snapshot.value.refund != 0.0 || snapshot.value.repayment != 0.0)
  }

  predicate InReportingWindow(action: Action, snapshot: Option<Snapshot>) {
    snapshot.None? || snapshot.value.window.Contains(action.exAt)
  }

  predicate Future(action: Action, snapshot: Option<Snapshot>) {
    snapshot.Some? && action.exAt > snapshot.value.window.end
  }

  /** The branches that set the target to zero whatever the holdings are worth. */
  predicate ZeroTarget(action: Action, snapshot: Option<Snapshot>) {
    Future(action, snapshot) || action.cancelled || (!InReportingWindow(action, snapshot) && Inherited(snapshot))
  }

  function Relevant(settlements: seq<Settlement>, action: Action, side: Side): seq<Settlement> {
    if settlements == [] then []
    else
      var front, last := Relevant(settlements[..|settlements| - 1], action, side), settlements[|settlements| - 1];
      if last.key == action.actionId && (last.side == Some(side) || last.side.None?) then front + [last] else front
  }

  /** A settlement without a side while the other side qualifies too. */
  predicate Ambiguous(relevant: seq<Settlement>, holdings: seq<Holding>, action: Action, side: Side) {
    && (exists i :: 0 <= i < |relevant| && relevant[i].side.None?)
    && exists i :: 0 <= i < |holdings| && holdings[i].side != side && Qualified(holdings[i], action)
  }

  function Windowed(relevant: seq<Settlement>, snapshot: Option<Snapshot>): seq<Settlement> {
    if snapshot.Some? then InWindow(relevant, snapshot.value.window) else relevant
  }

  function SettlementProblem(relevant: seq<Settlement>, currency: Option<string>): Option<Reason> {
    if !Consistent(relevant) then Some(ConflictingSettlement)
    else if exists i :: 0 <= i < |relevant| && relevant[i].amount.None? then Some(MissingSettlementAmount)
    else if exists i :: 0 <= i < |relevant| && relevant[i].currency.None? then Some(MissingSettlementCurrency)
    else if exists i :: 0 <= i < |relevant| && relevant[i].currency != currency then Some(CurrencyMismatch)
    else None
  }

  /** The opening balance of the side, signed: what is still owed on it. */
  function OpeningBalance(side: Side, snapshot: Option<Snapshot>): real {
    match snapshot
    case None => 0.0
    case Some(s) => if side.LongSide? then s.receivable - s.repayment else s.payable - s.refund
  }

  function PriorSettled(snapshot: Option<Snapshot>): real {
    if snapshot.Some? then snapshot.value.settled else 0.0
  }

  /** The new target less the opening target, where the opening snapshot has one for an older action. */
  function TargetDelta(target: int, action: Action, snapshot: Option<Snapshot>): real {
    if snapshot.Some? && snapshot.value.target.Some? && !InReportingWindow(action, snapshot)
    then target as real - snapshot.value.target.value else target as real
  }

  function KnownResult(target: int, action: Action, side: Side, snapshot: Option<Snapshot>,
                       counted: seq<Settlement>): DistributionResult
  {
    var net := Net(counted);
    var balance := OpeningBalance(side, snapshot) + TargetDelta(target, action, snapshot) - net;
    var income := if InReportingWindow(action, snapshot) then target else 0;
    if side.LongSide? then
      Known(target, PriorSettled(snapshot) + net, net, income, Max0(balance), 0.0, 0.0, Max0(-balance),
            PaymentIds(counted))
    else
      Known(target, PriorSettled(snapshot) + net, -net, -income, 0.0, Max0(balance), Max0(-balance), 0.0,
            PaymentIds(counted))
  }

  function PaymentIds(counted: seq<Settlement>): set<string> {
    set s | s in counted :: s.paymentId
  }

  /** The target of the action, or why it is unknown. */
  function TargetOf(holdings: seq<Holding>, action: Action, side: Side,
                    snapshot: Option<Snapshot>): (Option<Reason>, int)
  {
    if ZeroTarget(action, snapshot) then (None, 0)
    else if action.perShare.None? then (Some(MissingRate), 0)
    else if action.currency.None? || action.currency.value == "" then (Some(MissingCurrency), 0)
    else (None, RoundCents(ExactTarget(holdings, action, side)))
  }

  function LotsOf(holdings: seq<Holding>, action: Action, side: Side): Amounts {
    if action.perShare.Some? then ExactByLot(QualifiedFor(holdings, action, side), action.perShare.value) else map[]
  }

  /** The mapping's keys in insertion order. */
  function OrderOf(holdings: seq<Holding>, action: Action, side: Side): (r: seq<Lot>)
    ensures Lists(r, LotsOf(holdings, action, side).Keys)
  {
    if action.perShare.Some? then
      LotOrderLists(QualifiedFor(holdings, action, side), action.perShare.value);
      LotOrder(QualifiedFor(holdings, action, side))
    else []
  }

  function ExactTarget(holdings: seq<Holding>, action: Action, side: Side): real {
    ListedInKeys(OrderOf(holdings, action, side), LotsOf(holdings, action, side));
    ExactSum(LotsOf(holdings, action, side), OrderOf(holdings, action, side))
  }

  lemma ListedInKeys(order: seq<Lot>, byLot: Amounts)
    requires Lists(order, byLot.Keys)
    ensures forall i :: 0 <= i < |order| ==> order[i] in byLot
  {
    forall i | 0 <= i < |order| ensures order[i] in byLot { assert order[i] in order; }
  }

  predicate CannotAllocate(holdings: seq<Holding>, action: Action, side: Side, target: int) {
    ListedInKeys(OrderOf(holdings, action, side), LotsOf(holdings, action, side));
    AllocationRefused(LotsOf(holdings, action, side), OrderOf(holdings, action, side), target)
  }

  function Distribution(holdings: seq<Holding>, action: Action, side: Side,
                        settlements: seq<Settlement>, snapshot: Option<Snapshot>): DistributionResult
  {
    if Quantity(QualifiedFor(holdings, action, side)) == 0.0 && !Inherited(snapshot) && !Future(action, snapshot) then
      NOTHING
    else
      var (problem, target) := TargetOf(holdings, action, side, snapshot);
      if problem.Some? then Unknown(problem.value) else Settled(holdings, action, side, settlements, snapshot, target)
  }

  /** The result once the target is known. */
  function Settled(holdings: seq<Holding>, action: Action, side: Side,
                   settlements: seq<Settlement>, snapshot: Option<Snapshot>, target: int): DistributionResult
  {
    var relevant := Relevant(settlements, action, side);
    if Ambiguous(relevant, holdings, action, side) then Unknown(UnscopedSettlement)
    else
      var counted := Windowed(relevant, snapshot);
      if SettlementProblem(counted, action.currency).Some?
      then Unknown(SettlementProblem(counted, action.currency).value)
      else if CannotAllocate(holdings, action, side, target) then Refused
      else KnownResult(target, action, side, snapshot, counted)
  }

  // --- when the allocation is refused ---

  lemma {:induction false} AmountsNonNegative(holdings: seq<Holding>, perShare: real)
    requires perShare >= 0.0 && forall i :: 0 <= i < |holdings| ==> holdings[i].quantity >= 0.0
    ensures forall lot :: lot in ExactByLot(holdings, perShare) ==> ExactByLot(holdings, perShare)[lot] >= 0.0
  {
    if holdings == [] {
    } else {
      AmountsNonNegative(holdings[..|holdings| - 1], perShare);
      ProductNonNegative(holdings[|holdings| - 1].quantity, perShare);
    }
  }

  lemma ProductNonNegative(a: real, b: real)
    requires a >= 0.0 && b >= 0.0
    ensures a * b >= 0.0
  {}

  lemma LotsNonNegative(holdings: seq<Holding>, action: Action, side: Side)
    requires WellFormed(holdings, action)
    ensures forall lot :: lot in LotsOf(holdings, action, side) ==> LotsOf(holdings, action, side)[lot] >= 0.0
  {
    if action.perShare.Some? {
      forall i | 0 <= i < |QualifiedFor(holdings, action, side)|
        ensures QualifiedFor(holdings, action, side)[i].quantity >= 0.0 {
        var h := QualifiedFor(holdings, action, side)[i];
        assert h in holdings;
      }
      AmountsNonNegative(QualifiedFor(holdings, action, side), action.perShare.value);
    }
  }

  lemma KeptListsLots(byLot: Amounts, order: seq<Lot>)
    requires Lists(order, byLot.Keys)
    ensures forall i :: 0 <= i < |order| ==> order[i] in byLot
    ensures Lists(Kept(byLot, order), Positive(byLot).Keys)
  {
    ListedInKeys(order, byLot);
    KeptMembers(byLot, order);
  }

  /** In the branch that rounds the exact entitlement the allocation never fails. */
  lemma RoundedEntitlementAllocates(holdings: seq<Holding>, action: Action, side: Side)
    requires WellFormed(holdings, action)
    ensures !CannotAllocate(holdings, action, side, RoundCents(ExactTarget(holdings, action, side)))
  {
    var byLot, order := LotsOf(holdings, action, side), OrderOf(holdings, action, side);
    LotsNonNegative(holdings, action, side);
    KeptListsLots(byLot, order);
    KeptSum(byLot, order);
    RoundedSumIsNeverRefused(Positive(byLot), Kept(byLot, order));
  }

  /** With a zero target it fails exactly when some lot's exact amount reaches a cent: future, cancelled and
      inherited actions raise for every holder of at least a cent. */
  lemma ZeroTargetFailsExactly(holdings: seq<Holding>, action: Action, side: Side)
    requires WellFormed(holdings, action)
    ensures CannotAllocate(holdings, action, side, 0) <==>
      exists lot :: lot in LotsOf(holdings, action, side) && LotsOf(holdings, action, side)[lot] >= 1.0
  {
    var byLot, order := LotsOf(holdings, action, side), OrderOf(holdings, action, side);
    KeptListsLots(byLot, order);
    ZeroTargetRefused(Positive(byLot), Kept(byLot, order));
    if exists lot :: lot in byLot && byLot[lot] >= 1.0 {
      var lot :| lot in byLot && byLot[lot] >= 1.0;
      assert lot in Positive(byLot);
    }
    if exists lot :: lot in Positive(byLot) && Positive(byLot)[lot] >= 1.0 {
      var lot :| lot in Positive(byLot) && Positive(byLot)[lot] >= 1.0;
      assert lot in byLot && byLot[lot] >= 1.0;
    }
  }

  // --- settlement is never second income ---

  /** Equity the ledger shows for a result: cash settled plus what is owed to us minus what we owe. */
  function Equity(r: DistributionResult, side: Side): real
    requires r.Known?
  {
    (if side.LongSide? then r.settled else -r.settled) + r.receivable + r.refund - r.payable - r.repayment
  }

  function SignedTarget(r: DistributionResult, side: Side): real
    requires r.Known?
  {
    if side.LongSide? then r.target as real else -(r.target as real)
  }

  lemma KnownEquity(target: int, action: Action, side: Side, snapshot: Option<Snapshot>, counted: seq<Settlement>)
    ensures var r := KnownResult(target, action, side, snapshot, counted);
      var owed := PriorSettled(snapshot) + OpeningBalance(side, snapshot) + TargetDelta(target, action, snapshot);
      Equity(r, side) == (if side.LongSide? then owed else -owed)
  {}

  /** A known result is nothing at all or the full calculation. */
  lemma KnownShape(holdings: seq<Holding>, action: Action, side: Side, settlements: seq<Settlement>,
                   snapshot: Option<Snapshot>)
    requires Distribution(holdings, action, side, settlements, snapshot).Known?
    ensures Distribution(holdings, action, side, settlements, snapshot) ==
      if Quantity(QualifiedFor(holdings, action, side)) == 0.0 && !Inherited(snapshot) && !Future(action, snapshot)
      then NOTHING
      else KnownResult(TargetOf(holdings, action, side, snapshot).1, action, side, snapshot,
                       Windowed(Relevant(settlements, action, side), snapshot))
  {
    SettledShape(holdings, action, side, settlements, snapshot, TargetOf(holdings, action, side, snapshot).1);
  }

  lemma SettledShape(holdings: seq<Holding>, action: Action, side: Side,
                     settlements: seq<Settlement>, snapshot: Option<Snapshot>, target: int)
    ensures var r := Settled(holdings, action, side, settlements, snapshot, target);
      r.Known? ==> r == KnownResult(target, action, side, snapshot,
                                    Windowed(Relevant(settlements, action, side), snapshot))
  {}

  /** Without a window, whatever has been paid or refunded, the result's equity is the signed target. */
  lemma EquityIsTarget(holdings: seq<Holding>, action: Action, side: Side, settlements: seq<Settlement>)
    ensures var r := Distribution(holdings, action, side, settlements, None);
      r.Known? ==> Equity(r, side) == SignedTarget(r, side)
  {
    if Distribution(holdings, action, side, settlements, None).Known? {
      KnownShape(holdings, action, side, settlements, None);
      KnownEquity(TargetOf(holdings, action, side, None).1, action, side, None, Relevant(settlements, action, side));
    }
  }

  /** With a window it is, for an action with an opening target from before the window, exactly when the opening
      snapshot's balances and settled cash add up to that target, and otherwise exactly when they add up to nothing. */
  lemma WindowedEquity(holdings: seq<Holding>, action: Action, side: Side, settlements: seq<Settlement>, s: Snapshot)
    requires Distribution(holdings, action, side, settlements, Some(s)).Known?
    requires Quantity(QualifiedFor(holdings, action, side)) != 0.0 || Inherited(Some(s)) || Future(action, Some(s))
    ensures var r := Distribution(holdings, action, side, settlements, Some(s));
      Equity(r, side) == SignedTarget(r, side) <==>
        s.settled + OpeningBalance(side, Some(s)) ==
          if s.target.Some? && !s.window.Contains(action.exAt) then s.target.value else 0.0
  {
    KnownShape(holdings, action, side, settlements, Some(s));
    KnownEquity(TargetOf(holdings, action, side, Some(s)).1, action, side, Some(s),
                Windowed(Relevant(settlements, action, side), Some(s)));
  }
}
