/** One side of one distribution action, calculated step by step, and what the result means in terms of the holdings
    and the settlements alone. Amounts are cents. */
module Entitlements {
  import opened Common
  import opened Cents
  import opened Settlements
  import opened Revisions
  import opened Distributions

  // --- the calculation ---

  method Qualifies(h: Holding, a: Action) returns (entitled: bool)
    ensures entitled == Qualified(h, a)
  {
    if h.symbol != a.symbol || h.quantity == 0.0 || a.exAt <= h.entryAt { return false; }
    entitled := h.exitAt.None? || !(h.exitAt.value < a.exAt);
  }

  method Amount(h: Holding, perShare: real) returns (amount: real)
    ensures amount == Worth(h, perShare)
  {
    amount := perShare * h.quantity;
  }

  /** What the entitled holdings of a side come to: their shares, and their exact amounts by lot. */
  method Qualifying(holdings: seq<Holding>, a: Action, side: Side)
    returns (quantity: real, byLot: Amounts, order: seq<Lot>)
    ensures Gathered(holdings, a, side, quantity, byLot, order)
  {
    quantity, byLot, order := 0.0, map[], [];
    assert Gathered(holdings[..0], a, side, quantity, byLot, order);
    hide Gathered, Qualified;
    for i := 0 to |holdings|
      invariant Gathered(holdings[..i], a, side, quantity, byLot, order)
    {
      TakeOneMore(holdings, i);
      var h := holdings[i];
      var entitled := Qualifies(h, a);
      if h.side != side || !entitled {
        GatherSkip(holdings[..i], a, side, quantity, byLot, order, h);
        continue;
      }
      GatherNext(holdings[..i], a, side, quantity, byLot, order, h);
      quantity := quantity + h.quantity;
      if a.perShare.Some? {
        var worth := Amount(h, a.perShare.value);
        if h.lot !in byLot { order := order + [h.lot]; }
        byLot := byLot[h.lot := worth];
      }
    }
    TakeAll(holdings);
  }

  ghost predicate Gathered(holdings: seq<Holding>, a: Action, side: Side, quantity: real, byLot: Amounts,
                           order: seq<Lot>)
  {
    && quantity == Quantity(QualifiedFor(holdings, a, side))
    && byLot == LotsOf(holdings, a, side) && order == OrderOf(holdings, a, side)
  }

  lemma GatherSkip(front: seq<Holding>, a: Action, side: Side, quantity: real, byLot: Amounts, order: seq<Lot>,
                   h: Holding)
    requires Gathered(front, a, side, quantity, byLot, order) && (h.side != side || !Qualified(h, a))
    ensures Gathered(front + [h], a, side, quantity, byLot, order)
  {
    assert (front + [h])[..|front|] == front;
    assert QualifiedFor(front + [h], a, side) == QualifiedFor(front, a, side);
  }

  lemma GatherNext(front: seq<Holding>, a: Action, side: Side, quantity: real, byLot: Amounts, order: seq<Lot>,
                   h: Holding)
    requires Gathered(front, a, side, quantity, byLot, order) && h.side == side && Qualified(h, a)
    ensures Gathered(front + [h], a, side, quantity + h.quantity,
                     if a.perShare.Some? then byLot[h.lot := Worth(h, a.perShare.value)] else byLot,
                     if a.perShare.Some? && h.lot !in byLot then order + [h.lot] else order)
  {
    var q := QualifiedFor(front, a, side);
    assert (front + [h])[..|front|] == front;
    assert (q + [h])[..|q|] == q && (q + [h])[|q|] == h;
    assert QualifiedFor(front + [h], a, side) == q + [h];
    if a.perShare.Some? {
      LotOrderLists(q, a.perShare.value);
      assert h.lot in byLot <==> h.lot in LotOrder(q);
      OneMoreLot(q, h, a.perShare.value);
    }
  }

  lemma OneMoreLot(q: seq<Holding>, h: Holding, rate: real)
    ensures ExactByLot(q + [h], rate) == ExactByLot(q, rate)[h.lot := Worth(h, rate)]
    ensures LotOrder(q + [h]) == if h.lot in LotOrder(q) then LotOrder(q) else LotOrder(q) + [h.lot]
  {
    var all := q + [h];
    assert all[..|all| - 1] == q && all[|all| - 1] == h;
  }

  /** The records of an action that count for a side, and whether one of them names no side. */
  method Matching(settlements: seq<Settlement>, a: Action, side: Side)
    returns (relevant: seq<Settlement>, unscoped: bool)
    ensures relevant == Relevant(settlements, a, side)
    ensures unscoped <==> exists i :: 0 <= i < |relevant| && relevant[i].side.None?
  {
    relevant, unscoped := [], false;
    for i := 0 to |settlements|
      invariant relevant == Relevant(settlements[..i], a, side)
      invariant unscoped <==> exists k :: 0 <= k < |relevant| && relevant[k].side.None?
    {
      assert settlements[..i + 1][..i] == settlements[..i];
      var s := settlements[i];
      if s.key != a.actionId || (s.side.Some? && s.side.value != side) { continue; }
      ghost var before := relevant;
      relevant := relevant + [s];
      assert relevant[|before|] == s && forall k :: 0 <= k < |before| ==> relevant[k] == before[k];
      if s.side.None? { unscoped := true; }
    }
    TakeAll(settlements);
  }

  method OtherSideQualifies(holdings: seq<Holding>, a: Action, side: Side) returns (mixed: bool)
    ensures mixed <==> exists i :: 0 <= i < |holdings| && holdings[i].side != side && Qualified(holdings[i], a)
  {
    for i := 0 to |holdings|
      invariant forall k :: 0 <= k < i ==> !(holdings[k].side != side && Qualified(holdings[k], a))
    {
      var entitled := Qualifies(holdings[i], a);
      if entitled && holdings[i].side != side { return true; }
    }
    mixed := false;
  }

  method Within(settlements: seq<Settlement>, snapshot: Option<Snapshot>) returns (counted: seq<Settlement>)
    ensures counted == Windowed(settlements, snapshot)
  {
    if snapshot.None? { return settlements; }
    var w := snapshot.value.window;
    counted := [];
    for i := 0 to |settlements|
      invariant counted == InWindow(settlements[..i], w)
    {
      assert settlements[..i + 1][..i] == settlements[..i];
      if settlements[i].occurredAt <= w.start || w.end < settlements[i].occurredAt { continue; }
      counted := counted + [settlements[i]];
    }
    TakeAll(settlements);
  }

  /** Net cash, and the first reason not to trust records that were deduplicated to `unique`. */
  method Inspect(ghost counted: seq<Settlement>, unique: seq<Settlement>, ok: bool, currency: Option<string>)
    returns (net: real, problem: Option<Reason>)
    requires unique == Unique(counted) && (ok <==> Consistent(counted))
    ensures net == Net(counted) && problem == SettlementProblem(counted, currency)
  {
    var unpriced, unnamed, foreign;
    net, unpriced, unnamed, foreign := Scan(unique, currency);
    NetIsUniqueSum(counted);
    if !ok { return net, Some(ConflictingSettlement); }
    UniqueHasAll(counted);
    SameProblems(unique, counted, currency);
    problem :=
      if unpriced then Some(MissingSettlementAmount) else if unnamed then Some(MissingSettlementCurrency)
      else if foreign then Some(CurrencyMismatch) else None;
  }

  /** One side of one action, from the records themselves. */
  method ForSide(holdings: seq<Holding>, a: Action, side: Side, settlements: seq<Settlement>,
                 snapshot: Option<Snapshot>)
    returns (r: DistributionResult)
    ensures r == Distribution(holdings, a, side, settlements, snapshot)
  {
    var quantity, byLot, order := Qualifying(holdings, a, side);
    var inherited, future, current := false, false, true;
    if snapshot.Some? {
      var s := snapshot.value;
      inherited := !(s.receivable == 0.0 && s.payable == 0.0 && s.refund == 0.0 && s.repayment == 0.0);
      future := s.window.end < a.exAt;
      current := !future && s.window.start < a.exAt;
    }
    if quantity == 0.0 && !inherited && !future { return Known(0, 0.0, 0.0, 0, 0.0, 0.0, 0.0, 0.0, {}); }
    var target := 0;
    if !future && !a.cancelled && (current || !inherited) {
      if a.perShare.None? { return Unknown(MissingRate); }
      if a.currency == None || a.currency == Some("") { return Unknown(MissingCurrency); }
      ListedInKeys(order, byLot);
      target := RoundCents(ExactSum(byLot, order));
    }
    r := Settle(holdings, a, side, settlements, snapshot, byLot, order, target, current);
  }

  /** The balances that the settlements leave of a target. */
  method Settle(holdings: seq<Holding>, a: Action, side: Side, settlements: seq<Settlement>,
                snapshot: Option<Snapshot>, byLot: Amounts, order: seq<Lot>, target: int, current: bool)
    returns (r: DistributionResult)
    requires byLot == LotsOf(holdings, a, side) && order == OrderOf(holdings, a, side)
    requires current == InReportingWindow(a, snapshot)
    ensures r == Settled(holdings, a, side, settlements, snapshot, target)
  {
    var relevant, unscoped := Matching(settlements, a, side);
    var mixed := OtherSideQualifies(holdings, a, side);
    if unscoped && mixed { return Unknown(UnscopedSettlement); }
    var counted := Within(relevant, snapshot);
    var unique, ok := Dedupe(counted);
    var net, problem := Inspect(counted, unique, ok, a.currency);
    if problem.Some? { return Unknown(problem.value); }
    UniqueHasAll(counted);
    var shares := AllocateCents(byLot, order, Some(target as real));
    Decides(holdings, a, side, target, shares);
    if shares.None? { return Refused; }
    r := Balance(target, a, side, snapshot, counted, unique, net, current);
  }

  /** What the allocation of a target to the lots comes to. */
  ghost predicate Splits(byLot: Amounts, order: seq<Lot>, target: int, shares: Option<map<Lot, int>>)
    requires Lists(order, byLot.Keys)
  {
    ListedInKeys(order, byLot);
    IsOutcome(Positive(byLot), Kept(byLot, order), RoundCents(target as real), shares)
  }

  lemma Decides(holdings: seq<Holding>, a: Action, side: Side, target: int, shares: Option<map<Lot, int>>)
    requires Splits(LotsOf(holdings, a, side), OrderOf(holdings, a, side), target, shares)
    ensures shares.None? <==> CannotAllocate(holdings, a, side, target)
  {
    RoundingIsNearest(0.0, target);
  }

  method Balance(target: int, a: Action, side: Side, snapshot: Option<Snapshot>, ghost counted: seq<Settlement>,
                 unique: seq<Settlement>, net: real, current: bool)
    returns (r: DistributionResult)
    requires net == Net(counted) && (forall s :: s in unique <==> s in counted)
    requires current == InReportingWindow(a, snapshot)
    ensures r == KnownResult(target, a, side, snapshot, counted)
  {
    var owed, settled := target as real - net, net;
    if snapshot.Some? {
      var s := snapshot.value;
      settled := settled + s.settled;
      owed := owed + if side == LongSide then s.receivable - s.repayment else s.payable - s.refund;
      if !current && s.target.Some? { owed := owed - s.target.value; }
    }
    var due, back := if owed > 0.0 then owed else 0.0, if owed < 0.0 then -owed else 0.0;
    var ids, income := set s | s in unique :: s.paymentId, if current then target else 0;
    assert ids == PaymentIds(counted);
    r := if side == LongSide then Known(target, settled, net, income, due, 0.0, 0.0, back, ids)
      else Known(target, settled, -net, -income, 0.0, due, back, 0.0, ids);
  }

  // --- what a result means ---

  /** The holding has no part in the action. */
  ghost predicate Bystander(h: Holding, a: Action) {
    || h.symbol != a.symbol || h.quantity == 0.0 || a.exAt <= h.entryAt
    || (h.exitAt.Some? && h.exitAt.value < a.exAt)
  }

  lemma {:induction false} QualifiedInParts(x: seq<Holding>, y: seq<Holding>, a: Action, side: Side)
    ensures QualifiedFor(x + y, a, side) == QualifiedFor(x, a, side) + QualifiedFor(y, a, side)
  {
    if y == [] {
      assert x + y == x;
    } else {
      assert (x + y)[..|x + y| - 1] == x + y[..|y| - 1];
      QualifiedInParts(x, y[..|y| - 1], a, side);
    }
  }

  /** A holding of another symbol, of no shares, entered at the ex time or later, or left before it, changes nothing
      about either side. */
  lemma BystanderChangesNothing(x: seq<Holding>, h: Holding, y: seq<Holding>, a: Action, side: Side,
                                settlements: seq<Settlement>, snapshot: Option<Snapshot>)
    requires Bystander(h, a)
    ensures Distribution(x + [h] + y, a, side, settlements, snapshot) ==
      Distribution(x + y, a, side, settlements, snapshot)
  {
    BystanderQualifiesNot(x, h, y, a, side);
    SameOtherSide(x, h, y, a, side);
    QualifiedDecides(x + [h] + y, x + y, a, side, settlements, snapshot);
  }

  lemma BystanderQualifiesNot(x: seq<Holding>, h: Holding, y: seq<Holding>, a: Action, side: Side)
    requires Bystander(h, a)
    ensures QualifiedFor(x + [h] + y, a, side) == QualifiedFor(x + y, a, side)
  {
    assert [h][..0] == [];
    QualifiedInParts(x, [h], a, side);
    QualifiedInParts(x + [h], y, a, side);
    QualifiedInParts(x, y, a, side);
  }

  /** Of the holdings only the qualified ones of a side matter, and whether the other side has any. */
  lemma QualifiedDecides(x: seq<Holding>, y: seq<Holding>, a: Action, side: Side, settlements: seq<Settlement>,
                         snapshot: Option<Snapshot>)
    requires QualifiedFor(x, a, side) == QualifiedFor(y, a, side)
    requires (exists i :: 0 <= i < |x| && x[i].side != side && Qualified(x[i], a)) <==>
      exists i :: 0 <= i < |y| && y[i].side != side && Qualified(y[i], a)
    ensures Distribution(x, a, side, settlements, snapshot) == Distribution(y, a, side, settlements, snapshot)
  {
    hide QualifiedFor, Qualified, Settled, TargetOf, Quantity, Inherited, Future;
    LotsDecide(x, y, a, side);
    TargetDecides(x, y, a, side, snapshot);
    SettledDecides(x, y, a, side, settlements, snapshot, TargetOf(x, a, side, snapshot).1);
  }

  lemma TargetDecides(x: seq<Holding>, y: seq<Holding>, a: Action, side: Side, snapshot: Option<Snapshot>)
    requires ExactTarget(x, a, side) == ExactTarget(y, a, side)
    ensures TargetOf(x, a, side, snapshot) == TargetOf(y, a, side, snapshot)
  {
    hide ExactTarget, RoundCents, ZeroTarget;
  }

  lemma LotsDecide(x: seq<Holding>, y: seq<Holding>, a: Action, side: Side)
    requires QualifiedFor(x, a, side) == QualifiedFor(y, a, side)
    ensures LotsOf(x, a, side) == LotsOf(y, a, side) && OrderOf(x, a, side) == OrderOf(y, a, side)
    ensures ExactTarget(x, a, side) == ExactTarget(y, a, side)
  {}

  lemma SettledDecides(x: seq<Holding>, y: seq<Holding>, a: Action, side: Side, settlements: seq<Settlement>,
                       snapshot: Option<Snapshot>, target: int)
    requires LotsOf(x, a, side) == LotsOf(y, a, side) && OrderOf(x, a, side) == OrderOf(y, a, side)
    requires (exists i :: 0 <= i < |x| && x[i].side != side && Qualified(x[i], a)) <==>
      exists i :: 0 <= i < |y| && y[i].side != side && Qualified(y[i], a)
    ensures Settled(x, a, side, settlements, snapshot, target) == Settled(y, a, side, settlements, snapshot, target)
  {
    hide LotsOf, OrderOf, SettlementProblem, KnownResult, Qualified, Relevant, Windowed, AllocationRefused;
  }

  lemma SameOtherSide(x: seq<Holding>, h: Holding, y: seq<Holding>, a: Action, side: Side)
    requires Bystander(h, a)
    ensures var all, but := x + [h] + y, x + y;
      (exists i :: 0 <= i < |all| && all[i].side != side && Qualified(all[i], a)) <==>
        exists i :: 0 <= i < |but| && but[i].side != side && Qualified(but[i], a)
  {
    var all, but := x + [h] + y, x + y;
    forall i | 0 <= i < |but| ensures exists k :: 0 <= k < |all| && all[k] == but[i] {
      assert all[if i < |x| then i else i + 1] == but[i];
    }
    forall i | 0 <= i < |all| && i != |x| ensures exists k :: 0 <= k < |but| && but[k] == all[i] {
      assert but[if i < |x| then i else i - 1] == all[i];
    }
  }

  /** What a distribution is worth to the holdings of a side entered before the ex time and left no earlier. */
  ghost function EntitledWorth(holdings: seq<Holding>, a: Action, side: Side): real
    requires a.perShare.Some?
  {
    if holdings == [] then 0.0
    else
      var front, h := holdings[..|holdings| - 1], holdings[|holdings| - 1];
      EntitledWorth(front, a, side)
        + if h.side == side && !Bystander(h, a) then h.quantity * a.perShare.value else 0.0
  }

  ghost predicate LotsDistinct(holdings: seq<Holding>) {
    forall i, j :: 0 <= i < j < |holdings| ==> holdings[i].lot != holdings[j].lot
  }

  ghost function WorthSum(holdings: seq<Holding>, rate: real): real {
    if holdings == [] then 0.0
    else WorthSum(holdings[..|holdings| - 1], rate) + Worth(holdings[|holdings| - 1], rate)
  }

  lemma NotAmong(holdings: seq<Holding>, lot: Lot, rate: real)
    requires forall i :: 0 <= i < |holdings| ==> holdings[i].lot != lot
    ensures lot !in LotOrder(holdings) && lot !in ExactByLot(holdings, rate)
  {
    LotOrderLists(holdings, rate);
  }

  lemma {:induction false} SumOfLots(q: seq<Holding>, rate: real)
    requires LotsDistinct(q)
    ensures forall i :: 0 <= i < |LotOrder(q)| ==> LotOrder(q)[i] in ExactByLot(q, rate)
    ensures ExactSum(ExactByLot(q, rate), LotOrder(q)) == WorthSum(q, rate)
  {
    LotOrderLists(q, rate);
    ListedInKeys(LotOrder(q), ExactByLot(q, rate));
    if q == [] {
    } else {
      var front, h := q[..|q| - 1], q[|q| - 1];
      LastSplits(q);
      hide LotOrder, ExactByLot, Worth, ExactSum, WorthSum;
      SumOfLots(front, rate);
      LotOrderLists(front, rate);
      OneMoreLot(front, h, rate);
      OneMoreWorth(front, h, rate);
      NotAmong(front, h.lot, rate);
      NewLotAdds(ExactByLot(front, rate), LotOrder(front), h.lot, Worth(h, rate));
    }
  }

  lemma OneMoreWorth(q: seq<Holding>, h: Holding, rate: real)
    ensures WorthSum(q + [h], rate) == WorthSum(q, rate) + Worth(h, rate)
  {
    assert (q + [h])[..|q|] == q;
  }

  lemma StandsBy(h: Holding, a: Action, rate: real)
    ensures Qualified(h, a) <==> !Bystander(h, a)
    ensures Worth(h, rate) == h.quantity * rate
  {}

  lemma {:induction false} EntitledIsQualified(holdings: seq<Holding>, a: Action, side: Side)
    requires a.perShare.Some?
    ensures EntitledWorth(holdings, a, side) == WorthSum(QualifiedFor(holdings, a, side), a.perShare.value)
  {
    if holdings == [] {
    } else {
      var front, h := holdings[..|holdings| - 1], holdings[|holdings| - 1];
      EntitledIsQualified(front, a, side);
      var q, rate := QualifiedFor(front, a, side), a.perShare.value;
      StandsBy(h, a, rate);
      hide WorthSum, Qualified, Bystander, Worth;
      if h.side == side && Qualified(h, a) { OneMoreWorth(q, h, rate); }
    }
  }

  lemma {:induction false} QualifiedDistinct(holdings: seq<Holding>, a: Action, side: Side)
    requires LotsDistinct(holdings)
    ensures LotsDistinct(QualifiedFor(holdings, a, side))
  {
    if holdings == [] {
    } else {
      var front := holdings[..|holdings| - 1];
      QualifiedDistinct(front, a, side);
      var q := QualifiedFor(front, a, side);
      assert forall i :: 0 <= i < |q| ==> q[i] in front;
    }
  }

  lemma ExactIsEntitled(holdings: seq<Holding>, a: Action, side: Side)
    requires a.perShare.Some? && LotsDistinct(holdings)
    ensures ExactTarget(holdings, a, side) == EntitledWorth(holdings, a, side)
  {
    QualifiedDistinct(holdings, a, side);
    SumOfLots(QualifiedFor(holdings, a, side), a.perShare.value);
    EntitledIsQualified(holdings, a, side);
  }

  lemma NewLotAdds(byLot: Amounts, order: seq<Lot>, lot: Lot, amount: real)
    requires Lists(order, byLot.Keys) && lot !in byLot
    ensures forall i :: 0 <= i < |order| ==> order[i] in byLot
    ensures ExactSum(byLot[lot := amount], order + [lot]) == ExactSum(byLot, order) + amount
  {
    ListedInKeys(order, byLot);
    assert (order + [lot])[..|order|] == order;
    OtherLotsOnly(byLot, order, lot, amount);
  }

  lemma {:induction false} OtherLotsOnly(byLot: Amounts, order: seq<Lot>, lot: Lot, amount: real)
    requires lot !in byLot && forall i :: 0 <= i < |order| ==> order[i] in byLot
    ensures ExactSum(byLot[lot := amount], order) == ExactSum(byLot, order)
  {
    if order == [] {
    } else {
      OtherLotsOnly(byLot, order[..|order| - 1], lot, amount);
    }
  }

  lemma {:induction false} NobodyIsWorthNothing(holdings: seq<Holding>, a: Action, side: Side)
    requires a.perShare.Some? && forall i :: 0 <= i < |holdings| ==> holdings[i].quantity >= 0.0
    ensures Quantity(QualifiedFor(holdings, a, side)) >= 0.0
    ensures Quantity(QualifiedFor(holdings, a, side)) == 0.0 ==> EntitledWorth(holdings, a, side) == 0.0
  {
    if holdings == [] {
    } else {
      var front, h := holdings[..|holdings| - 1], holdings[|holdings| - 1];
      NobodyIsWorthNothing(front, a, side);
      if h.side == side && Qualified(h, a) {
        var q := QualifiedFor(front, a, side);
        assert (q + [h])[..|q|] == q;
      }
    }
  }

  /** The action is cancelled, later than the reporting window, or older and carried on by the opening balances. */
  ghost predicate NothingNew(a: Action, snapshot: Option<Snapshot>) {
    || a.cancelled
    || (snapshot.Some?
        && var s := snapshot.value;
          || a.exAt > s.window.end
          || (a.exAt <= s.window.start
              && (s.receivable != 0.0 || s.payable != 0.0 || s.refund != 0.0 || s.repayment != 0.0)))
  }

  /** The target is the rounded sum of quantity times rate over exactly the holdings of the side entered before the ex
      time and not left before it; nothing is due for an action that is cancelled, later than the window, or older and
      carried on by the opening balances. */
  lemma TargetIsEntitlement(holdings: seq<Holding>, a: Action, side: Side, settlements: seq<Settlement>,
                            snapshot: Option<Snapshot>)
    requires LotsDistinct(holdings) && WellFormed(holdings, a) && a.perShare.Some?
    requires Distribution(holdings, a, side, settlements, snapshot).Known?
    ensures Distribution(holdings, a, side, settlements, snapshot).target ==
      if NothingNew(a, snapshot) then 0 else RoundCents(EntitledWorth(holdings, a, side))
  {
    hide ExactTarget, EntitledWorth, QualifiedFor, RoundCents, LotsDistinct, Distribution, Quantity;
    KnownTarget(holdings, a, side, settlements, snapshot);
    ExactIsEntitled(holdings, a, side);
    NobodyIsWorthNothing(holdings, a, side);
    RoundingIsNearest(0.0, 0);
  }

  lemma KnownTarget(holdings: seq<Holding>, a: Action, side: Side, settlements: seq<Settlement>,
                    snapshot: Option<Snapshot>)
    requires Distribution(holdings, a, side, settlements, snapshot).Known?
    ensures Distribution(holdings, a, side, settlements, snapshot).target ==
      if Quantity(QualifiedFor(holdings, a, side)) == 0.0 && !Inherited(snapshot) && !Future(a, snapshot) then 0
      else TargetOf(holdings, a, side, snapshot).1
    ensures Quantity(QualifiedFor(holdings, a, side)) != 0.0 || Inherited(snapshot) || Future(a, snapshot) ==>
      TargetOf(holdings, a, side, snapshot).0.None?
  {
    KnownShape(holdings, a, side, settlements, snapshot);
    hide TargetOf, Inherited, Future, Distribution;
  }

  /** Which records count: those of the action, for the side or for no side, that occurred in the window. */
  lemma {:induction false} CountsExactly(settlements: seq<Settlement>, a: Action, side: Side,
                                         snapshot: Option<Snapshot>, s: Settlement)
    ensures s in Windowed(Relevant(settlements, a, side), snapshot) <==>
      && s in settlements && s.key == a.actionId && (s.side == Some(side) || s.side == None)
      && (snapshot.Some? ==> snapshot.value.window.start < s.occurredAt <= snapshot.value.window.end)
  {
    RelevantAre(settlements, a, side, s);
    if snapshot.Some? { InWindowAre(Relevant(settlements, a, side), snapshot.value.window, s); }
  }

  lemma {:induction false} RelevantAre(settlements: seq<Settlement>, a: Action, side: Side, s: Settlement)
    ensures s in Relevant(settlements, a, side) <==>
      s in settlements && s.key == a.actionId && (s.side == Some(side) || s.side == None)
  {
    if settlements == [] {
    } else {
      RelevantAre(settlements[..|settlements| - 1], a, side, s);
      LastSplits(settlements);
    }
  }

  /** What is still owed: for a side that holds something, carries something or awaits something, the opening balance
      and the new target less the cash of the window, on one account and never on both. */
  lemma WhatIsOwed(holdings: seq<Holding>, a: Action, side: Side, settlements: seq<Settlement>,
                   snapshot: Option<Snapshot>)
    requires Distribution(holdings, a, side, settlements, snapshot).Known?
    requires Quantity(QualifiedFor(holdings, a, side)) != 0.0 || Inherited(snapshot) || Future(a, snapshot)
    ensures var r := Distribution(holdings, a, side, settlements, snapshot);
      var cash := Net(Windowed(Relevant(settlements, a, side), snapshot));
      var before := if snapshot.None? then 0.0 else snapshot.value.settled;
      var opening := if snapshot.None? then 0.0
        else if side == LongSide then snapshot.value.receivable - snapshot.value.repayment
        else snapshot.value.payable - snapshot.value.refund;
      var reported := snapshot.None? || snapshot.value.window.start < a.exAt <= snapshot.value.window.end;
      var added := r.target as real
        - if !reported && snapshot.value.target.Some? then snapshot.value.target.value else 0.0;
      && r.settled == before + cash && r.cashDelta == (if side == LongSide then cash else -cash)
      && r.income == (if !reported then 0 else if side == LongSide then r.target else -r.target)
      && (side == LongSide ==>
        && r.payable == r.refund == 0.0 && r.receivable >= 0.0 && r.repayment >= 0.0
        && (r.receivable == 0.0 || r.repayment == 0.0) && r.receivable - r.repayment == opening + added - cash)
      && (side == ShortSide ==>
        && r.receivable == r.repayment == 0.0 && r.payable >= 0.0 && r.refund >= 0.0
        && (r.payable == 0.0 || r.refund == 0.0) && r.payable - r.refund == opening + added - cash)
  {
    KnownShape(holdings, a, side, settlements, snapshot);
  }
}
