/** Realized profit of partially observed exits: path independent up to half a cent per applied fill. */
module OrderPnl {
  import opened Common
  import opened OrderJournal
  import opened OrderProtocol
  import opened OrderTruth
  import opened OrderConservation

  /** What `n` shares are worth at `price` each. */
  ghost function Value(n: int, price: real): real {
    if n <= 0 then 0.0 else Value(n - 1, price) + price
  }

  lemma {:induction false} ValueIsProduct(n: nat, price: real)
    ensures Value(n, price) == n as real * price
  {
    if n == 0 {
    } else {
      ValueIsProduct(n - 1, price);
      Distribute(n - 1, 1, price);
    }
  }

  ghost function NotionalWeight(o: Order, t: nat): real {
    if o.purpose.Exit? && o.tradeId == Some(t) then Value(o.applied, o.price) else 0.0
  }

  ghost function NotionalWeights(orders: seq<Order>, t: nat): (s: seq<real>)
    ensures |s| == |orders| && forall i :: 0 <= i < |s| ==> s[i] == NotionalWeight(orders[i], t)
  {
    seq(|orders|, i requires 0 <= i < |orders| => NotionalWeight(orders[i], t))
  }

  /** Cumulative exit notional of trade `t`: filled shares at their average price, over all its exits. */
  ghost function Notional(orders: seq<Order>, t: nat): real {
    SumR(NotionalWeights(orders, t))
  }

  /** Profit of `sold` shares of `trade` that brought `notional`. */
  ghost function Profit(trade: Trade, notional: real, sold: int): real {
    trade.direction.SignedAmount(notional - Value(sold, trade.entry))
  }

  /** Signed exit notional minus entry notional of the shares sold so far. */
  ghost function ExactPnl(j: Journal, t: nat): real
    requires t < |j.trades|
  {
    Profit(j.trades[t], Notional(j.orders, t), ExitsApplied(j.orders, t))
  }

  // --- one report ---

  /** The report fills exit order `id` of trade `t` further. */
  ghost predicate FillsExit(j: Journal, id: nat, report: Report, t: nat) {
    id < |j.orders| && j.orders[id].purpose.Exit? && j.orders[id].tradeId == Some(t)
      && report.filled > j.orders[id].applied as real
  }

  lemma FillRow(j: Journal, id: nat, report: Report, t: nat)
    requires Linked(j) && FillsExit(j, id, report, t) && ApplyReport(j, id, report).Ok?
    ensures var j' := ApplyReport(j, id, report).value;
      && t < |j.trades| == |j'.trades| && id < |j'.orders| && j'.orders == j.orders[id := j'.orders[id]]
      && SameIdentity(j.orders[id], j'.orders[id]) && j'.orders[id].tradeId == Some(t)
      && j'.orders[id].applied > j.orders[id].applied && j.trades[t].shares > 0
      && ApplyExitFill(j.trades[t], j.orders[id], j'.orders[id].applied, j'.orders[id].price) == Ok(j'.trades[t])
  {
    ReportEffect(j, id, report);
    assert RowLinked(j, id) && TradeLinked(j, t) && RowLinked(j, j.trades[t].entryOrder);
  }

  lemma FillTotals(j: Journal, id: nat, report: Report, t: nat)
    requires Linked(j) && FillsExit(j, id, report, t) && ApplyReport(j, id, report).Ok?
    ensures var j' := ApplyReport(j, id, report).value;
      && id < |j'.orders|
      && ExitsApplied(j'.orders, t) == ExitsApplied(j.orders, t) + j'.orders[id].applied - j.orders[id].applied
      && Notional(j'.orders, t) == Notional(j.orders, t)
           + Value(j'.orders[id].applied, j'.orders[id].price) - Value(j.orders[id].applied, j.orders[id].price)
  {
    FillRow(j, id, report, t);
    var orders, orders' := j.orders, ApplyReport(j, id, report).value.orders;
    SumChange(ExitWeights(orders, t), ExitWeights(orders', t), id);
    SumRChange(NotionalWeights(orders, t), NotionalWeights(orders', t), id);
  }

  lemma Distribute(a: int, b: int, e: real)
    ensures (a + b) as real * e == a as real * e + b as real * e
  {}

  lemma GrossByValue(trade: Trade, row: Order, qty: nat, price: real)
    requires qty > row.applied
    ensures ExitGross(trade, row, qty, price)
      == trade.gross + trade.direction.SignedAmount(
           Value(qty, price) - Value(row.applied, row.price) - Value(qty - row.applied, trade.entry))
  {
    ValueIsProduct(qty, price);
    ValueIsProduct(row.applied, row.price);
    ValueIsProduct(qty - row.applied, trade.entry);
  }

  lemma SignedSplits(direction: Direction, a: real, b: real)
    ensures direction.SignedAmount(a + b) == direction.SignedAmount(a) + direction.SignedAmount(b)
  {}

  /** One more fill moves the exact figure by what it adds to gross before rounding. */
  lemma ProfitMoves(trade: Trade, row: Order, qty: nat, price: real, sold: int, notional: real)
    requires qty > row.applied && sold >= 0
    ensures Profit(trade, notional + Value(qty, price) - Value(row.applied, row.price), sold + qty - row.applied)
      == Profit(trade, notional, sold) + ExitGross(trade, row, qty, price) - trade.gross
  {
    var cost, more := Value(qty - row.applied, trade.entry), Value(qty, price) - Value(row.applied, row.price);
    GrossByValue(trade, row, qty, price);
    assert Value(sold + qty - row.applied, trade.entry) == Value(sold, trade.entry) + cost by {
      ValueAdds(sold, qty - row.applied, trade.entry);
      assert sold + qty - row.applied == sold + (qty - row.applied);
    }
    SignedSplits(trade.direction, notional - Value(sold, trade.entry), more - cost);
  }

  lemma {:induction false} ValueAdds(a: nat, b: nat, price: real)
    ensures Value(a + b, price) == Value(a, price) + Value(b, price)
  {
    if b == 0 {
    } else {
      ValueAdds(a, b - 1, price);
    }
  }

  lemma StoredGross(trade: Trade, row: Order, qty: nat, price: real)
    requires trade.shares > 0 && qty > row.applied && ApplyExitFill(trade, row, qty, price).Ok?
    ensures var trade' := ApplyExitFill(trade, row, qty, price).value;
      && trade'.entry == trade.entry && trade'.direction == trade.direction && trade'.shares == trade.shares
      && Abs(trade'.gross - ExitGross(trade, row, qty, price)) <= 0.005
  {}

  /** Booking one fill changes stored gross by what it changes the exact figure, up to its rounding. */
  lemma BookedExit(j: Journal, id: nat, report: Report, t: nat)
    requires Linked(j) && FillsExit(j, id, report, t) && ApplyReport(j, id, report).Ok?
    ensures var j' := ApplyReport(j, id, report).value;
      t < |j.trades| == |j'.trades|
      && Abs(j'.trades[t].gross - j.trades[t].gross - (ExactPnl(j', t) - ExactPnl(j, t))) <= 0.005
  {
    var j' := ApplyReport(j, id, report).value;
    var row' := j'.orders[id];
    FillRow(j, id, report, t);
    var gross := ExitGross(j.trades[t], j.orders[id], row'.applied, row'.price);
    assert Abs(j'.trades[t].gross - gross) <= 0.005 && j'.trades[t].entry == j.trades[t].entry
      && j'.trades[t].direction == j.trades[t].direction by {
      StoredGross(j.trades[t], j.orders[id], row'.applied, row'.price);
    }
    assert ExactPnl(j', t) == ExactPnl(j, t) + gross - j.trades[t].gross by {
      FillTotals(j, id, report, t);
      ExitsNonNegative(j.orders, t);
      ProfitMoves(j.trades[t], j.orders[id], row'.applied, row'.price, ExitsApplied(j.orders, t),
                  Notional(j.orders, t));
    }
  }

  /** `n` shares at the price `entry + x / n` are worth `x` more than at `entry`. */
  lemma SpreadOverShares(n: nat, entry: real, x: real)
    requires n > 0
    ensures Value(n, entry + x / n as real) == Value(n, entry) + x
  {
    var share := x / n as real;
    ValueIsProduct(n, entry);
    ValueIsProduct(n, entry + share);
    DistributeOver(n as real, entry, share);
    Quotient(x, n as real);
  }

  lemma Quotient(x: real, n: real)
    requires n > 0.0
    ensures n * (x / n) == x
  {}

  lemma DistributeOver(n: real, a: real, b: real)
    ensures n * (a + b) == n * a + n * b
  {}

  /** The closing price times the shares differs from the notional by what stored gross lacks so far. */
  lemma ClosingArithmetic(trade: Trade, row: Order, qty: nat, price: real, sold: int, notional: real)
    requires trade.shares > 0 && qty > row.applied && trade.shares == sold + qty - row.applied && sold >= 0
    requires var r := ApplyExitFill(trade, row, qty, price); r.Ok? && r.value.remaining == 0
    ensures var closed := ApplyExitFill(trade, row, qty, price).value;
      && closed.exitPrice.Some? && closed.shares == trade.shares
      && Abs(Value(closed.shares, closed.exitPrice.value)
             - (notional + Value(qty, price) - Value(row.applied, row.price)))
         == Abs(trade.gross - Profit(trade, notional, sold))
  {
    var gross, total := ExitGross(trade, row, qty, price), notional + Value(qty, price) - Value(row.applied, row.price);
    var move := trade.direction.SignedAmount(gross);
    ClosingPriceStored(trade, row, qty, price);
    SpreadOverShares(trade.shares, trade.entry, move);
    assert gross - Profit(trade, total, trade.shares) == trade.gross - Profit(trade, notional, sold) by {
      ProfitMoves(trade, row, qty, price, sold, notional);
    }
    ClosingSign(trade.direction, gross, total - Value(trade.shares, trade.entry));
  }

  lemma ClosingSign(direction: Direction, gross: real, exact: real)
    ensures Abs(direction.SignedAmount(gross) - exact) == Abs(gross - direction.SignedAmount(exact))
  {}

  lemma ClosingPriceStored(trade: Trade, row: Order, qty: nat, price: real)
    requires trade.shares > 0 && qty > row.applied
    requires var r := ApplyExitFill(trade, row, qty, price); r.Ok? && r.value.remaining == 0
    ensures var closed, gross := ApplyExitFill(trade, row, qty, price).value, ExitGross(trade, row, qty, price);
      && closed.shares == trade.shares
      && closed.exitPrice == Some(trade.entry + trade.direction.SignedAmount(gross) / trade.shares as real)
  {}

  // --- whole runs ---

  ghost predicate BooksExit(w: World, a: Action, t: nat) {
    a.Observe? && FillsExit(w.j, a.order, a.report, t)
  }

  lemma GrossOnlyByExits(w: World, a: Action, t: nat)
    requires Shaped(w) && Enabled(w, a) && t < |w.j.trades| && !BooksExit(w, a, t)
    ensures t < |Do(w, a).j.trades| && Do(w, a).j.trades[t].gross == w.j.trades[t].gross
  {
    if a.Observe? { ReportEffect(w.j, a.order, a.report); }
    if a.Discover? { DiscoverKeepsRows(w, a.order, a.kinds); }
  }

  ghost function FillCount(run: seq<Action>, t: nat): nat
    requires IsRun(INITIAL, run)
    decreases |run|
  {
    if run == [] then 0
    else
      var front := run[..|run| - 1];
      FillCount(front, t) + if BooksExit(After(INITIAL, front), run[|run| - 1], t) then 1 else 0
  }

  /** How far steps other than exit fills moved the exact figure: the broker re-pricing shares it had already
      reported, or a late entry fill changing the entry price. */
  ghost function Restated(run: seq<Action>, t: nat): real
    requires IsRun(INITIAL, run) && Shaped(After(INITIAL, run)) && t < |After(INITIAL, run).j.trades|
    decreases |run|
  {
    if run == [] then 0.0
    else
      var front, a := run[..|run| - 1], run[|run| - 1];
      RunShaped(INITIAL, front);
      var w := After(INITIAL, front);
      if t >= |w.j.trades| then 0.0
      else
        Restated(front, t)
          + if BooksExit(w, a, t) then 0.0 else ExactPnl(After(INITIAL, run).j, t) - ExactPnl(w.j, t)
  }

  /** Stored gross of `t` is the exact figure less `restated`, up to half a cent for each of `fills` fills. */
  ghost predicate Within(j: Journal, t: nat, restated: real, fills: nat)
    requires t < |j.trades|
  {
    Abs(j.trades[t].gross - (ExactPnl(j, t) - restated)) <= 0.005 * fills as real
  }

  lemma PnlStep(w: World, a: Action, t: nat, restated: real, fills: nat)
    requires Shaped(w) && Enabled(w, a) && t < |w.j.trades|
    requires Within(w.j, t, restated, fills)
    ensures t < |Do(w, a).j.trades|
    ensures var moved := if BooksExit(w, a, t) then 0.0 else ExactPnl(Do(w, a).j, t) - ExactPnl(w.j, t);
      Within(Do(w, a).j, t, restated + moved, fills + if BooksExit(w, a, t) then 1 else 0)
  {
    if BooksExit(w, a, t) { BookedExit(w.j, a.order, a.report, t); } else { GrossOnlyByExits(w, a, t); }
  }

  /** For any number and interleaving of exit observations, stored gross profit equals signed exit notional
      minus entry notional, less what was restated without a fill, up to half a cent per applied fill. */
  lemma {:induction false} PnlIsPathIndependent(run: seq<Action>, t: nat)
    requires IsRun(INITIAL, run) && Shaped(After(INITIAL, run)) && t < |After(INITIAL, run).j.trades|
    ensures Within(After(INITIAL, run).j, t, Restated(run, t), FillCount(run, t))
    decreases |run|
  {
    if run == [] {
    } else {
      var front := run[..|run| - 1];
      RunShaped(INITIAL, front);
      if t < |After(INITIAL, front).j.trades| { PnlIsPathIndependent(front, t); }
      PnlLastStep(run, t);
    }
  }

  lemma PnlLastStep(run: seq<Action>, t: nat)
    requires run != [] && IsRun(INITIAL, run) && Shaped(After(INITIAL, run)) && t < |After(INITIAL, run).j.trades|
    requires var front := run[..|run| - 1];
      && Shaped(After(INITIAL, front))
      && (t < |After(INITIAL, front).j.trades| ==>
        Within(After(INITIAL, front).j, t, Restated(front, t), FillCount(front, t)))
    ensures Within(After(INITIAL, run).j, t, Restated(run, t), FillCount(run, t))
  {
    var front, a := run[..|run| - 1], run[|run| - 1];
    var w := After(INITIAL, front);
    LastStep(run, t);
    if t < |w.j.trades| {
      PnlStep(w, a, t, Restated(front, t), FillCount(front, t));
    } else {
      FirstFillIsExact(w, a, t);
    }
  }

  /** What the last step of a run adds to the totals of trade `t`. */
  lemma LastStep(run: seq<Action>, t: nat)
    requires run != [] && IsRun(INITIAL, run) && Shaped(After(INITIAL, run)) && t < |After(INITIAL, run).j.trades|
    ensures var front, a := run[..|run| - 1], run[|run| - 1];
      && IsRun(INITIAL, front) && Shaped(After(INITIAL, front)) && Enabled(After(INITIAL, front), a)
      && var w, w' := After(INITIAL, front), After(INITIAL, run);
      && w' == Do(w, a)
      && (t < |w.j.trades| ==>
        && FillCount(run, t) == FillCount(front, t) + (if BooksExit(w, a, t) then 1 else 0)
        && Restated(run, t) == Restated(front, t)
          + (if BooksExit(w, a, t) then 0.0 else ExactPnl(w'.j, t) - ExactPnl(w.j, t)))
      && (t >= |w.j.trades| ==> Restated(run, t) == 0.0)
  {
    RunShaped(INITIAL, run[..|run| - 1]);
  }

  /** A new trade has sold nothing and stores nothing. */
  lemma FirstFillIsExact(w: World, a: Action, t: nat)
    requires Shaped(w) && Enabled(w, a) && |w.j.trades| <= t < |Do(w, a).j.trades|
    ensures Do(w, a).j.trades[t].gross == 0.0 == ExactPnl(Do(w, a).j, t)
  {
    StepShaped(w, a);
    if a.Discover? { DiscoverKeepsRows(w, a.order, a.kinds); }
    ReportEffect(w.j, a.order, a.report);
    NewTradeDrift(w, a.order, a.report, a.emitted);
    forall i | 0 <= i < |w.j.orders| ensures NotionalWeight(Do(w, a).j.orders[i], t) == 0.0 {
      assert RowLinked(w.j, i);
    }
    SumRZero(NotionalWeights(Do(w, a).j.orders, t));
  }

  // --- when nothing is restated ---

  /** The broker changes an order's average price only together with its filled quantity. */
  ghost predicate PriceStable(j: Journal, a: Action) {
    (a.Observe? && a.order < |j.orders| && j.orders[a.order].applied > 0
     && a.report.filled == j.orders[a.order].applied as real) ==> a.report.price == Some(j.orders[a.order].price)
  }

  ghost predicate PricesStable(run: seq<Action>)
    requires IsRun(INITIAL, run)
    decreases |run|
  {
    run != [] ==>
      var front := run[..|run| - 1];
      PricesStable(front) && PriceStable(After(INITIAL, front).j, run[|run| - 1])
  }

  lemma NothingSold(orders: seq<Order>, t: nat)
    requires ExitsApplied(orders, t) == 0
    ensures Notional(orders, t) == 0.0
  {
    forall i | 0 <= i < |orders| ensures ExitWeight(orders[i], t) == 0 {
      var rest := ExitWeights(orders, t)[i := 0];
      SumUpdate(ExitWeights(orders, t), i, 0);
      var zeros := seq(|rest|, k => 0);
      SumZero(zeros);
      SumMonotone(zeros, rest);
    }
    SumRZero(NotionalWeights(orders, t));
  }

  lemma UnbookedReport(j: Journal, id: nat, report: Report, t: nat)
    requires Linked(j) && id < |j.orders| && !FillsExit(j, id, report, t) && ApplyReport(j, id, report).Ok?
    requires j.orders[id].applied > 0 && report.filled == j.orders[id].applied as real ==>
      report.price == Some(j.orders[id].price)
    ensures var j' := ApplyReport(j, id, report).value;
      ExitsApplied(j'.orders, t) == ExitsApplied(j.orders, t) && Notional(j'.orders, t) == Notional(j.orders, t)
  {
    var j' := ApplyReport(j, id, report).value;
    ReportEffect(j, id, report);
    assert RowLinked(j, id);
    assert ExitWeight(j'.orders[id], t) == ExitWeight(j.orders[id], t);
    assert NotionalWeight(j'.orders[id], t) == NotionalWeight(j.orders[id], t);
    assert ExitWeights(j.orders, t) == ExitWeights(j'.orders, t);
    assert NotionalWeights(j.orders, t) == NotionalWeights(j'.orders, t);
  }

  lemma UnbookedSums(w: World, a: Action, t: nat)
    requires Shaped(w) && Enabled(w, a) && !BooksExit(w, a, t) && PriceStable(w.j, a)
    ensures ExitsApplied(Do(w, a).j.orders, t) == ExitsApplied(w.j.orders, t)
    ensures Notional(Do(w, a).j.orders, t) == Notional(w.j.orders, t)
  {
    if a.Observe? {
      UnbookedReport(w.j, a.order, a.report, t);
    } else if a.Discover? {
      DiscoverKeepsExits(w, a.order, a.kinds, t);
      DiscoverKeepsNotional(w, a.order, a.kinds, t);
    } else {
      SilentSums(w, a, t);
    }
  }

  lemma SilentSums(w: World, a: Action, t: nat)
    requires Shaped(w) && Enabled(w, a) && !a.Observe? && !a.Discover?
    ensures ExitsApplied(Do(w, a).j.orders, t) == ExitsApplied(w.j.orders, t)
    ensures Notional(Do(w, a).j.orders, t) == Notional(w.j.orders, t)
  {
    var before, after := w.j.orders, Do(w, a).j.orders;
    SumPadded(ExitWeights(before, t), ExitWeights(after, t));
    SumRPadded(NotionalWeights(before, t), NotionalWeights(after, t));
  }

  lemma {:induction false} DiscoverKeepsNotional(w: World, id: nat, kinds: seq<LegKind>, t: nat)
    requires Shaped(w) && id < |w.j.orders| && w.j.orders[id].IsEntry()
    ensures Notional(DiscoverAll(w, id, kinds).j.orders, t) == Notional(w.j.orders, t)
  {
    if kinds == [] {
    } else {
      var front := kinds[..|kinds| - 1];
      DiscoverKeepsNotional(w, id, front, t);
      DiscoverAllShaped(w, id, front);
      RegisterKeepsNotional(DiscoverAll(w, id, front).j, id, kinds[|kinds| - 1], t);
    }
  }

  lemma RegisterKeepsNotional(j: Journal, id: nat, kind: LegKind, t: nat)
    requires Linked(j) && id < |j.orders|
    ensures Notional(RegisterLeg(j.orders, id, kind), t) == Notional(j.orders, t)
  {
    var orders := RegisterLeg(j.orders, id, kind);
    forall i | 0 <= i < |j.orders| ensures NotionalWeight(orders[i], t) == NotionalWeight(j.orders[i], t) {
      assert RowLinked(j, i);
    }
    SumRPadded(NotionalWeights(j.orders, t), NotionalWeights(orders, t));
  }

  lemma UnbookedIsUnchanged(w: World, a: Action, t: nat)
    requires Shaped(w) && Enabled(w, a) && t < |w.j.trades|
    requires !BooksExit(w, a, t) && !Late(w, a, t) && PriceStable(w.j, a)
    ensures t < |Do(w, a).j.trades| && ExactPnl(Do(w, a).j, t) == ExactPnl(w.j, t)
  {
    TradesOnlyGrow(w, a);
    UnbookedSums(w, a, t);
    EntryPriceMoves(w, a, t);
    if EntryGrows(w, a, t) {
      ExitsNonNegative(w.j.orders, t);
      NothingSold(w.j.orders, t);
    }
  }

  lemma EntryPriceMoves(w: World, a: Action, t: nat)
    requires Shaped(w) && Enabled(w, a) && t < |w.j.trades| && !BooksExit(w, a, t)
    ensures t < |Do(w, a).j.trades| && Do(w, a).j.trades[t].direction == w.j.trades[t].direction
    ensures !EntryGrows(w, a, t) ==> Do(w, a).j.trades[t].entry == w.j.trades[t].entry
  {
    if a.Observe? { ReportEffect(w.j, a.order, a.report); assert RowLinked(w.j, a.order); }
    if a.Discover? { DiscoverKeepsRows(w, a.order, a.kinds); }
  }

  /** Without late entry growth and with stable prices nothing is restated. */
  lemma {:induction false} NothingRestated(run: seq<Action>, t: nat)
    requires IsRun(INITIAL, run) && Shaped(After(INITIAL, run)) && t < |After(INITIAL, run).j.trades|
    requires PricesStable(run) && !LateIn(run, t)
    ensures Restated(run, t) == 0.0
    decreases |run|
  {
    if run == [] {
    } else {
      var front, a := run[..|run| - 1], run[|run| - 1];
      RunShaped(INITIAL, front);
      var w := After(INITIAL, front);
      if t < |w.j.trades| {
        NothingRestated(front, t);
        if !BooksExit(w, a, t) { UnbookedIsUnchanged(w, a, t); }
      }
    }
  }

  /** Exit price times shares is the exit notional, up to half a cent for each of `fills` fills. */
  ghost predicate ClosedAtAverage(j: Journal, t: nat, fills: nat) {
    && t < |j.trades| && j.trades[t].exitPrice.Some?
    && Abs(Value(j.trades[t].shares, j.trades[t].exitPrice.value) - Notional(j.orders, t)) <= 0.005 * fills as real
  }

  /** The exit price stored on closing is the share-weighted average exit price, up to the rounding of the
      fills booked before it. */
  lemma ClosingPriceIsAverage(run: seq<Action>, a: Action, t: nat)
    requires IsRun(INITIAL, run) && Shaped(After(INITIAL, run)) && t < |After(INITIAL, run).j.trades|
    requires PricesStable(run) && !LateIn(run, t)
    requires Enabled(After(INITIAL, run), a) && BooksExit(After(INITIAL, run), a, t)
    requires t < |Do(After(INITIAL, run), a).j.trades| && Do(After(INITIAL, run), a).j.trades[t].remaining == 0
    ensures ClosedAtAverage(Do(After(INITIAL, run), a).j, t, FillCount(run, t))
  {
    PnlIsPathIndependent(run, t);
    NothingRestated(run, t);
    RunDrift(run, t);
    ClosingAt(After(INITIAL, run), a, t, FillCount(run, t));
  }

  lemma ClosingAt(w: World, a: Action, t: nat, fills: nat)
    requires Shaped(w) && Enabled(w, a) && t < |w.j.trades| && BooksExit(w, a, t)
    requires Drift(w, t) == 0 && Within(w.j, t, 0.0, fills)
    requires t < |Do(w, a).j.trades| && Do(w, a).j.trades[t].remaining == 0
    ensures ClosedAtAverage(Do(w, a).j, t, fills)
  {
    ClosingPrice(w.j, a.order, a.report, t);
  }

  lemma ClosingPrice(j: Journal, id: nat, report: Report, t: nat)
    requires Linked(j) && FillsExit(j, id, report, t) && ApplyReport(j, id, report).Ok? && t < |j.trades|
    requires j.trades[t].remaining == j.trades[t].shares - ExitsApplied(j.orders, t)
    requires t < |ApplyReport(j, id, report).value.trades| && ApplyReport(j, id, report).value.trades[t].remaining == 0
    ensures var j' := ApplyReport(j, id, report).value;
      && j'.trades[t].exitPrice.Some?
      && Abs(Value(j'.trades[t].shares, j'.trades[t].exitPrice.value) - Notional(j'.orders, t))
         == Abs(j.trades[t].gross - ExactPnl(j, t))
  {
    FillRow(j, id, report, t);
    FillTotals(j, id, report, t);
    ReportShares(j, id, report, t);
    ExitsNonNegative(j.orders, t);
    var row' := ApplyReport(j, id, report).value.orders[id];
    assert j.trades[t].shares == ExitsApplied(j.orders, t) + row'.applied - j.orders[id].applied;
    ClosingArithmetic(j.trades[t], j.orders[id], row'.applied, row'.price, ExitsApplied(j.orders, t),
                      Notional(j.orders, t));
    assert ApplyExitFill(j.trades[t], j.orders[id], row'.applied, row'.price).value
      == ApplyReport(j, id, report).value.trades[t];
  }
}
