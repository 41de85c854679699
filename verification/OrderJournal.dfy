/** The durable order journal: the `orders` and `trades` tables and the transactions that rewrite them. */
module OrderJournal {
  import opened Common

  type Ticker = string

  datatype Purpose = Entry | Exit

  datatype LegKind = TargetLeg | StopLeg

  /** PendingSubmission and Unresolved are written by this process only; the rest are broker states. */
  datatype OrderState =
    | PendingSubmission | Unresolved
    | New | Accepted | Held | PartiallyFilled | OtherActive | Suspended
    | Filled | Canceled | Rejected | Expired
  {
    predicate Terminal() { Filled? || Canceled? || Rejected? || Expired? }

    predicate RestingLeg() { New? || Accepted? || Held? || PartiallyFilled? }
  }

  /** A bracket leg is identified by the entry order that spawned it and its kind. */
  datatype Parent = Parent(order: nat, kind: LegKind)

  /** One row of `orders`; its position in the table is its identity. */
  datatype Order = Order(
    ticker: Ticker, purpose: Purpose, direction: Direction, state: OrderState,
    requested: nat, applied: nat, price: real,
    tradeId: Option<nat>, brokerKnown: bool,
    parent: Option<Parent>, protectiveQty: Option<int>, flatten: bool)
  {
    predicate IsEntry() { purpose.Entry? }

    predicate IsLeg() { parent.Some? }

    predicate IsMarketExit() { purpose.Exit? && parent.None? }
  }

  /** One row of `trades`; `open` is outcome = OPEN. */
  datatype Trade = Trade(
    ticker: Ticker, direction: Direction, entryOrder: nat,
    entry: real, shares: nat, remaining: nat,
    gross: real, open: bool, exitPrice: Option<real>, pendingExit: bool)

  datatype Journal = Journal(orders: seq<Order>, trades: seq<Trade>)

  /** What the broker answered about one order. */
  datatype Report = Report(state: OrderState, filled: real, price: Option<real>, quantity: Option<real>)

  /** Cross references between the two tables. */
  ghost predicate Linked(j: Journal) {
    && (forall i :: 0 <= i < |j.orders| ==> RowLinked(j, i))
    && (forall t :: 0 <= t < |j.trades| ==> TradeLinked(j, t))
    && (forall a, b :: 0 <= a < b < |j.orders| && j.orders[a].IsLeg() ==> j.orders[a].parent != j.orders[b].parent)
  }

  ghost predicate RowLinked(j: Journal, i: nat)
    requires i < |j.orders|
  {
    var o := j.orders[i];
    && o.applied <= o.requested
    && (o.tradeId.Some? ==>
      o.tradeId.value < |j.trades| && j.trades[o.tradeId.value].ticker == o.ticker
      && j.trades[o.tradeId.value].direction == o.direction)
    && (o.applied > 0 ==> o.tradeId.Some?)
    && (o.IsEntry() ==> !o.IsLeg())
    && (o.IsEntry() && o.tradeId.Some? ==> o.applied > 0 && j.trades[o.tradeId.value].entryOrder == i)
    && (o.IsMarketExit() ==> o.tradeId.Some? && j.trades[o.tradeId.value].entryOrder < i)
    && (o.IsLeg() ==>
      var p := o.parent.value.order;
      && p < i && j.orders[p].IsEntry()
      && j.orders[p].ticker == o.ticker && j.orders[p].direction == o.direction
      && !o.state.PendingSubmission?
      && (o.tradeId.Some? ==> o.tradeId == j.orders[p].tradeId))
  }

  ghost predicate TradeLinked(j: Journal, t: nat)
    requires t < |j.trades|
  {
    var e := j.trades[t].entryOrder;
    e < |j.orders| && j.orders[e].IsEntry() && j.orders[e].tradeId == Some(t)
    && j.orders[e].ticker == j.trades[t].ticker && j.orders[e].direction == j.trades[t].direction
    && j.trades[t].shares == j.orders[e].applied
  }

  /** Shares sold against trade `t` by one row of the orders table. */
  function ExitWeight(o: Order, t: nat): nat {
    if o.purpose.Exit? && o.tradeId == Some(t) then o.applied else 0
  }

  function ExitWeights(orders: seq<Order>, t: nat): (w: seq<int>)
    ensures |w| == |orders| && forall i :: 0 <= i < |orders| ==> w[i] == ExitWeight(orders[i], t)
  {
    seq(|orders|, i requires 0 <= i < |orders| => ExitWeight(orders[i], t))
  }

  /** Shares applied over all exit orders (legs and market exits) of trade `t`. */
  function ExitsApplied(orders: seq<Order>, t: nat): int {
    Sum(ExitWeights(orders, t))
  }

  /** Cumulative quantity and price the broker reported, or Err where the executor raises. */
  function ValidatedFill(row: Order, report: Report): Result<nat> {
    if report.filled < row.applied as real || report.filled > row.requested as real
       || report.filled.Floor as real != report.filled then Err
    else
      var qty := report.filled.Floor;
      if qty > 0 && (report.price.None? || report.price.value <= 0.0) then Err
      else if report.state.Filled? && qty != row.requested && !row.IsLeg() then Err
      else Ok(qty)
  }

  function ValidatedLegQuantity(report: Report, filled: nat): Result<int> {
    if report.quantity.None? || report.quantity.value < filled as real
       || report.quantity.value.Floor as real != report.quantity.value then Err
    else Ok(report.quantity.value.Floor)
  }

  /** First entry fill creates the trade; a later one overwrites price, shares and remaining shares. */
  function ApplyEntryFill(j: Journal, id: nat, qty: nat, price: real): (r: (seq<Trade>, nat))
    requires id < |j.orders|
    requires j.orders[id].tradeId.Some? ==> j.orders[id].tradeId.value < |j.trades|
  {
    var row := j.orders[id];
    match row.tradeId
    case None =>
      (j.trades + [Trade(row.ticker, row.direction, id, price, qty, qty, 0.0, true, None, false)], |j.trades|)
    case Some(t) =>
      (j.trades[t := j.trades[t].(entry := price, shares := qty, remaining := qty)], t)
  }

  /** Realized gross result of the newly observed exit shares on top of what was stored. */
  function ExitGross(trade: Trade, row: Order, qty: int, price: real): real {
    var delta := qty - row.applied;
    var notional := qty as real * price - row.applied as real * row.price;
    trade.gross + trade.direction.SignedAmount(notional - delta as real * trade.entry)
  }

  function ApplyExitFill(trade: Trade, row: Order, qty: nat, price: real): Result<Trade>
    requires trade.shares > 0 && qty > row.applied
  {
    var delta := qty - row.applied;
    var gross := ExitGross(trade, row, qty, price);
    if trade.remaining - delta < 0 then Err
    else if trade.remaining == delta then
      Ok(trade.(remaining := 0, gross := RoundEven2(gross), open := false,
                exitPrice := Some(trade.entry + trade.direction.SignedAmount(gross) / trade.shares as real)))
    else Ok(trade.(remaining := trade.remaining - delta, gross := RoundEven2(gross)))
  }

  /** The whole transaction that records one broker report. Err leaves the database untouched. */
  function ApplyReport(j: Journal, id: nat, report: Report): Result<Journal>
    requires id < |j.orders| && Linked(j)
  {
    var row := j.orders[id];
    assert RowLinked(j, id);
    match ValidatedFill(row, report)
    case Err => Err
    case Ok(qty) =>
      var leg := if row.IsLeg() then ValidatedLegQuantity(report, qty) else Ok(0);
      if leg.Err? then Err else
      var protective := if row.IsLeg() then Some(leg.value) else row.protectiveQty;
      var price := if report.price.Some? then report.price.value else 0.0;
      var updated := row.(state := report.state, applied := qty, price := price,
                          brokerKnown := true, protectiveQty := protective);
      if qty <= row.applied then Ok(j.(orders := j.orders[id := updated]))
      else if row.IsEntry() then
        var (trades, t) := ApplyEntryFill(j, id, qty, price);
        Ok(Journal(j.orders[id := updated.(tradeId := Some(t))], trades))
      else if row.tradeId.None? then Err
      else
        var t := row.tradeId.value;
        assert TradeLinked(j, t) && RowLinked(j, j.trades[t].entryOrder);
        match ApplyExitFill(j.trades[t], row, qty, price)
        case Err => Err
        case Ok(trade) => Ok(Journal(j.orders[id := updated], j.trades[t := trade]))
  }

  /** Row of the leg `parent`, if the journal knows it. */
  function FindLeg(orders: seq<Order>, parent: Parent): (r: Option<nat>)
    ensures r.Some? ==> r.value < |orders| && orders[r.value].parent == Some(parent)
    ensures r.None? ==> forall i :: 0 <= i < |orders| ==> orders[i].parent != Some(parent)
  {
    if orders == [] then None
    else
      var last := |orders| - 1;
      if orders[last].parent == Some(parent) then Some(last) else FindLeg(orders[..last], parent)
  }

  /** Persist one broker-generated child of entry `id`, or link a known one to the parent's trade. */
  function RegisterLeg(orders: seq<Order>, id: nat, kind: LegKind): (r: seq<Order>)
    requires id < |orders|
    ensures |orders| <= |r|
  {
    var parent := orders[id];
    match FindLeg(orders, Parent(id, kind))
    case None =>
      orders + [Order(parent.ticker, Exit, parent.direction, New, parent.requested, 0, 0.0,
                      parent.tradeId, true, Some(Parent(id, kind)), None, false)]
    case Some(row) =>
      if parent.tradeId.Some? then orders[row := orders[row].(tradeId := parent.tradeId)] else orders
  }

  function BothLegsKnown(orders: seq<Order>, entry: nat): bool {
    FindLeg(orders, Parent(entry, TargetLeg)).Some? && FindLeg(orders, Parent(entry, StopLeg)).Some?
  }

  predicate TickerSettled(orders: seq<Order>, ticker: Ticker) {
    forall i :: 0 <= i < |orders| && orders[i].ticker == ticker ==> orders[i].state.Terminal()
  }

  predicate TickerOpen(trades: seq<Trade>, ticker: Ticker) {
    exists t :: 0 <= t < |trades| && trades[t].ticker == ticker && trades[t].open
  }

  // --- what the transactions keep ---

  /** The part of a row that no transaction rewrites. */
  predicate SameIdentity(o: Order, o': Order) {
    && o'.ticker == o.ticker && o'.purpose == o.purpose && o'.direction == o.direction
    && o'.requested == o.requested && o'.parent == o.parent
  }

  /** Rewriting one row and, if it names one, its trade keeps the cross references. */
  lemma ReplaceKeepsLinks(j: Journal, id: nat, o: Order, trades: seq<Trade>)
    requires id < |j.orders| && Linked(j) && SameIdentity(j.orders[id], o)
    requires o.applied <= o.requested && (o.applied > 0 ==> o.tradeId.Some?)
    requires o.IsLeg() ==> !o.state.PendingSubmission?
    requires o.tradeId == j.orders[id].tradeId && |trades| == |j.trades|
    requires o.IsEntry() && o.tradeId.Some? ==> o.applied > 0
    requires forall t :: 0 <= t < |trades| ==>
      && trades[t].ticker == j.trades[t].ticker && trades[t].direction == j.trades[t].direction
      && trades[t].entryOrder == j.trades[t].entryOrder
      && trades[t].shares == if o.IsEntry() && o.tradeId == Some(t) then o.applied else j.trades[t].shares
    ensures Linked(Journal(j.orders[id := o], trades))
  {
    var j' := Journal(j.orders[id := o], trades);
    forall i | 0 <= i < |j'.orders| ensures RowLinked(j', i) {
      assert RowLinked(j, i);
    }
    forall t | 0 <= t < |j'.trades| ensures TradeLinked(j', t) {
      assert TradeLinked(j, t) && RowLinked(j, id);
    }
  }

  /** The first fill of entry `id` appends its trade. */
  lemma NewTradeKeepsLinks(j: Journal, id: nat, o: Order, trade: Trade)
    requires id < |j.orders| && Linked(j) && SameIdentity(j.orders[id], o)
    requires o.IsEntry() && 0 < o.applied <= o.requested && j.orders[id].tradeId.None?
    requires o.tradeId == Some(|j.trades|)
    requires trade.ticker == o.ticker && trade.direction == o.direction
    requires trade.entryOrder == id && trade.shares == o.applied
    ensures Linked(Journal(j.orders[id := o], j.trades + [trade]))
  {
    var j' := Journal(j.orders[id := o], j.trades + [trade]);
    forall i | 0 <= i < |j'.orders| ensures RowLinked(j', i) {
      assert RowLinked(j, i) && RowLinked(j, id);
      if j.orders[i].tradeId.Some? { assert TradeLinked(j, j.orders[i].tradeId.value); }
    }
    forall t | 0 <= t < |j'.trades| ensures TradeLinked(j', t) {
      assert RowLinked(j, id);
      if t < |j.trades| { assert TradeLinked(j, t); }
    }
  }

  lemma ApplyReportKeepsLinks(j: Journal, id: nat, report: Report)
    requires id < |j.orders| && Linked(j)
    requires ApplyReport(j, id, report).Ok? && !report.state.PendingSubmission?
    ensures Linked(ApplyReport(j, id, report).value)
  {
    var j' := ApplyReport(j, id, report).value;
    var row := j.orders[id];
    assert RowLinked(j, id);
    if row.IsEntry() && row.tradeId.None? && row.applied < j'.orders[id].applied {
      NewTradeKeepsLinks(j, id, j'.orders[id], j'.trades[|j.trades|]);
    } else {
      if row.tradeId.Some? { assert TradeLinked(j, row.tradeId.value); }
      ReplaceKeepsLinks(j, id, j'.orders[id], j'.trades);
    }
  }

  /** When a report is refused: the fill is no whole number from what was recorded to what was requested, is not priced,
      or falls short of an order called filled; a leg's quantity is no whole number that includes its fill; or it sells
      more than remains, or shares of no trade. */
  lemma ReportAcceptedExactly(j: Journal, id: nat, report: Report)
    requires id < |j.orders| && Linked(j)
    ensures var o := j.orders[id];
      ApplyReport(j, id, report).Ok? <==>
        && IsWhole(report.filled) && o.applied as real <= report.filled <= o.requested as real
        && (report.filled > 0.0 ==> report.price.Some? && report.price.value > 0.0)
        && (report.state == Filled && o.parent.None? ==> report.filled == o.requested as real)
        && (o.parent.Some? ==>
          report.quantity.Some? && IsWhole(report.quantity.value) && report.filled <= report.quantity.value)
        && (o.purpose == Exit && report.filled > o.applied as real ==>
          && o.tradeId.Some? && o.tradeId.value < |j.trades|
          && report.filled - o.applied as real <= j.trades[o.tradeId.value].remaining as real)
  {
    assert RowLinked(j, id);
    if j.orders[id].tradeId.Some? { assert TradeLinked(j, j.orders[id].tradeId.value); }
  }

  predicate IsWhole(x: real) { x.Floor as real == x }

  /** What a recorded report changes: one row, and at most the trade that row names. */
  lemma ReportEffect(j: Journal, id: nat, report: Report)
    requires id < |j.orders| && Linked(j) && ApplyReport(j, id, report).Ok?
    ensures var j', o := ApplyReport(j, id, report).value, j.orders[id];
      var o' := if id < |j'.orders| then j'.orders[id] else o;
      && |j'.orders| == |j.orders| && j'.orders == j.orders[id := o'] && SameIdentity(o, o')
      && o'.state == report.state && o'.applied as real == report.filled && o.applied <= o'.applied
      && o'.price == (if report.price.Some? then report.price.value else 0.0)
      && o'.brokerKnown && o'.flatten == o.flatten
      && (if o.IsLeg() then o'.protectiveQty.Some? && Some(o'.protectiveQty.value as real) == report.quantity
          else o'.protectiveQty == o.protectiveQty)
      && (o.tradeId.Some? ==> o'.tradeId == o.tradeId)
      && (o'.applied == o.applied ==> o'.tradeId == o.tradeId && j'.trades == j.trades)
      && (o'.applied > o.applied ==>
        && o'.tradeId.Some? && o'.tradeId.value < |j'.trades|
        && if o.tradeId.Some? then
             && |j'.trades| == |j.trades| && o.tradeId.value < |j.trades|
             && j'.trades == j.trades[o.tradeId.value := j'.trades[o.tradeId.value]]
             && j'.trades[o.tradeId.value].ticker == j.trades[o.tradeId.value].ticker
             && j'.trades[o.tradeId.value].direction == j.trades[o.tradeId.value].direction
             && j'.trades[o.tradeId.value].entryOrder == j.trades[o.tradeId.value].entryOrder
             && (j'.trades[o.tradeId.value].open ==> j.trades[o.tradeId.value].open)
           else
             && o.IsEntry() && o'.tradeId.value == |j.trades| && |j'.trades| == |j.trades| + 1
             && j'.trades[..|j.trades|] == j.trades
             && j'.trades[|j.trades|].entryOrder == id && j'.trades[|j.trades|].open
             && j'.trades[|j.trades|].remaining == j'.trades[|j.trades|].shares == o'.applied)
  {
    assert RowLinked(j, id);
    if j.orders[id].tradeId.Some? { assert TradeLinked(j, j.orders[id].tradeId.value); }
  }

  /** Shares after a report that fills order `id` of the existing trade `t` further. */
  lemma ReportShares(j: Journal, id: nat, report: Report, t: nat)
    requires id < |j.orders| && Linked(j) && ApplyReport(j, id, report).Ok?
    requires j.orders[id].tradeId == Some(t) && report.filled > j.orders[id].applied as real
    ensures var j', o := ApplyReport(j, id, report).value, j.orders[id];
      && t < |j.trades| == |j'.trades| && |j'.orders| == |j.orders|
      && if o.IsEntry() then
           j'.trades[t].remaining == j'.trades[t].shares == j'.orders[id].applied
           && j'.trades[t].open == j.trades[t].open
         else
           j'.trades[t].remaining + j'.orders[id].applied == j.trades[t].remaining + o.applied
           && j'.trades[t].shares == j.trades[t].shares
           && j'.trades[t].open == (j.trades[t].open && j'.trades[t].remaining > 0)
  {
    assert RowLinked(j, id) && TradeLinked(j, t);
  }

  lemma RegisterLegKeepsLinks(j: Journal, id: nat, kind: LegKind)
    requires id < |j.orders| && Linked(j) && j.orders[id].IsEntry()
    ensures Linked(j.(orders := RegisterLeg(j.orders, id, kind)))
    ensures RegisterLeg(j.orders, id, kind)[id] == j.orders[id]
  {
    var j' := j.(orders := RegisterLeg(j.orders, id, kind));
    assert RowLinked(j, id);
    forall i | 0 <= i < |j'.orders| ensures RowLinked(j', i) {
      if i < |j.orders| { assert RowLinked(j, i); }
      if j'.orders[i].IsLeg() && i < |j.orders| { assert RowLinked(j, j.orders[i].parent.value.order); }
    }
    forall t | 0 <= t < |j'.trades| ensures TradeLinked(j', t) {
      assert TradeLinked(j, t) && RowLinked(j, j.trades[t].entryOrder);
    }
  }
}
