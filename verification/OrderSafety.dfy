/** A flatten never oversells: the broker position stays on one side of zero and follows the journal's campaigns. */
module OrderSafety {
  import opened Common
  import opened OrderJournal
  import opened OrderProtocol
  import opened OrderTruth
  import opened OrderConservation

  // --- what the broker holds ---

  ghost predicate MarketOf(w: World, i: nat, t: nat)
    requires i < |w.j.orders|
  {
    w.j.orders[i].IsMarketExit() && w.j.orders[i].tradeId == Some(t)
  }

  ghost function SoldWeights(w: World, t: nat): (s: seq<int>)
    requires Shaped(w)
    ensures |s| == |w.j.orders|
    ensures forall i :: 0 <= i < |s| ==> s[i] == if MarketOf(w, i, t) then w.remote[i].filled else 0
  {
    seq(|w.j.orders|, i requires 0 <= i < |w.j.orders| => if MarketOf(w, i, t) then w.remote[i].filled else 0)
  }

  /** Shares of trade `t` the broker sold through market exits. */
  ghost function Sold(w: World, t: nat): int
    requires Shaped(w)
  {
    Sum(SoldWeights(w, t))
  }

  ghost function PledgeWeights(w: World, t: nat): (s: seq<int>)
    requires Shaped(w)
    ensures |s| == |w.j.orders|
    ensures forall i :: 0 <= i < |s| ==>
      s[i] == if !MarketOf(w, i, t) then 0 else if Dead(w, i) then w.remote[i].filled else w.j.orders[i].requested
  {
    seq(|w.j.orders|, i requires 0 <= i < |w.j.orders| =>
      if !MarketOf(w, i, t) then 0 else if Dead(w, i) then w.remote[i].filled else w.j.orders[i].requested)
  }

  /** Shares of trade `t` that market exits sold or may still sell. */
  ghost function Pledged(w: World, t: nat): int
    requires Shaped(w)
  {
    Sum(PledgeWeights(w, t))
  }

  /** Bought by entry `e` minus what its bracket legs sold. */
  ghost function AfterLegs(w: World, e: nat): int
    requires Shaped(w) && e < |w.j.orders|
  {
    w.remote[e].filled - w.remote[e].LegsFilled()
  }

  /** Shares of the campaign of entry `e` still at the broker. */
  ghost function Net(w: World, e: nat): int
    requires Shaped(w) && e < |w.j.orders|
  {
    AfterLegs(w, e) - match w.j.orders[e].tradeId case None => 0 case Some(t) => Sold(w, t)
  }

  ghost function PositionWeight(w: World, i: nat, ticker: Ticker): int
    requires Shaped(w) && i < |w.j.orders|
  {
    var o := w.j.orders[i];
    if o.ticker != ticker || o.IsLeg() then 0
    else if o.IsEntry() then o.direction.Signed(AfterLegs(w, i))
    else o.direction.Signed(0 - w.remote[i].filled)
  }

  ghost function PositionWeights(w: World, ticker: Ticker): (s: seq<int>)
    requires Shaped(w)
    ensures |s| == |w.j.orders|
    ensures forall i :: 0 <= i < |s| ==> s[i] == PositionWeight(w, i, ticker)
  {
    seq(|w.j.orders|, i requires 0 <= i < |w.j.orders| => PositionWeight(w, i, ticker))
  }

  /** The signed position the broker's account shows for `ticker`. */
  ghost function Position(w: World, ticker: Ticker): int
    requires Shaped(w)
  {
    Sum(PositionWeights(w, ticker))
  }

  predicate IsLatest(orders: seq<Order>, ticker: Ticker, e: nat) {
    && e < |orders| && orders[e].IsEntry() && orders[e].ticker == ticker
    && forall i :: e < i < |orders| ==> !(orders[i].IsEntry() && orders[i].ticker == ticker)
  }

  function LatestEntry(orders: seq<Order>, ticker: Ticker): (r: Option<nat>)
    ensures r.Some? ==> IsLatest(orders, ticker, r.value)
    ensures r.None? ==> forall i :: 0 <= i < |orders| ==> !(orders[i].IsEntry() && orders[i].ticker == ticker)
  {
    if orders == [] then None
    else
      var last := |orders| - 1;
      if orders[last].IsEntry() && orders[last].ticker == ticker then Some(last)
      else LatestEntry(orders[..last], ticker)
  }

  lemma LatestIsUnique(orders: seq<Order>, ticker: Ticker, e: nat)
    requires IsLatest(orders, ticker, e)
    ensures LatestEntry(orders, ticker) == Some(e)
  {}

  // --- the invariant ---

  ghost predicate AllConserved(w: World)
    requires Shaped(w)
  {
    forall t :: 0 <= t < |w.j.trades| ==>
      Conserved(w, t) && (w.j.trades[t].open <==> w.j.trades[t].remaining > 0)
  }

  /** Market exits come one at a time, after the entry and both legs are finished and observed. */
  ghost predicate ExitsLast(w: World)
    requires Shaped(w)
  {
    && (forall i :: 0 <= i < |w.j.orders| && w.j.orders[i].IsMarketExit() ==> CampaignLocked(w, EntryOf(w, i)))
    && (forall i, k :: 0 <= i < k < |w.j.orders| && TwoExits(w, i, k) ==> Dead(w, i))
  }

  ghost predicate TwoExits(w: World, i: nat, k: nat)
    requires i < |w.j.orders| && k < |w.j.orders|
  {
    w.j.orders[i].IsMarketExit() && w.j.orders[k].IsMarketExit() && w.j.orders[i].ticker == w.j.orders[k].ticker
  }

  ghost predicate CampaignLocked(w: World, e: nat)
    requires Shaped(w)
  {
    && e < |w.j.orders| && Dead(w, e) && w.j.orders[e].applied == w.remote[e].filled
    && w.remote[e].target.done && w.remote[e].stop.done
  }

  /** Market exits never pledge more than the campaign holds, and a live one pledges exactly that. */
  ghost predicate Covered(w: World)
    requires Shaped(w)
  {
    && (forall t :: 0 <= t < |w.j.trades| ==> TradeCovered(w, t))
    && (forall i :: 0 <= i < |w.j.orders| && w.j.orders[i].IsMarketExit() && !Dead(w, i) ==> ExactlyPledged(w, i))
  }

  ghost predicate TradeCovered(w: World, t: nat)
    requires Shaped(w) && t < |w.j.trades|
  {
    assert TradeLinked(w.j, t);
    Pledged(w, t) <= AfterLegs(w, w.j.trades[t].entryOrder)
  }

  ghost predicate ExactlyPledged(w: World, i: nat)
    requires Shaped(w) && i < |w.j.orders| && w.j.orders[i].IsMarketExit()
  {
    assert RowLinked(w.j, i);
    Net(w, EntryOf(w, i)) == w.j.orders[i].requested - w.remote[i].filled
  }

  /** Campaigns that were followed by another one on their ticker are flat at the broker. */
  ghost predicate OldFlat(w: World)
    requires Shaped(w)
  {
    forall e, e' :: 0 <= e < e' < |w.j.orders| && w.j.orders[e].IsEntry() && Precedes(w, e, e') ==> Net(w, e) == 0
  }

  ghost predicate PositionFollows(w: World, ticker: Ticker)
    requires Shaped(w)
  {
    Position(w, ticker) == match LatestEntry(w.j.orders, ticker)
      case None => 0
      case Some(e) => w.j.orders[e].direction.Signed(Net(w, e))
  }

  ghost predicate Safe(w: World) {
    && Base(w) && AllConserved(w) && ExitsLast(w) && Covered(w) && OldFlat(w)
    && (forall ticker: Ticker :: PositionFollows(w, ticker))
  }

  /** The one assumption beyond the broker's own promises: a leg fill is recorded only after the parent's
      final fill was. For market exits nothing is assumed. */
  ghost predicate InOrder(w: World, a: Action)
    requires Shaped(w)
  {
    (a.Observe? && a.order < |w.j.orders| && w.j.orders[a.order].IsEntry()
     && a.report.filled > w.j.orders[a.order].applied as real) ==>
      LegApplied(w.j.orders, a.order, TargetLeg) == 0 == LegApplied(w.j.orders, a.order, StopLeg)
  }

  // --- arithmetic of one campaign ---

  ghost function LegApplied(orders: seq<Order>, e: nat, kind: LegKind): nat {
    match FindLeg(orders, Parent(e, kind)) case None => 0 case Some(i) => orders[i].applied
  }

  ghost function KindWeights(orders: seq<Order>, t: nat, kind: LegKind): (s: seq<int>)
    ensures |s| == |orders|
    ensures forall i :: 0 <= i < |s| ==>
      s[i] == if orders[i].IsLeg() && orders[i].parent.value.kind == kind then ExitWeight(orders[i], t) else 0
  {
    seq(|orders|, i requires 0 <= i < |orders| =>
      if orders[i].IsLeg() && orders[i].parent.value.kind == kind then ExitWeight(orders[i], t) else 0)
  }

  ghost function MarketWeights(orders: seq<Order>, t: nat): (s: seq<int>)
    ensures |s| == |orders|
    ensures forall i :: 0 <= i < |s| ==> s[i] == if orders[i].IsLeg() then 0 else ExitWeight(orders[i], t)
  {
    seq(|orders|, i requires 0 <= i < |orders| => if orders[i].IsLeg() then 0 else ExitWeight(orders[i], t))
  }

  lemma LegKindSum(w: World, t: nat, kind: LegKind)
    requires Shaped(w) && t < |w.j.trades|
    ensures Sum(KindWeights(w.j.orders, t, kind)) == LegApplied(w.j.orders, w.j.trades[t].entryOrder, kind)
  {
    var e := w.j.trades[t].entryOrder;
    var s := KindWeights(w.j.orders, t, kind);
    assert TradeLinked(w.j, t);
    forall i | 0 <= i < |s| && s[i] != 0 ensures w.j.orders[i].parent == Some(Parent(e, kind)) {
      assert RowLinked(w.j, i) && RowLinked(w.j, w.j.orders[i].parent.value.order);
    }
    match FindLeg(w.j.orders, Parent(e, kind))
    case None => SumZero(s);
    case Some(row) =>
      SumSingle(s, row);
      assert RowLinked(w.j, row);
  }

  /** Shares sold over all exits split into the two legs and the market exits. */
  lemma ExitsSplit(w: World, t: nat)
    requires Shaped(w) && t < |w.j.trades|
    ensures var e := w.j.trades[t].entryOrder;
      ExitsApplied(w.j.orders, t) == LegApplied(w.j.orders, e, TargetLeg) + LegApplied(w.j.orders, e, StopLeg)
        + Sum(MarketWeights(w.j.orders, t))
  {
    var orders := w.j.orders;
    var legs := seq(|orders|,
                    i requires 0 <= i < |orders| => if orders[i].IsLeg() then ExitWeight(orders[i], t) else 0);
    SumPointwise(KindWeights(orders, t, TargetLeg), KindWeights(orders, t, StopLeg), legs);
    SumPointwise(legs, MarketWeights(orders, t), ExitWeights(orders, t));
    LegKindSum(w, t, TargetLeg);
    LegKindSum(w, t, StopLeg);
  }

  lemma LegNeverAhead(w: World, e: nat, kind: LegKind)
    requires Base(w) && e < |w.j.orders|
    ensures LegApplied(w.j.orders, e, kind) <= w.remote[e].Leg(kind).filled
  {
    var leg := FindLeg(w.j.orders, Parent(e, kind));
    if leg.Some? { assert LegRowTrue(w, leg.value); }
  }

  lemma SoldNeverAbovePledged(w: World, t: nat)
    requires Base(w)
    ensures 0 <= Sold(w, t) <= Pledged(w, t) && Sum(MarketWeights(w.j.orders, t)) <= Sold(w, t)
  {
    forall i | 0 <= i < |w.j.orders| && MarketOf(w, i, t) ensures OwnRowTrue(w, i) {}
    SumMonotone(SoldWeights(w, t), PledgeWeights(w, t));
    SumMonotone(MarketWeights(w.j.orders, t), SoldWeights(w, t));
    var zeros := seq(|w.j.orders|, i => 0);
    SumZero(zeros);
    SumMonotone(zeros, SoldWeights(w, t));
  }

  /** Nothing is oversold. */
  lemma NetNonNegative(w: World, e: nat)
    requires Base(w) && Covered(w) && e < |w.j.orders| && w.j.orders[e].IsEntry()
    ensures Net(w, e) >= 0 && AfterLegs(w, e) >= 0
  {
    assert OwnRowTrue(w, e) by { assert RowLinked(w.j, e); }
    if w.j.orders[e].tradeId.Some? {
      var t := w.j.orders[e].tradeId.value;
      assert RowLinked(w.j, e);
      assert TradeLinked(w.j, t) && TradeCovered(w, t);
      SoldNeverAbovePledged(w, t);
    }
  }

  /** A settled ticker without an open trade is flat at the broker. */
  lemma SettledMeansFlat(w: World, e: nat)
    requires Safe(w) && e < |w.j.orders| && w.j.orders[e].IsEntry()
    requires TickerSettled(w.j.orders, w.j.orders[e].ticker) && !TickerOpen(w.j.trades, w.j.orders[e].ticker)
    ensures Net(w, e) == 0
  {
    assert RowLinked(w.j, e) && OwnRowTrue(w, e);
    NetNonNegative(w, e);
    match w.j.orders[e].tradeId
    case None =>
    case Some(t) =>
      assert TradeLinked(w.j, t) && Conserved(w, t);
      ExitsSplit(w, t);
      LegNeverAhead(w, e, TargetLeg);
      LegNeverAhead(w, e, StopLeg);
      SoldNeverAbovePledged(w, t);
  }

  lemma SettledLegIsDone(w: World, e: nat, kind: LegKind)
    requires Base(w) && e < |w.j.orders| && w.j.orders[e].IsEntry()
    requires TickerSettled(w.j.orders, w.j.orders[e].ticker) && FindLeg(w.j.orders, Parent(e, kind)).Some?
    ensures w.remote[e].Leg(kind).done && LegApplied(w.j.orders, e, kind) == w.remote[e].Leg(kind).filled
  {
    var i := FindLeg(w.j.orders, Parent(e, kind)).value;
    assert RowLinked(w.j, i) && LegRowTrue(w, i);
  }

  lemma OpenEntryIsLatest(w: World, t: nat)
    requires Base(w) && t < |w.j.trades| && w.j.trades[t].open
    ensures LatestEntry(w.j.orders, w.j.trades[t].ticker) == Some(w.j.trades[t].entryOrder)
  {
    var e, ticker := w.j.trades[t].entryOrder, w.j.trades[t].ticker;
    assert TradeLinked(w.j, t);
    forall i | e < i < |w.j.orders| ensures !(w.j.orders[i].IsEntry() && w.j.orders[i].ticker == ticker) {
      if w.j.orders[i].IsEntry() && w.j.orders[i].ticker == ticker { OpenTradeIsLatest(w, t, i); }
    }
    LatestIsUnique(w.j.orders, ticker, e);
  }

  lemma SettledRowIsFinal(w: World, i: nat)
    requires Base(w) && i < |w.j.orders| && !w.j.orders[i].IsLeg() && TickerSettled(w.j.orders, w.j.orders[i].ticker)
    ensures Dead(w, i) && w.j.orders[i].applied == w.remote[i].filled
  {
    assert OwnRowTrue(w, i);
  }

  lemma SettledSums(w: World, t: nat)
    requires Base(w) && t < |w.j.trades| && TickerSettled(w.j.orders, w.j.trades[t].ticker)
    ensures Sum(MarketWeights(w.j.orders, t)) == Sold(w, t) == Pledged(w, t)
  {
    forall i | 0 <= i < |w.j.orders| && MarketOf(w, i, t)
      ensures Dead(w, i) && w.j.orders[i].applied == w.remote[i].filled {
      assert RowLinked(w.j, i);
      SettledRowIsFinal(w, i);
    }
    assert MarketWeights(w.j.orders, t) == SoldWeights(w, t);
    assert SoldWeights(w, t) == PledgeWeights(w, t);
  }

  /** When the worker writes an exit intent, the journal's remaining shares are exactly what the broker holds. */
  lemma RemainderIsExact(w: World, t: nat)
    requires Safe(w) && Enabled(w, ExitIntent(t))
    ensures var e := w.j.trades[t].entryOrder;
      && CampaignLocked(w, e) && LatestEntry(w.j.orders, w.j.trades[t].ticker) == Some(e)
      && w.j.trades[t].remaining == Net(w, e) == AfterLegs(w, e) - Pledged(w, t)
  {
    var e := w.j.trades[t].entryOrder;
    assert TradeLinked(w.j, t) && RowLinked(w.j, e) && Conserved(w, t);
    OpenEntryIsLatest(w, t);
    SettledRowIsFinal(w, e);
    SettledLegIsDone(w, e, TargetLeg);
    SettledLegIsDone(w, e, StopLeg);
    ExitsSplit(w, t);
    SettledSums(w, t);
  }
}
