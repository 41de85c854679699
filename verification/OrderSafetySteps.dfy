/** Every step of the protocol keeps the safety invariant. */
module OrderSafetySteps {
  import opened Common
  import opened OrderJournal
  import opened OrderProtocol
  import opened OrderTruth
  import opened OrderConservation
  import opened OrderSafety

  // --- steps that leave the broker's records alone ---

  /** `w'` has the same broker records and the same orders as `w`; rows may be rewritten but not re-identified. */
  ghost predicate SameBroker(w: World, w': World)
    requires Shaped(w) && Shaped(w')
  {
    && w'.remote == w.remote && |w'.j.orders| == |w.j.orders| && |w.j.trades| <= |w'.j.trades|
    && (forall i :: 0 <= i < |w.j.orders| ==>
      SameIdentity(w.j.orders[i], w'.j.orders[i])
      && (w.j.orders[i].tradeId.Some? ==> w'.j.orders[i].tradeId == w.j.orders[i].tradeId)
      && (w'.j.orders[i].tradeId != w.j.orders[i].tradeId ==>
        w.j.orders[i].IsEntry() && w'.j.orders[i].tradeId.value >= |w.j.trades|)
      && (Dead(w, i) ==> Dead(w', i))
      && (w.j.orders[i].applied == w.remote[i].filled && !w.j.orders[i].IsLeg() ==>
        w'.j.orders[i].applied == w.j.orders[i].applied))
    && (forall t :: 0 <= t < |w.j.trades| ==> w'.j.trades[t].entryOrder == w.j.trades[t].entryOrder)
  }

  lemma SameMarket(w: World, w': World, i: nat, t: nat)
    requires Shaped(w) && Shaped(w') && SameBroker(w, w') && i < |w.j.orders|
    ensures MarketOf(w', i, t) <==> MarketOf(w, i, t)
  {
    assert RowLinked(w.j, i);
  }

  lemma SameSums(w: World, w': World, t: nat)
    requires Base(w) && Shaped(w') && SameBroker(w, w')
    ensures Sold(w', t) == Sold(w, t) && Pledged(w', t) <= Pledged(w, t)
    ensures t >= |w.j.trades| ==> Sold(w, t) == 0 == Pledged(w, t)
  {
    forall i | 0 <= i < |w.j.orders| ensures MarketOf(w', i, t) <==> MarketOf(w, i, t) { SameMarket(w, w', i, t); }
    assert SoldWeights(w', t) == SoldWeights(w, t);
    forall i | 0 <= i < |w.j.orders| ensures PledgeWeights(w', t)[i] <= PledgeWeights(w, t)[i]
      && (t >= |w.j.trades| ==> !MarketOf(w, i, t)) {
      if !w.j.orders[i].IsLeg() { assert OwnRowTrue(w, i); }
      assert RowLinked(w.j, i);
    }
    SumMonotone(PledgeWeights(w', t), PledgeWeights(w, t));
    if t >= |w.j.trades| { SumZero(SoldWeights(w, t)); SumZero(PledgeWeights(w, t)); }
  }

  lemma SameNet(w: World, w': World, e: nat)
    requires Base(w) && Shaped(w') && SameBroker(w, w') && e < |w.j.orders|
    ensures AfterLegs(w', e) == AfterLegs(w, e) && Net(w', e) == Net(w, e)
  {
    if w'.j.orders[e].tradeId.Some? { SameSums(w, w', w'.j.orders[e].tradeId.value); }
  }

  lemma SameLatest(a: seq<Order>, b: seq<Order>, ticker: Ticker)
    requires |a| <= |b|
    requires forall i :: 0 <= i < |a| ==> SameIdentity(a[i], b[i])
    requires forall i :: |a| <= i < |b| ==> !(b[i].IsEntry() && b[i].ticker == ticker)
    ensures LatestEntry(b, ticker) == LatestEntry(a, ticker)
  {
    match LatestEntry(a, ticker)
    case Some(e) => LatestIsUnique(b, ticker, e);
    case None =>
  }

  lemma SameBrokerKeepsExit(w: World, w': World, i: nat)
    requires Safe(w) && Base(w') && SameBroker(w, w')
    requires i < |w.j.orders| && w'.j.orders[i].IsMarketExit()
    ensures CampaignLocked(w', EntryOf(w', i)) && (!Dead(w', i) ==> ExactlyPledged(w', i))
  {
    assert RowLinked(w.j, i);
    var e := EntryOf(w, i);
    assert CampaignLocked(w, e);
    SameNet(w, w', e);
    assert TradeLinked(w.j, w.j.orders[i].tradeId.value) && RowLinked(w.j, e);
    assert EntryOf(w', i) == e;
    if !Dead(w', i) { assert ExactlyPledged(w, i); }
  }

  lemma SameBrokerKeepsTrade(w: World, w': World, t: nat)
    requires Safe(w) && Base(w') && SameBroker(w, w') && t < |w'.j.trades|
    ensures TradeCovered(w', t)
  {
    SameSums(w, w', t);
    assert TradeLinked(w'.j, t);
    var e := w'.j.trades[t].entryOrder;
    SameNet(w, w', e);
    if t < |w.j.trades| { assert TradeCovered(w, t); } else { NetNonNegative(w, e); }
  }

  lemma SamePosition(w: World, w': World, ticker: Ticker)
    requires Shaped(w) && Shaped(w') && SameBroker(w, w')
    ensures Position(w', ticker) == Position(w, ticker)
    ensures LatestEntry(w'.j.orders, ticker) == LatestEntry(w.j.orders, ticker)
  {
    SameLatest(w.j.orders, w'.j.orders, ticker);
    assert PositionWeights(w', ticker) == PositionWeights(w, ticker);
  }

  lemma SameBrokerKeepsPosition(w: World, w': World, ticker: Ticker)
    requires Base(w) && PositionFollows(w, ticker) && Shaped(w') && SameBroker(w, w')
    ensures PositionFollows(w', ticker)
  {
    SamePosition(w, w', ticker);
    if LatestEntry(w.j.orders, ticker).Some? { SameNet(w, w', LatestEntry(w.j.orders, ticker).value); }
  }

  lemma SameBrokerKeepsSafe(w: World, w': World)
    requires Safe(w) && Base(w') && SameBroker(w, w') && AllConserved(w')
    ensures Safe(w')
  {
    forall i | 0 <= i < |w'.j.orders| && w'.j.orders[i].IsMarketExit()
      ensures CampaignLocked(w', EntryOf(w', i)) && (!Dead(w', i) ==> ExactlyPledged(w', i)) {
      SameBrokerKeepsExit(w, w', i);
    }
    forall i, k | 0 <= i < k < |w'.j.orders| && TwoExits(w', i, k) ensures Dead(w', i) {
      assert TwoExits(w, i, k);
    }
    forall t | 0 <= t < |w'.j.trades| ensures TradeCovered(w', t) { SameBrokerKeepsTrade(w, w', t); }
    forall e, e' | 0 <= e < e' < |w'.j.orders| && w'.j.orders[e].IsEntry() && Precedes(w', e, e')
      ensures Net(w', e) == 0 {
      assert Precedes(w, e, e');
      SameNet(w, w', e);
    }
    forall ticker: Ticker ensures PositionFollows(w', ticker) {
      assert PositionFollows(w, ticker);
      SameBrokerKeepsPosition(w, w', ticker);
    }
  }

  // --- the worker's own bookkeeping and observed reports ---

  ghost predicate IsTouch(a: Action) {
    a.BeginSubmit? || a.MarkUnresolved? || a.CancelUnsent? || a.FlagFlatten? || a.NotePendingExit? || a.ListPositions?
      || a.Crash?
  }

  lemma TouchSameBroker(w: World, a: Action)
    requires Base(w) && Enabled(w, a) && IsTouch(a) && Shaped(Do(w, a))
    ensures SameBroker(w, Do(w, a))
  {
    if !a.Crash? && !a.NotePendingExit? && !a.ListPositions? {
      assert RowLinked(w.j, a.order);
      if !w.j.orders[a.order].IsLeg() { assert OwnRowTrue(w, a.order); }
    }
    if w.sending.Some? { assert OwnRowTrue(w, w.sending.value); }
  }

  lemma TouchKeepsConserved(w: World, a: Action, t: nat)
    requires Base(w) && AllConserved(w) && Enabled(w, a) && IsTouch(a) && Shaped(Do(w, a)) && t < |w.j.trades|
    ensures t < |Do(w, a).j.trades| == |w.j.trades|
    ensures Conserved(Do(w, a), t) && (Do(w, a).j.trades[t].open <==> Do(w, a).j.trades[t].remaining > 0)
  {
    assert Conserved(w, t);
    assert ExitWeights(Do(w, a).j.orders, t) == ExitWeights(w.j.orders, t);
    assert TradeLinked(w.j, t);
  }

  lemma TouchKeepsSafe(w: World, a: Action)
    requires Safe(w) && Enabled(w, a) && IsTouch(a)
    ensures Safe(Do(w, a))
  {
    var w' := Do(w, a);
    StepKeepsBase(w, a);
    forall t | 0 <= t < |w.j.trades|
      ensures t < |w'.j.trades| == |w.j.trades| && Conserved(w', t)
        && (w'.j.trades[t].open <==> w'.j.trades[t].remaining > 0) {
      TouchKeepsConserved(w, a, t);
    }
    TouchSameBroker(w, a);
    SameBrokerKeepsSafe(w, w');
  }

  lemma MarketMeansLocked(w: World, i: nat, t: nat)
    requires Base(w) && ExitsLast(w) && i < |w.j.orders| && t < |w.j.trades|
    ensures MarketOf(w, i, t) ==> CampaignLocked(w, w.j.trades[t].entryOrder)
  {
    if MarketOf(w, i, t) { assert RowLinked(w.j, i) && CampaignLocked(w, EntryOf(w, i)); }
  }

  lemma GrowthMeansUnlocked(w: World, a: Action, t: nat)
    requires Base(w) && Enabled(w, a) && EntryGrows(w, a, t)
    ensures !CampaignLocked(w, a.order)
  {
    assert RowLinked(w.j, a.order) && OwnRowTrue(w, a.order);
  }

  /** Under the order assumption the losing branch is never taken: legs are excluded by assumption, market
      exits because they only exist once the entry is finished and fully observed. */
  lemma GrowthFindsNoExits(w: World, a: Action, t: nat)
    requires Safe(w) && Enabled(w, a) && InOrder(w, a) && t < |w.j.trades|
    ensures !Late(w, a, t)
  {
    if EntryGrows(w, a, t) {
      GrowthMeansUnlocked(w, a, t);
      assert TradeLinked(w.j, t) && RowLinked(w.j, a.order);
      forall i | 0 <= i < |w.j.orders| ensures !MarketOf(w, i, t) { MarketMeansLocked(w, i, t); }
      ExitsSplit(w, t);
      SumZero(MarketWeights(w.j.orders, t));
    }
  }

  lemma ObserveKeepsConserved(w: World, a: Action, t: nat)
    requires Safe(w) && Enabled(w, a) && InOrder(w, a) && a.Observe? && Base(Do(w, a)) && t < |Do(w, a).j.trades|
    ensures Conserved(Do(w, a), t) && (Do(w, a).j.trades[t].open <==> Do(w, a).j.trades[t].remaining > 0)
  {
    var w' := Do(w, a);
    ReportEffect(w.j, a.order, a.report);
    StepDrift(w, a, t);
    assert TradeLinked(w'.j, t);
    if t < |w.j.trades| {
      GrowthFindsNoExits(w, a, t);
      ExitsNonNegative(w.j.orders, t);
      assert Conserved(w, t) && TradeLinked(w.j, t) && RowLinked(w.j, w.j.trades[t].entryOrder)
        && RowLinked(w.j, a.order);
      if w.j.orders[a.order].tradeId == Some(t) && a.report.filled > w.j.orders[a.order].applied as real {
        ReportShares(w.j, a.order, a.report, t);
      }
    }
  }

  lemma ObserveSameBroker(w: World, a: Action)
    requires Base(w) && Enabled(w, a) && a.Observe? && Base(Do(w, a))
    ensures SameBroker(w, Do(w, a))
  {
    ReportEffect(w.j, a.order, a.report);
    assert RowLinked(w.j, a.order);
    ObservedIsStillDead(w, a);
  }

  lemma ObservedIsStillDead(w: World, a: Action)
    requires Base(w) && Enabled(w, a) && a.Observe? && Base(Do(w, a))
    requires |Do(w, a).j.orders| == |w.j.orders|
    ensures forall i :: 0 <= i < |w.j.orders| && Dead(w, i) ==> Dead(Do(w, a), i)
    ensures var o, o' := w.j.orders[a.order], Do(w, a).j.orders[a.order];
      !o.IsLeg() && o.applied == w.remote[a.order].filled ==> o'.applied == o.applied
  {
    ReportEffect(w.j, a.order, a.report);
    if !w.j.orders[a.order].IsLeg() { assert OwnRowTrue(w, a.order); }
  }

  lemma ObserveKeepsSafe(w: World, a: Action)
    requires Safe(w) && Enabled(w, a) && InOrder(w, a) && a.Observe?
    ensures Safe(Do(w, a))
  {
    StepKeepsBase(w, a);
    ObserveSameBroker(w, a);
    forall t | 0 <= t < |Do(w, a).j.trades|
      ensures Conserved(Do(w, a), t) && (Do(w, a).j.trades[t].open <==> Do(w, a).j.trades[t].remaining > 0) {
      ObserveKeepsConserved(w, a, t);
    }
    SameBrokerKeepsSafe(w, Do(w, a));
  }

  // --- rows discovered at the broker ---

  /** `w'` is `w` with leg rows relinked or appended; nothing else moves. */
  ghost predicate MoreLegs(w: World, w': World)
    requires Shaped(w) && Shaped(w')
  {
    var n := |w.j.orders|;
    && n <= |w'.j.orders| <= n + 1 && w'.j.trades == w.j.trades && w'.sending == w.sending
    && w'.remote[..n] == w.remote
    && (forall i :: 0 <= i < n ==>
      SameIdentity(w.j.orders[i], w'.j.orders[i]) && w'.j.orders[i].applied == w.j.orders[i].applied
      && w'.j.orders[i].state == w.j.orders[i].state
      && (!w.j.orders[i].IsLeg() ==> w'.j.orders[i].tradeId == w.j.orders[i].tradeId))
    && (forall i :: n <= i < |w'.j.orders| ==> w'.j.orders[i].IsLeg() && w'.remote[i] == UNSENT)
  }

  lemma MoreLegsDead(w: World, w': World, i: nat)
    requires Shaped(w) && Shaped(w') && MoreLegs(w, w') && i < |w.j.orders|
    ensures w'.remote[i] == w.remote[i] && (Dead(w', i) <==> Dead(w, i))
    ensures forall t :: MarketOf(w', i, t) <==> MarketOf(w, i, t)
  {
    assert w'.remote[..|w.j.orders|][i] == w.remote[i];
  }

  lemma MoreLegsSums(w: World, w': World, t: nat)
    requires Shaped(w) && Shaped(w') && MoreLegs(w, w')
    ensures Sold(w', t) == Sold(w, t) && Pledged(w', t) == Pledged(w, t)
  {
    forall i | 0 <= i < |w.j.orders|
      ensures SoldWeights(w', t)[i] == SoldWeights(w, t)[i] && PledgeWeights(w', t)[i] == PledgeWeights(w, t)[i] {
      MoreLegsDead(w, w', i);
    }
    SumPadded(SoldWeights(w, t), SoldWeights(w', t));
    SumPadded(PledgeWeights(w, t), PledgeWeights(w', t));
  }

  lemma MoreLegsRow(w: World, w': World, i: nat)
    requires Shaped(w) && Shaped(w') && MoreLegs(w, w') && i < |w.j.orders|
    ensures w'.remote[i] == w.remote[i] && (Dead(w', i) <==> Dead(w, i))
    ensures !w.j.orders[i].IsLeg() ==> Net(w', i) == Net(w, i) && AfterLegs(w', i) == AfterLegs(w, i)
  {
    MoreLegsDead(w, w', i);
    if w.j.orders[i].tradeId.Some? { MoreLegsSums(w, w', w.j.orders[i].tradeId.value); }
  }

  lemma MoreLegsExit(w: World, w': World, i: nat)
    requires Safe(w) && Base(w') && MoreLegs(w, w') && i < |w.j.orders| && w'.j.orders[i].IsMarketExit()
    ensures CampaignLocked(w', EntryOf(w', i)) && (!Dead(w', i) ==> ExactlyPledged(w', i))
  {
    assert RowLinked(w.j, i) && TradeLinked(w.j, w.j.orders[i].tradeId.value) && RowLinked(w.j, EntryOf(w, i));
    assert CampaignLocked(w, EntryOf(w, i));
    MoreLegsRow(w, w', i);
    MoreLegsRow(w, w', EntryOf(w, i));
    if !Dead(w, i) { assert ExactlyPledged(w, i); }
  }

  lemma MoreLegsTrade(w: World, w': World, t: nat)
    requires Safe(w) && Base(w') && MoreLegs(w, w') && t < |w.j.trades|
    requires ExitsApplied(w'.j.orders, t) == ExitsApplied(w.j.orders, t)
    ensures TradeCovered(w', t) && Conserved(w', t)
  {
    assert TradeLinked(w.j, t) && RowLinked(w.j, w.j.trades[t].entryOrder) && TradeCovered(w, t) && Conserved(w, t);
    MoreLegsSums(w, w', t);
    MoreLegsRow(w, w', w.j.trades[t].entryOrder);
  }

  lemma MoreLegsTicker(w: World, w': World, ticker: Ticker)
    requires Shaped(w) && Shaped(w') && MoreLegs(w, w')
    ensures Position(w', ticker) == Position(w, ticker)
    ensures LatestEntry(w'.j.orders, ticker) == LatestEntry(w.j.orders, ticker)
  {
    forall i | |w.j.orders| <= i < |w'.j.orders| ensures !w'.j.orders[i].IsEntry() { assert RowLinked(w'.j, i); }
    SameLatest(w.j.orders, w'.j.orders, ticker);
    forall i | 0 <= i < |w.j.orders| ensures PositionWeights(w', ticker)[i] == PositionWeights(w, ticker)[i] {
      MoreLegsDead(w, w', i);
    }
    SumPadded(PositionWeights(w, ticker), PositionWeights(w', ticker));
  }

  lemma MoreLegsPosition(w: World, w': World, ticker: Ticker)
    requires Base(w) && PositionFollows(w, ticker) && Shaped(w') && MoreLegs(w, w')
    ensures PositionFollows(w', ticker)
  {
    MoreLegsTicker(w, w', ticker);
    var latest := LatestEntry(w.j.orders, ticker);
    if latest.Some? { assert RowLinked(w.j, latest.value); MoreLegsRow(w, w', latest.value); }
  }

  lemma MoreLegsKeepsSafe(w: World, w': World)
    requires Safe(w) && Base(w') && MoreLegs(w, w')
    requires forall t :: 0 <= t < |w.j.trades| ==> ExitsApplied(w'.j.orders, t) == ExitsApplied(w.j.orders, t)
    ensures Safe(w')
  {
    forall i | 0 <= i < |w'.j.orders| && w'.j.orders[i].IsMarketExit()
      ensures CampaignLocked(w', EntryOf(w', i)) && (!Dead(w', i) ==> ExactlyPledged(w', i)) {
      MoreLegsExit(w, w', i);
    }
    forall i, k | 0 <= i < k < |w'.j.orders| && TwoExits(w', i, k) ensures Dead(w', i) {
      assert TwoExits(w, i, k);
      MoreLegsRow(w, w', i);
    }
    forall t | 0 <= t < |w'.j.trades| ensures TradeCovered(w', t) && Conserved(w', t) { MoreLegsTrade(w, w', t); }
    forall e, e' | 0 <= e < e' < |w'.j.orders| && w'.j.orders[e].IsEntry() && Precedes(w', e, e')
      ensures Net(w', e) == 0 {
      assert RowLinked(w'.j, e');
      assert Precedes(w, e, e');
      MoreLegsRow(w, w', e);
    }
    forall ticker: Ticker ensures PositionFollows(w', ticker) {
      assert PositionFollows(w, ticker);
      MoreLegsPosition(w, w', ticker);
    }
  }

  lemma DiscoverOneKeepsSafe(w: World, id: nat, kind: LegKind)
    requires Safe(w) && id < |w.j.orders| && w.j.orders[id].IsEntry()
    ensures Safe(DiscoverOne(w, id, kind))
  {
    var w' := DiscoverOne(w, id, kind);
    DiscoverOneKeepsBase(w, id, kind);
    forall t | 0 <= t < |w.j.trades| ensures ExitsApplied(w'.j.orders, t) == ExitsApplied(w.j.orders, t) {
      DiscoverOneKeepsExits(w, id, kind, t);
    }
    DiscoverOneAddsLegs(w, id, kind);
    MoreLegsKeepsSafe(w, w');
  }

  lemma DiscoverOneAddsLegs(w: World, id: nat, kind: LegKind)
    requires Shaped(w) && id < |w.j.orders| && w.j.orders[id].IsEntry() && Shaped(DiscoverOne(w, id, kind))
    ensures MoreLegs(w, DiscoverOne(w, id, kind))
  {}

  lemma {:induction false} DiscoverKeepsSafe(w: World, id: nat, kinds: seq<LegKind>)
    requires Safe(w) && id < |w.j.orders| && w.j.orders[id].IsEntry()
    ensures Safe(DiscoverAll(w, id, kinds))
  {
    if kinds == [] {
    } else {
      var front := kinds[..|kinds| - 1];
      DiscoverKeepsSafe(w, id, front);
      DiscoverAllShaped(w, id, front);
      DiscoverOneKeepsSafe(DiscoverAll(w, id, front), id, kinds[|kinds| - 1]);
    }
  }

  // --- new intents ---

  lemma AppendedSums(w: World, o: Order, t: nat)
    requires Base(w) && Base(AppendRow(w, o)) && !o.IsLeg() && o.state.PendingSubmission?
    ensures var w' := AppendRow(w, o);
      && Sold(w', t) == Sold(w, t)
      && Pledged(w', t) == Pledged(w, t) + if o.IsMarketExit() && o.tradeId == Some(t) then o.requested else 0
  {
    var w' := AppendRow(w, o);
    SumPadded(SoldWeights(w, t), SoldWeights(w', t));
    SumExtend(PledgeWeights(w, t), PledgeWeights(w', t));
  }

  lemma AppendedPosition(w: World, o: Order, ticker: Ticker)
    requires Base(w) && Base(AppendRow(w, o)) && !o.IsLeg()
    ensures Position(AppendRow(w, o), ticker) == Position(w, ticker)
  {
    SumPadded(PositionWeights(w, ticker), PositionWeights(AppendRow(w, o), ticker));
  }

  lemma AppendedNet(w: World, o: Order, e: nat)
    requires Base(w) && Base(AppendRow(w, o)) && !o.IsLeg() && o.state.PendingSubmission? && e < |w.j.orders|
    ensures Net(AppendRow(w, o), e) == Net(w, e) && AfterLegs(AppendRow(w, o), e) == AfterLegs(w, e)
  {
    if w.j.orders[e].tradeId.Some? { AppendedSums(w, o, w.j.orders[e].tradeId.value); }
  }

  lemma AppendedExit(w: World, o: Order, i: nat)
    requires Safe(w) && Base(AppendRow(w, o)) && !o.IsLeg() && o.state.PendingSubmission?
    requires i < |w.j.orders| && w.j.orders[i].IsMarketExit()
    ensures var w' := AppendRow(w, o);
      CampaignLocked(w', EntryOf(w', i)) && (!Dead(w', i) ==> ExactlyPledged(w', i))
  {
    assert RowLinked(w.j, i) && CampaignLocked(w, EntryOf(w, i));
    AppendedNet(w, o, EntryOf(w, i));
    if !Dead(w, i) { assert ExactlyPledged(w, i); }
  }

  lemma AppendedConserved(w: World, o: Order)
    requires Safe(w) && Base(AppendRow(w, o)) && o.applied == 0
    ensures AllConserved(AppendRow(w, o))
  {
    var w' := AppendRow(w, o);
    forall t | 0 <= t < |w'.j.trades|
      ensures Conserved(w', t) && (w'.j.trades[t].open <==> w'.j.trades[t].remaining > 0) {
      assert Conserved(w, t) && TradeLinked(w.j, t);
      SumExtend(ExitWeights(w.j.orders, t), ExitWeights(w'.j.orders, t));
    }
  }

  lemma EntryIntentKeepsSafe(w: World, a: Action)
    requires Safe(w) && Enabled(w, a) && a.OpenIntent?
    ensures Safe(Do(w, a))
  {
    var o := NewRow(a.ticker, Entry, a.direction, a.quantity, None);
    var w' := AppendRow(w, o);
    StepKeepsBase(w, a);
    AppendedConserved(w, o);
    forall i | 0 <= i < |w'.j.orders| && w'.j.orders[i].IsMarketExit()
      ensures CampaignLocked(w', EntryOf(w', i)) && (!Dead(w', i) ==> ExactlyPledged(w', i)) {
      AppendedExit(w, o, i);
    }
    forall i, k | 0 <= i < k < |w'.j.orders| && TwoExits(w', i, k) ensures Dead(w', i) { assert TwoExits(w, i, k); }
    forall t | 0 <= t < |w'.j.trades| ensures TradeCovered(w', t) {
      assert TradeLinked(w.j, t) && TradeCovered(w, t);
      AppendedSums(w, o, t);
    }
    forall e, e' | 0 <= e < e' < |w'.j.orders| && w'.j.orders[e].IsEntry() && Precedes(w', e, e')
      ensures Net(w', e) == 0 {
      AppendedNet(w, o, e);
      if e' < |w.j.orders| { assert Precedes(w, e, e'); } else { SettledMeansFlat(w, e); }
    }
    forall ticker: Ticker ensures PositionFollows(w', ticker) { EntryIntentPosition(w, o, ticker); }
  }

  lemma EntryIntentPosition(w: World, o: Order, ticker: Ticker)
    requires Safe(w) && Base(AppendRow(w, o)) && o.IsEntry() && !o.IsLeg() && o.state.PendingSubmission?
      && o.tradeId.None?
    requires TickerSettled(w.j.orders, o.ticker) && !TickerOpen(w.j.trades, o.ticker)
    ensures PositionFollows(AppendRow(w, o), ticker)
  {
    var w' := AppendRow(w, o);
    AppendedPosition(w, o, ticker);
    assert PositionFollows(w, ticker);
    var latest := LatestEntry(w.j.orders, ticker);
    if o.ticker == ticker {
      LatestIsUnique(w'.j.orders, ticker, |w.j.orders|);
      if latest.Some? { SettledMeansFlat(w, latest.value); }
    } else {
      SameLatest(w.j.orders, w'.j.orders, ticker);
      if latest.Some? { AppendedNet(w, o, latest.value); }
    }
  }

  lemma ExitIntentCovers(w: World, o: Order, t: nat)
    requires Safe(w) && Enabled(w, ExitIntent(t)) && Base(AppendRow(w, o))
    requires o == NewRow(w.j.trades[t].ticker, Exit, w.j.trades[t].direction, w.j.trades[t].remaining, Some(t))
    ensures forall u :: 0 <= u < |w.j.trades| ==> TradeCovered(AppendRow(w, o), u)
    ensures CampaignLocked(AppendRow(w, o), w.j.trades[t].entryOrder) && ExactlyPledged(AppendRow(w, o), |w.j.orders|)
  {
    RemainderIsExact(w, t);
    AppendedNet(w, o, w.j.trades[t].entryOrder);
    forall u | 0 <= u < |w.j.trades| ensures TradeCovered(AppendRow(w, o), u) {
      assert TradeLinked(w.j, u) && TradeCovered(w, u);
      AppendedSums(w, o, u);
      AppendedNet(w, o, w.j.trades[u].entryOrder);
    }
  }

  lemma ExitIntentKeepsSafe(w: World, a: Action)
    requires Safe(w) && Enabled(w, a) && a.ExitIntent?
    ensures Safe(Do(w, a))
  {
    var trade, n := w.j.trades[a.trade], |w.j.orders|;
    var o := NewRow(trade.ticker, Exit, trade.direction, trade.remaining, Some(a.trade));
    var w' := AppendRow(w, o);
    StepKeepsBase(w, a);
    AppendedConserved(w, o);
    ExitIntentCovers(w, o, a.trade);
    forall i | 0 <= i < |w'.j.orders| && w'.j.orders[i].IsMarketExit()
      ensures CampaignLocked(w', EntryOf(w', i)) && (!Dead(w', i) ==> ExactlyPledged(w', i)) {
      if i < n { AppendedExit(w, o, i); }
    }
    forall i, k | 0 <= i < k < |w'.j.orders| && TwoExits(w', i, k) ensures Dead(w', i) {
      if k < n { assert TwoExits(w, i, k); } else { SettledRowIsFinal(w, i); }
    }
    forall e, e' | 0 <= e < e' < |w'.j.orders| && w'.j.orders[e].IsEntry() && Precedes(w', e, e')
      ensures Net(w', e) == 0 {
      AppendedNet(w, o, e);
      assert Precedes(w, e, e');
    }
    forall ticker: Ticker ensures PositionFollows(w', ticker) { ExitIntentPosition(w, o, ticker); }
  }

  lemma ExitIntentPosition(w: World, o: Order, ticker: Ticker)
    requires Safe(w) && Base(AppendRow(w, o)) && o.IsMarketExit() && o.state.PendingSubmission?
    ensures PositionFollows(AppendRow(w, o), ticker)
  {
    assert PositionFollows(w, ticker);
    AppendedPosition(w, o, ticker);
    SameLatest(w.j.orders, AppendRow(w, o).j.orders, ticker);
    if LatestEntry(w.j.orders, ticker).Some? { AppendedNet(w, o, LatestEntry(w.j.orders, ticker).value); }
  }

  // --- steps at the broker ---

  /** The record of own order `i` moves; a dead order's fills do not. */
  ghost predicate OwnMove(w: World, w': World, i: nat)
    requires Shaped(w) && Shaped(w')
  {
    && i < |w.j.orders| && !w.j.orders[i].IsLeg() && w'.j == w.j && w'.remote == w.remote[i := w'.remote[i]]
    && w'.remote[i].target == w.remote[i].target && w'.remote[i].stop == w.remote[i].stop
    && w.remote[i].filled <= w'.remote[i].filled
    && (Dead(w, i) ==> w'.remote[i].filled == w.remote[i].filled)
    && (forall k :: 0 <= k < |w.j.orders| && Dead(w, k) ==> Dead(w', k))
  }

  ghost function Delta(w: World, w': World, i: nat): (d: int)
    requires Shaped(w) && Shaped(w') && OwnMove(w, w', i)
    ensures d >= 0
  {
    w'.remote[i].filled - w.remote[i].filled
  }

  /** The entry order whose campaign own order `i` belongs to. */
  ghost function CampaignOf(w: World, i: nat): nat
    requires Shaped(w) && i < |w.j.orders| && !w.j.orders[i].IsLeg()
  {
    if w.j.orders[i].IsEntry() then i else EntryOf(w, i)
  }

  lemma OwnMoveSums(w: World, w': World, i: nat, t: nat)
    requires Base(w) && Base(w') && OwnMove(w, w', i)
    ensures Sold(w', t) == Sold(w, t) + if MarketOf(w, i, t) then Delta(w, w', i) else 0
    ensures Pledged(w', t) <= Pledged(w, t)
  {
    SumChange(SoldWeights(w, t), SoldWeights(w', t), i);
    forall k | 0 <= k < |w.j.orders| ensures PledgeWeights(w', t)[k] <= PledgeWeights(w, t)[k] {
      if !w.j.orders[k].IsLeg() { assert OwnRowTrue(w, k) && OwnRowTrue(w', k); }
    }
    SumMonotone(PledgeWeights(w', t), PledgeWeights(w, t));
  }

  lemma OwnMoveNet(w: World, w': World, i: nat, e: nat)
    requires Base(w) && Base(w') && OwnMove(w, w', i) && e < |w.j.orders| && w.j.orders[e].IsEntry()
    ensures AfterLegs(w', e) == AfterLegs(w, e) + if e == i then Delta(w, w', i) else 0
    ensures Net(w', e) == Net(w, e) +
      if e == i then Delta(w, w', i) else if e == CampaignOf(w, i) then -Delta(w, w', i) else 0
  {
    assert RowLinked(w.j, e) && RowLinked(w.j, i);
    if w.j.orders[e].tradeId.Some? {
      var t := w.j.orders[e].tradeId.value;
      OwnMoveSums(w, w', i, t);
      assert TradeLinked(w.j, t);
    }
    if w.j.orders[i].IsMarketExit() { assert TradeLinked(w.j, w.j.orders[i].tradeId.value); }
  }

  /** Only the latest campaign of a ticker still moves. */
  lemma LiveMeansLatest(w: World, i: nat)
    requires Base(w) && i < |w.j.orders| && !w.j.orders[i].IsLeg() && !Dead(w, i)
    ensures LatestEntry(w.j.orders, w.j.orders[i].ticker) == Some(CampaignOf(w, i))
    ensures w.j.orders[CampaignOf(w, i)].direction == w.j.orders[i].direction
  {
    var c, ticker := CampaignOf(w, i), w.j.orders[i].ticker;
    assert RowLinked(w.j, i);
    if w.j.orders[i].IsMarketExit() { assert TradeLinked(w.j, w.j.orders[i].tradeId.value); }
    forall e | c < e < |w.j.orders| ensures !(w.j.orders[e].IsEntry() && w.j.orders[e].ticker == ticker) {
      assert Precedes(w, i, e) <==> (w.j.orders[e].IsEntry() && w.j.orders[e].ticker == ticker);
    }
    LatestIsUnique(w.j.orders, ticker, c);
  }

  lemma OwnMoveExit(w: World, w': World, i: nat, k: nat)
    requires Safe(w) && Base(w') && OwnMove(w, w', i) && k < |w.j.orders| && w.j.orders[k].IsMarketExit()
    ensures CampaignLocked(w', EntryOf(w', k)) && (!Dead(w', k) ==> ExactlyPledged(w', k))
  {
    var e := EntryOf(w, k);
    assert RowLinked(w.j, k) && TradeLinked(w.j, w.j.orders[k].tradeId.value) && CampaignLocked(w, e);
    assert EntryOf(w', k) == e;
    if !Dead(w', k) {
      assert ExactlyPledged(w, k);
      OwnMoveNet(w, w', i, e);
      if i != k && w.j.orders[i].IsMarketExit() && CampaignOf(w, i) == e { OtherExitIsDead(w, i, k); }
    }
  }

  lemma OtherExitIsDead(w: World, i: nat, k: nat)
    requires Safe(w) && i < |w.j.orders| && k < |w.j.orders| && i != k && !Dead(w, k)
    requires w.j.orders[i].IsMarketExit() && w.j.orders[k].IsMarketExit() && EntryOf(w, i) == EntryOf(w, k)
    ensures Dead(w, i)
  {
    assert RowLinked(w.j, i) && RowLinked(w.j, k);
    assert TradeLinked(w.j, w.j.orders[i].tradeId.value) && TradeLinked(w.j, w.j.orders[k].tradeId.value);
    if !Dead(w, i) { LiveMeansLatest(w, i); }
    assert TwoExits(w, i, k) && TwoExits(w, k, i);
  }

  /** What an own move of order `i` does to the position in `ticker`. */
  ghost function Shift(w: World, w': World, i: nat, ticker: Ticker): int
    requires Shaped(w) && Shaped(w') && OwnMove(w, w', i)
  {
    var o, d := w.j.orders[i], Delta(w, w', i);
    if o.ticker != ticker then 0 else if o.IsEntry() then o.direction.Signed(d) else o.direction.Signed(0 - d)
  }

  lemma OwnMoveShift(w: World, w': World, i: nat, ticker: Ticker)
    requires Shaped(w) && Shaped(w') && OwnMove(w, w', i)
    ensures Position(w', ticker) == Position(w, ticker) + Shift(w, w', i, ticker)
  {
    var before, after := PositionWeights(w, ticker), PositionWeights(w', ticker);
    forall k | 0 <= k < |before| && k != i ensures before[k] == after[k] {
      assert w'.remote[k] == w.remote[k];
    }
    SumChange(before, after, i);
    OwnMoveWeight(w, w', i, ticker);
  }

  lemma OwnMoveWeight(w: World, w': World, i: nat, ticker: Ticker)
    requires Shaped(w) && Shaped(w') && OwnMove(w, w', i)
    ensures PositionWeight(w', i, ticker) == PositionWeight(w, i, ticker) + Shift(w, w', i, ticker)
  {}

  lemma OwnMoveLatest(w: World, w': World, i: nat, ticker: Ticker)
    requires Base(w) && Base(w') && OwnMove(w, w', i)
    ensures match LatestEntry(w.j.orders, ticker)
      case None => Shift(w, w', i, ticker) == 0
      case Some(e) =>
        w.j.orders[e].direction.Signed(Net(w', e))
          == w.j.orders[e].direction.Signed(Net(w, e)) + Shift(w, w', i, ticker)
  {
    OwnMoveCampaign(w, w', i);
    var latest := LatestEntry(w.j.orders, ticker);
    if latest.Some? { OwnMoveNet(w, w', i, latest.value); }
  }

  lemma OwnMovePosition(w: World, w': World, i: nat, ticker: Ticker)
    requires Base(w) && PositionFollows(w, ticker) && Base(w') && OwnMove(w, w', i)
    ensures PositionFollows(w', ticker)
  {
    OwnMoveShift(w, w', i, ticker);
    OwnMoveLatest(w, w', i, ticker);
  }

  lemma OwnMoveCampaign(w: World, w': World, i: nat)
    requires Base(w) && Base(w') && OwnMove(w, w', i)
    ensures CampaignOf(w, i) < |w.j.orders| && w.j.orders[CampaignOf(w, i)].ticker == w.j.orders[i].ticker
    ensures Delta(w, w', i) > 0 ==>
      LatestEntry(w.j.orders, w.j.orders[i].ticker) == Some(CampaignOf(w, i))
      && w.j.orders[CampaignOf(w, i)].direction == w.j.orders[i].direction
  {
    assert RowLinked(w.j, i);
    if w.j.orders[i].IsMarketExit() { assert TradeLinked(w.j, w.j.orders[i].tradeId.value); }
    if Delta(w, w', i) > 0 { LiveMeansLatest(w, i); }
  }

  lemma OwnMoveOld(w: World, w': World, i: nat, e: nat, e': nat)
    requires Safe(w) && Base(w') && OwnMove(w, w', i)
    requires e < e' < |w.j.orders| && w.j.orders[e].IsEntry() && Precedes(w, e, e')
    ensures Net(w', e) == 0
  {
    OwnMoveNet(w, w', i, e);
    OwnMoveCampaign(w, w', i);
  }

  lemma JournalUnchanged(w: World, w': World)
    requires Shaped(w) && Shaped(w') && AllConserved(w) && w'.j == w.j
    ensures AllConserved(w')
  {
    forall t | 0 <= t < |w.j.trades| ensures Conserved(w', t) { assert Conserved(w, t); }
  }

  lemma OwnMoveKeepsSafe(w: World, w': World, i: nat)
    requires Safe(w) && Base(w') && OwnMove(w, w', i)
    ensures Safe(w')
  {
    JournalUnchanged(w, w');
    forall t | 0 <= t < |w.j.trades| ensures TradeCovered(w', t) {
      assert TradeCovered(w, t) && TradeLinked(w.j, t);
      OwnMoveSums(w, w', i, t);
      OwnMoveNet(w, w', i, w.j.trades[t].entryOrder);
    }
    forall k | 0 <= k < |w.j.orders| && w.j.orders[k].IsMarketExit()
      ensures CampaignLocked(w', EntryOf(w', k)) && (!Dead(w', k) ==> ExactlyPledged(w', k)) {
      OwnMoveExit(w, w', i, k);
    }
    forall k, l | 0 <= k < l < |w.j.orders| && TwoExits(w', k, l) ensures Dead(w', k) { assert TwoExits(w, k, l); }
    forall e, e' | 0 <= e < e' < |w.j.orders| && w.j.orders[e].IsEntry() && Precedes(w', e, e')
      ensures Net(w', e) == 0 {
      OwnMoveOld(w, w', i, e, e');
    }
    forall ticker: Ticker ensures PositionFollows(w', ticker) { OwnMovePosition(w, w', i, ticker); }
  }

  lemma OwnStepIsOwnMove(w: World, a: Action)
    requires Safe(w) && Enabled(w, a) && (a.Send? || a.BrokerAccepts? || a.BrokerMoves?) && Base(Do(w, a))
    requires !w.j.orders[a.order].IsLeg()
    ensures OwnMove(w, Do(w, a), a.order)
  {
    assert OwnRowTrue(w, a.order);
  }

  /** A leg of entry `p` fills: impossible once market exits exist or the campaign is over. */
  lemma LegMoveSums(w: World, a: Action, t: nat)
    requires Base(w) && Enabled(w, a) && a.LegMoves? && Base(Do(w, a))
    ensures Sold(Do(w, a), t) == Sold(w, t) && Pledged(Do(w, a), t) == Pledged(w, t)
  {
    assert SoldWeights(Do(w, a), t) == SoldWeights(w, t);
    assert PledgeWeights(Do(w, a), t) == PledgeWeights(w, t);
  }

  ghost function LegDelta(w: World, a: Action): int
    requires Shaped(w) && Enabled(w, a) && a.LegMoves?
  {
    a.filled - w.remote[a.order].Leg(a.kind).filled
  }

  lemma LegMoveNet(w: World, a: Action, e: nat)
    requires Base(w) && Enabled(w, a) && a.LegMoves? && Base(Do(w, a)) && e < |w.j.orders|
    ensures AfterLegs(Do(w, a), e) == AfterLegs(w, e) - if e == a.order then LegDelta(w, a) else 0
    ensures Net(Do(w, a), e) == Net(w, e) - if e == a.order then LegDelta(w, a) else 0
  {
    if w.j.orders[e].tradeId.Some? { LegMoveSums(w, a, w.j.orders[e].tradeId.value); }
  }

  /** While a leg can still fill, its campaign has no market exit. */
  lemma LiveLegMeansNoExits(w: World, a: Action, t: nat)
    requires Safe(w) && Enabled(w, a) && a.LegMoves? && t < |w.j.trades| && w.j.trades[t].entryOrder == a.order
    ensures Sold(w, t) == 0 == Pledged(w, t)
  {
    forall i | 0 <= i < |w.j.orders| ensures !MarketOf(w, i, t) { MarketMeansLocked(w, i, t); }
    SumZero(SoldWeights(w, t));
    SumZero(PledgeWeights(w, t));
  }

  lemma LegMoveTrade(w: World, a: Action, t: nat)
    requires Safe(w) && Enabled(w, a) && a.LegMoves? && Base(Do(w, a)) && t < |w.j.trades|
    ensures TradeCovered(Do(w, a), t)
  {
    assert TradeCovered(w, t) && TradeLinked(w.j, t);
    LegMoveSums(w, a, t);
    LegMoveNet(w, a, w.j.trades[t].entryOrder);
    if w.j.trades[t].entryOrder == a.order { LiveLegMeansNoExits(w, a, t); }
  }

  lemma LegMoveExit(w: World, a: Action, k: nat)
    requires Safe(w) && Enabled(w, a) && a.LegMoves? && Base(Do(w, a))
    requires k < |w.j.orders| && w.j.orders[k].IsMarketExit()
    ensures var w' := Do(w, a); CampaignLocked(w', EntryOf(w', k)) && (!Dead(w', k) ==> ExactlyPledged(w', k))
  {
    assert RowLinked(w.j, k) && CampaignLocked(w, EntryOf(w, k));
    LegMoveNet(w, a, EntryOf(w, k));
    if !Dead(w, k) { assert ExactlyPledged(w, k); }
  }

  /** A retired campaign's legs are capped by what its entry bought. */
  lemma LegMoveOld(w: World, a: Action, e: nat, e': nat)
    requires Safe(w) && Enabled(w, a) && a.LegMoves? && Base(Do(w, a))
    requires e < e' < |w.j.orders| && w.j.orders[e].IsEntry() && Precedes(w, e, e')
    ensures Net(Do(w, a), e) == 0
  {
    LegMoveNet(w, a, e);
    assert RowLinked(w.j, e);
    if e == a.order && w.j.orders[e].tradeId.Some? {
      assert TradeLinked(w.j, w.j.orders[e].tradeId.value);
      LiveLegMeansNoExits(w, a, w.j.orders[e].tradeId.value);
    }
  }

  /** The legs of a campaign that was followed by another one have nothing left to fill. */
  lemma OldLegsAreStill(w: World, a: Action, latest: nat)
    requires Safe(w) && Enabled(w, a) && a.LegMoves? && Base(Do(w, a))
    requires a.order < latest < |w.j.orders| && Precedes(w, a.order, latest)
    ensures LegDelta(w, a) == 0
  {
    assert Net(w, a.order) == 0;
    LegMoveOld(w, a, a.order, latest);
    LegMoveNet(w, a, a.order);
  }

  lemma LegMovePosition(w: World, w': World, a: Action, ticker: Ticker)
    requires Safe(w) && Enabled(w, a) && a.LegMoves? && w' == Do(w, a) && Base(w')
    ensures PositionFollows(w', ticker)
  {
    assert PositionFollows(w, ticker);
    assert RowLinked(w.j, a.order);
    var latest := LatestEntry(w.j.orders, ticker);
    if latest.Some? && w.j.orders[a.order].ticker == ticker && a.order < latest.value {
      assert Precedes(w, a.order, latest.value);
      OldLegsAreStill(w, a, latest.value);
    }
    LegMoveFollows(w, w', a, ticker);
  }

  lemma LegMoveFollows(w: World, w': World, a: Action, ticker: Ticker)
    requires Base(w) && Enabled(w, a) && a.LegMoves? && w' == Do(w, a) && Base(w')
    requires PositionFollows(w, ticker)
    requires var latest := LatestEntry(w.j.orders, ticker);
      latest.Some? && w.j.orders[a.order].ticker == ticker && a.order < latest.value ==> LegDelta(w, a) == 0
    ensures PositionFollows(w', ticker)
  {
    LegMoveShift(w, w', a, ticker);
    var latest := LatestEntry(w.j.orders, ticker);
    if latest.Some? { LegMoveNet(w, a, latest.value); }
  }

  lemma LegMoveShift(w: World, w': World, a: Action, ticker: Ticker)
    requires Base(w) && Enabled(w, a) && a.LegMoves? && w' == Do(w, a) && Base(w')
    ensures Position(w', ticker) == Position(w, ticker) -
      if w.j.orders[a.order].ticker == ticker then w.j.orders[a.order].direction.Signed(LegDelta(w, a)) else 0
  {
    var before, after := PositionWeights(w, ticker), PositionWeights(w', ticker);
    assert RowLinked(w.j, a.order);
    forall k | 0 <= k < |before| && k != a.order ensures before[k] == after[k] {
      assert w'.remote[k] == w.remote[k];
    }
    SumChange(before, after, a.order);
    LegMoveNet(w, a, a.order);
  }

  lemma LegMoveKeepsSafe(w: World, a: Action)
    requires Safe(w) && Enabled(w, a) && a.LegMoves?
    ensures Safe(Do(w, a))
  {
    var w' := Do(w, a);
    StepKeepsBase(w, a);
    JournalUnchanged(w, w');
    forall t | 0 <= t < |w.j.trades| ensures TradeCovered(w', t) { LegMoveTrade(w, a, t); }
    forall k | 0 <= k < |w.j.orders| && w.j.orders[k].IsMarketExit()
      ensures CampaignLocked(w', EntryOf(w', k)) && (!Dead(w', k) ==> ExactlyPledged(w', k)) {
      LegMoveExit(w, a, k);
    }
    forall k, l | 0 <= k < l < |w.j.orders| && TwoExits(w', k, l) ensures Dead(w', k) { assert TwoExits(w, k, l); }
    forall e, e' | 0 <= e < e' < |w.j.orders| && w.j.orders[e].IsEntry() && Precedes(w', e, e')
      ensures Net(w', e) == 0 {
      assert Precedes(w, e, e');
      LegMoveOld(w, a, e, e');
    }
    forall ticker: Ticker ensures PositionFollows(w', ticker) { LegMovePosition(w, w', a, ticker); }
  }

  lemma StepKeepsSafe(w: World, a: Action)
    requires Safe(w) && Enabled(w, a) && InOrder(w, a)
    ensures Safe(Do(w, a))
  {
    match a
    case OpenIntent(_, _, _) => EntryIntentKeepsSafe(w, a);
    case ExitIntent(_) => ExitIntentKeepsSafe(w, a);
    case Observe(_, _, _) => ObserveKeepsSafe(w, a);
    case Discover(id, kinds) => DiscoverKeepsSafe(w, id, kinds);
    case LegMoves(_, _, _, _) => LegMoveKeepsSafe(w, a);
    case Send(_) => StepKeepsBase(w, a); OwnStepIsOwnMove(w, a); OwnMoveKeepsSafe(w, Do(w, a), a.order);
    case BrokerAccepts(_) => StepKeepsBase(w, a); OwnStepIsOwnMove(w, a); OwnMoveKeepsSafe(w, Do(w, a), a.order);
    case BrokerMoves(_, _, _) => StepKeepsBase(w, a); OwnStepIsOwnMove(w, a); OwnMoveKeepsSafe(w, Do(w, a), a.order);
    case BeginSubmit(_) => TouchKeepsSafe(w, a);
    case MarkUnresolved(_) => TouchKeepsSafe(w, a);
    case CancelUnsent(_) => TouchKeepsSafe(w, a);
    case FlagFlatten(_) => TouchKeepsSafe(w, a);
    case NotePendingExit(_) => TouchKeepsSafe(w, a);
    case ListPositions(_) => TouchKeepsSafe(w, a);
    case Crash => TouchKeepsSafe(w, a);
  }
}
