/** What the broker's position listing decides: a market exit is for exactly what the listing said, so it sells exactly
    the position when, and only when, the listing was right. Nothing is assumed about the order of reports here. */
module OrderListings {
  import opened Common
  import opened OrderJournal
  import opened OrderProtocol
  import opened OrderTruth
  import opened OrderConservation
  import opened OrderSafety
  import opened OrderSafetySteps
  import opened OrderTheorems

  /** What a listing says of one ticker. */
  function Listed(listing: Listing, ticker: Ticker): int { if ticker in listing then listing[ticker] else 0 }

  // --- what dead orders and finished legs keep ---

  /** The row of own order `k` is the same order, and what was final about it is final. */
  ghost predicate RowStays(w: World, w': World, k: nat)
    requires Shaped(w) && Shaped(w') && k < |w.j.orders|
  {
    && k < |w'.j.orders| && SameIdentity(w.j.orders[k], w'.j.orders[k])
    && (w.j.orders[k].IsMarketExit() ==> w'.j.orders[k].tradeId == w.j.orders[k].tradeId)
    && (Dead(w, k) ==>
      Dead(w', k) && w'.remote[k].filled == w.remote[k].filled
      && (w.j.orders[k].applied == w.remote[k].filled ==> w'.j.orders[k].applied == w.remote[k].filled))
  }

  lemma {:induction false} DiscoverKeepsRow(w: World, id: nat, kinds: seq<LegKind>, k: nat)
    requires Shaped(w) && id < |w.j.orders| && w.j.orders[id].IsEntry() && k < |w.j.orders|
    ensures var w' := DiscoverAll(w, id, kinds);
      && |w.j.orders| <= |w'.j.orders| && |w'.remote| == |w'.j.orders| && w'.remote[k] == w.remote[k]
      && w'.sending == w.sending && w'.listing == w.listing
      && SameIdentity(w.j.orders[k], w'.j.orders[k]) && w'.j.orders[k].state == w.j.orders[k].state
      && (!w.j.orders[k].IsLeg() ==> w'.j.orders[k] == w.j.orders[k])
    ensures var w' := DiscoverAll(w, id, kinds);
      forall i :: |w.j.orders| <= i < |w'.j.orders| ==> w'.j.orders[i].IsLeg()
  {
    if kinds == [] {
      assert DiscoverAll(w, id, kinds) == w;
    } else {
      var front := kinds[..|kinds| - 1];
      DiscoverKeepsRow(w, id, front, k);
      DiscoverAllShaped(w, id, front);
      DiscoverOneKeepsRow(DiscoverAll(w, id, front), id, kinds[|kinds| - 1], k);
    }
  }

  lemma DiscoverOneKeepsRow(w: World, id: nat, kind: LegKind, k: nat)
    requires Shaped(w) && id < |w.j.orders| && k < |w.j.orders|
    ensures var w' := DiscoverOne(w, id, kind);
      && |w.j.orders| <= |w'.j.orders| && |w'.remote| == |w'.j.orders| && w'.remote[k] == w.remote[k]
      && w'.sending == w.sending && w'.listing == w.listing
      && SameIdentity(w.j.orders[k], w'.j.orders[k]) && w'.j.orders[k].state == w.j.orders[k].state
      && (!w.j.orders[k].IsLeg() ==> w'.j.orders[k] == w.j.orders[k])
      && forall i :: |w.j.orders| <= i < |w'.j.orders| ==> w'.j.orders[i].IsLeg()
  {}

  lemma ObserveKeepsRow(w: World, a: Action, k: nat)
    requires Base(w) && Enabled(w, a) && a.Observe? && Shaped(Do(w, a)) && k < |w.j.orders| && !w.j.orders[k].IsLeg()
    ensures RowStays(w, Do(w, a), k)
  {
    ReportEffect(w.j, a.order, a.report);
    assert OwnRowTrue(w, k) && RowLinked(w.j, k);
  }

  lemma WorkerKeepsRow(w: World, a: Action, k: nat)
    requires Base(w) && Enabled(w, a) && Shaped(Do(w, a)) && k < |w.j.orders| && !w.j.orders[k].IsLeg()
    requires !a.Observe? && !a.Discover? && !a.BrokerMoves? && !a.LegMoves? && !a.BrokerAccepts?
    ensures RowStays(w, Do(w, a), k)
  {
    assert OwnRowTrue(w, k);
  }

  lemma BrokerKeepsRow(w: World, a: Action, k: nat)
    requires Base(w) && Enabled(w, a) && Shaped(Do(w, a)) && k < |w.j.orders| && !w.j.orders[k].IsLeg()
    requires a.BrokerMoves? || a.LegMoves? || a.BrokerAccepts?
    ensures RowStays(w, Do(w, a), k)
  {
    assert OwnRowTrue(w, k);
  }

  lemma StepKeepsRow(w: World, a: Action, k: nat)
    requires Base(w) && Enabled(w, a) && Shaped(Do(w, a)) && k < |w.j.orders| && !w.j.orders[k].IsLeg()
    ensures RowStays(w, Do(w, a), k)
  {
    if a.Observe? {
      ObserveKeepsRow(w, a, k);
    } else if a.Discover? {
      DiscoverKeepsRow(w, a.order, a.kinds, k);
    } else if a.BrokerMoves? || a.LegMoves? || a.BrokerAccepts? {
      BrokerKeepsRow(w, a, k);
    } else {
      WorkerKeepsRow(w, a, k);
    }
  }

  /** The legs of entry `e` cannot fill any further: both are finished, or they sold all there was. */
  ghost predicate LegsStill(w: World, e: nat)
    requires Shaped(w) && e < |w.j.orders|
  {
    (w.remote[e].target.done && w.remote[e].stop.done) || w.remote[e].LegsFilled() == w.remote[e].filled
  }

  lemma StepKeepsLegs(w: World, a: Action, e: nat)
    requires Base(w) && Enabled(w, a) && Shaped(Do(w, a)) && e < |w.j.orders| && w.j.orders[e].IsEntry()
    requires Dead(w, e) && LegsStill(w, e)
    ensures e < |Do(w, a).j.orders| && LegsStill(Do(w, a), e)
    ensures Do(w, a).remote[e].LegsFilled() == w.remote[e].LegsFilled()
    ensures w.remote[e].target.done && w.remote[e].stop.done ==>
      Do(w, a).remote[e].target.done && Do(w, a).remote[e].stop.done
  {
    assert RowLinked(w.j, e) && OwnRowTrue(w, e);
    if a.Observe? { ReportEffect(w.j, a.order, a.report); }
    if a.Discover? { DiscoverKeepsRow(w, a.order, a.kinds, e); }
  }

  // --- in every run market exits come last ---

  lemma {:induction false} EveryRunKeepsExitsLast(run: seq<Action>)
    requires IsRun(INITIAL, run)
    ensures Base(After(INITIAL, run)) && ExitsLast(After(INITIAL, run))
    decreases |run|
  {
    RunKeepsBase(run);
    if run == [] {
    } else {
      EveryRunKeepsExitsLast(run[..|run| - 1]);
      StepKeepsExitsLast(After(INITIAL, run[..|run| - 1]), run[|run| - 1]);
    }
  }

  lemma StepKeepsExitsLast(w: World, a: Action)
    requires Base(w) && ExitsLast(w) && Enabled(w, a)
    ensures Base(Do(w, a)) && ExitsLast(Do(w, a))
  {
    var w' := Do(w, a);
    StepKeepsBase(w, a);
    forall i | 0 <= i < |w'.j.orders| && w'.j.orders[i].IsMarketExit() ensures CampaignLocked(w', EntryOf(w', i)) {
      if i < |w.j.orders| { OldExitStaysLast(w, a, i); } else { NewExitIsLast(w, a, i); }
    }
    forall i, k | 0 <= i < k < |w'.j.orders| && TwoExits(w', i, k) ensures Dead(w', i) {
      EarlierExitIsDead(w, a, i, k);
    }
  }

  /** A new row is a leg or the one an intent adds. */
  lemma NewRowIs(w: World, a: Action, i: nat)
    requires Base(w) && Enabled(w, a) && Shaped(Do(w, a)) && |w.j.orders| <= i < |Do(w, a).j.orders|
    ensures !Do(w, a).j.orders[i].IsLeg() ==>
      (a.OpenIntent? || a.ExitIntent?) && i == |w.j.orders| && Do(w, a).j.orders[..i] == w.j.orders
  {
    if a.Discover? { DiscoverKeepsRow(w, a.order, a.kinds, 0); }
  }

  lemma OldExitStaysLast(w: World, a: Action, i: nat)
    requires Base(w) && ExitsLast(w) && Enabled(w, a) && Base(Do(w, a))
    requires i < |w.j.orders| && i < |Do(w, a).j.orders| && Do(w, a).j.orders[i].IsMarketExit()
    ensures w.j.orders[i].IsMarketExit() && CampaignLocked(Do(w, a), EntryOf(Do(w, a), i))
  {
    var w' := Do(w, a);
    RowIsSame(w, a, i);
    var e := EntryOf(w, i);
    assert RowLinked(w.j, i) && CampaignLocked(w, e);
    assert TradeLinked(w.j, w.j.orders[i].tradeId.value) && RowLinked(w.j, e);
    StepKeepsRow(w, a, i);
    StepKeepsRow(w, a, e);
    StepKeepsLegs(w, a, e);
    EntryStays(w, a, w.j.orders[i].tradeId.value);
    assert EntryOf(w', i) == e;
  }

  lemma RowIsSame(w: World, a: Action, i: nat)
    requires Base(w) && Enabled(w, a) && i < |w.j.orders|
    ensures i < |Do(w, a).j.orders| && SameIdentity(w.j.orders[i], Do(w, a).j.orders[i])
  {
    if a.Observe? { ReportEffect(w.j, a.order, a.report); }
    if a.Discover? { DiscoverKeepsRow(w, a.order, a.kinds, i); }
  }

  lemma EntryStays(w: World, a: Action, t: nat)
    requires Base(w) && Enabled(w, a) && t < |w.j.trades|
    ensures t < |Do(w, a).j.trades| && Do(w, a).j.trades[t].entryOrder == w.j.trades[t].entryOrder
    ensures Do(w, a).j.trades[t].ticker == w.j.trades[t].ticker
      && Do(w, a).j.trades[t].direction == w.j.trades[t].direction
  {
    if a.Observe? { ReportEffect(w.j, a.order, a.report); }
    if a.Discover? { DiscoverKeepsRows(w, a.order, a.kinds); }
  }

  lemma NewExitIsLast(w: World, a: Action, i: nat)
    requires Base(w) && Enabled(w, a) && Base(Do(w, a)) && |w.j.orders| <= i < |Do(w, a).j.orders|
    requires Do(w, a).j.orders[i].IsMarketExit()
    ensures a.ExitIntent? && CampaignLocked(Do(w, a), EntryOf(Do(w, a), i))
  {
    NewRowIs(w, a, i);
    var e := w.j.trades[a.trade].entryOrder;
    assert TradeLinked(w.j, a.trade) && RowLinked(w.j, e);
    SettledRowIsFinal(w, e);
    SettledLegIsDone(w, e, TargetLeg);
    SettledLegIsDone(w, e, StopLeg);
    StepKeepsRow(w, a, e);
    StepKeepsLegs(w, a, e);
  }

  lemma EarlierExitIsDead(w: World, a: Action, i: nat, k: nat)
    requires Base(w) && ExitsLast(w) && Enabled(w, a) && Base(Do(w, a))
    requires i < k < |Do(w, a).j.orders| && TwoExits(Do(w, a), i, k)
    ensures Dead(Do(w, a), i)
  {
    if k < |w.j.orders| {
      RowIsSame(w, a, i);
      RowIsSame(w, a, k);
      assert TwoExits(w, i, k);
    } else {
      NewRowIs(w, a, k);
      SettledRowIsFinal(w, i);
    }
    StepKeepsRow(w, a, i);
  }

  /** While a market exit can still fill, every other own order of its ticker is finished at the broker. */
  lemma OthersAreFinished(w: World, i: nat, k: nat)
    requires Base(w) && ExitsLast(w) && i < |w.j.orders| && k < |w.j.orders| && k != i
    requires w.j.orders[i].IsMarketExit() && !Dead(w, i) && SameTicker(w, k, i)
    ensures Dead(w, k)
  {
    assert RowLinked(w.j, i) && CampaignLocked(w, EntryOf(w, i));
    LiveMeansLatest(w, i);
    if !Dead(w, k) { LiveMeansLatest(w, k); }
    assert TwoExits(w, i, k) <==> w.j.orders[k].IsMarketExit();
    assert TwoExits(w, k, i) <==> w.j.orders[k].IsMarketExit();
  }

  // --- an exit is for what was listed ---

  /** What the listing said of the ticker when market exit `i` was written. */
  ghost function ListedFor(run: seq<Action>, i: nat): Option<int>
    requires IsRun(INITIAL, run)
    decreases |run|
  {
    if run == [] then None
    else
      var front, a := run[..|run| - 1], run[|run| - 1];
      RunShaped(INITIAL, front);
      var w := After(INITIAL, front);
      if a.ExitIntent? && i == |w.j.orders| then Some(Listed(w.listing.value, w.j.trades[a.trade].ticker))
      else ListedFor(front, i)
  }

  lemma {:induction false} ExitIsAsListed(run: seq<Action>, i: nat)
    requires IsRun(INITIAL, run) && i < |After(INITIAL, run).j.orders| && After(INITIAL, run).j.orders[i].IsMarketExit()
    ensures var o := After(INITIAL, run).j.orders[i]; ListedFor(run, i) == Some(o.direction.Signed(o.requested))
    decreases |run|
  {
    if run == [] {
    } else {
      var front, a := run[..|run| - 1], run[|run| - 1];
      RunKeepsBase(front);
      var w := After(INITIAL, front);
      StepShaped(w, a);
      if i < |w.j.orders| {
        RowIsSame(w, a, i);
        ExitIsAsListed(front, i);
      } else {
        NewRowIs(w, a, i);
        assert Shows(w.listing.value, w.j.trades, a.trade);
      }
    }
  }

  /** The exit would take the position beyond zero. */
  ghost predicate Oversells(w: World, i: nat)
    requires Shaped(w) && i < |w.j.orders|
  {
    w.j.orders[i].direction.Signed(Position(w, w.j.orders[i].ticker)) < w.j.orders[i].requested
  }

  /** In every run, whatever the broker reports and in whatever order: when a market exit leaves the process, all other
      orders of its ticker are finished at the broker, and it sells exactly the position if and only if the listing
      that cleared it is the position. It oversells exactly if the listing showed more, on its side, than is held. */
  lemma FlattenMatchesListing(run: seq<Action>, i: nat)
    requires IsRun(INITIAL, run) && Shaped(After(INITIAL, run))
    requires var w := After(INITIAL, run); i < |w.j.orders| && w.j.orders[i].IsMarketExit() && w.sending == Some(i)
    ensures ListedFor(run, i).Some?
    ensures var w := After(INITIAL, run);
      var ticker := w.j.orders[i].ticker;
      && (forall k :: 0 <= k < |w.j.orders| && k != i && SameTicker(w, k, i) ==> Dead(w, k))
      && (SellsExactly(w, i) <==> ListedFor(run, i).value == Position(w, ticker))
      && (Oversells(w, i) <==>
        w.j.orders[i].direction.Signed(Position(w, ticker)) < w.j.orders[i].direction.Signed(ListedFor(run, i).value))
  {
    var w := After(INITIAL, run);
    EveryRunKeepsExitsLast(run);
    ExitIsAsListed(run, i);
    assert OwnRowTrue(w, i) && CampaignLocked(w, EntryOf(w, i));
    forall k | 0 <= k < |w.j.orders| && k != i && SameTicker(w, k, i) ensures Dead(w, k) { OthersAreFinished(w, i, k); }
  }

  // --- true listings ---

  /** Nothing of the ticker can fill any more, but for order `but`. */
  ghost predicate Still(w: World, ticker: Ticker, but: Option<nat>)
    requires Shaped(w)
  {
    forall k :: 0 <= k < |w.j.orders| && OwnOf(w, k, ticker) && but != Some(k) ==> RowIsStill(w, k)
  }

  ghost predicate OwnOf(w: World, k: nat, ticker: Ticker)
    requires k < |w.j.orders|
  {
    !w.j.orders[k].IsLeg() && w.j.orders[k].ticker == ticker
  }

  ghost predicate RowIsStill(w: World, k: nat)
    requires Shaped(w) && k < |w.j.orders|
  {
    Dead(w, k) && (w.j.orders[k].IsEntry() ==> LegsStill(w, k))
  }

  ghost predicate IntentFor(w: World, a: Action, ticker: Ticker)
    requires Shaped(w) && Enabled(w, a)
  {
    (a.OpenIntent? && a.ticker == ticker) || (a.ExitIntent? && w.j.trades[a.trade].ticker == ticker)
  }

  lemma StillRowKeepsWeight(w: World, a: Action, k: nat, ticker: Ticker)
    requires Base(w) && Enabled(w, a) && Base(Do(w, a)) && k < |w.j.orders|
    requires OwnOf(w, k, ticker) ==> RowIsStill(w, k)
    ensures k < |Do(w, a).j.orders| && PositionWeight(Do(w, a), k, ticker) == PositionWeight(w, k, ticker)
    ensures OwnOf(Do(w, a), k, ticker) ==> OwnOf(w, k, ticker) && RowIsStill(Do(w, a), k)
  {
    RowIsSame(w, a, k);
    if OwnOf(w, k, ticker) {
      StepKeepsRow(w, a, k);
      if w.j.orders[k].IsEntry() { StepKeepsLegs(w, a, k); }
    }
  }

  lemma NewRowWeighsNothing(w: World, a: Action, k: nat, ticker: Ticker)
    requires Base(w) && Enabled(w, a) && Base(Do(w, a)) && |w.j.orders| <= k < |Do(w, a).j.orders|
      && !IntentFor(w, a, ticker)
    ensures !OwnOf(Do(w, a), k, ticker) && PositionWeight(Do(w, a), k, ticker) == 0
  {
    NewRowIs(w, a, k);
  }

  /** A step that opens nothing new on a still ticker leaves it still, and its position where it was. */
  lemma StillStays(w: World, a: Action, ticker: Ticker)
    requires Base(w) && Still(w, ticker, None) && Enabled(w, a) && Base(Do(w, a)) && !IntentFor(w, a, ticker)
    ensures Still(Do(w, a), ticker, None) && Position(Do(w, a), ticker) == Position(w, ticker)
  {
    var w' := Do(w, a);
    RowsOnlyGrow(w, a);
    forall k | 0 <= k < |w'.j.orders|
      ensures (OwnOf(w', k, ticker) ==> RowIsStill(w', k))
        && PositionWeight(w', k, ticker) == if k < |w.j.orders| then PositionWeight(w, k, ticker) else 0 {
      if k < |w.j.orders| { StillRowKeepsWeight(w, a, k, ticker); } else { NewRowWeighsNothing(w, a, k, ticker); }
    }
    SumTail(PositionWeights(w, ticker), PositionWeights(w', ticker));
  }

  lemma RowsOnlyGrow(w: World, a: Action)
    requires Base(w) && Enabled(w, a)
    ensures |w.j.orders| <= |Do(w, a).j.orders|
  {
    if w.j.orders != [] { RowIsSame(w, a, |w.j.orders| - 1); }
  }

  /** Beside a live exit all rows of the ticker stay still and weigh what they did. */
  lemma RowsBeside(w: World, a: Action, i: nat, k: nat)
    requires Base(w) && Enabled(w, a) && Base(Do(w, a)) && i < |w.j.orders| && !w.j.orders[i].IsLeg() && !Dead(w, i)
    requires Still(w, w.j.orders[i].ticker, Some(i)) && k < |Do(w, a).j.orders| && k != i
    ensures var w', ticker := Do(w, a), w.j.orders[i].ticker;
      && (OwnOf(w', k, ticker) ==> RowIsStill(w', k))
      && PositionWeight(w', k, ticker) == if k < |w.j.orders| then PositionWeight(w, k, ticker) else 0
  {
    var ticker := w.j.orders[i].ticker;
    NoIntentBeside(w, a, i);
    if k < |w.j.orders| { StillRowKeepsWeight(w, a, k, ticker); } else { NewRowWeighsNothing(w, a, k, ticker); }
  }

  /** While a live exit is all that moves, position and exit together stay what they were. */
  lemma LiveExitStays(w: World, a: Action, i: nat)
    requires Base(w) && Enabled(w, a) && Base(Do(w, a)) && i < |w.j.orders| && w.j.orders[i].IsMarketExit()
      && !Dead(w, i)
    requires Still(w, w.j.orders[i].ticker, Some(i))
    ensures i < |Do(w, a).j.orders| && SameIdentity(w.j.orders[i], Do(w, a).j.orders[i])
    ensures Still(Do(w, a), w.j.orders[i].ticker, Some(i))
    ensures PositionAndSold(Do(w, a), i) == PositionAndSold(w, i)
  {
    var w', ticker := Do(w, a), w.j.orders[i].ticker;
    RowsOnlyGrow(w, a);
    RowIsSame(w, a, i);
    forall k | 0 <= k < |w'.j.orders| && k != i
      ensures (OwnOf(w', k, ticker) ==> RowIsStill(w', k))
        && PositionWeights(w', ticker)[k] == if k < |w.j.orders| then PositionWeights(w, ticker)[k] else 0 {
      RowsBeside(w, a, i, k);
    }
    SumChangeTail(PositionWeights(w, ticker), PositionWeights(w', ticker), i);
    ExitWeighs(w, i);
    ExitWeighs(w', i);
  }

  /** The position together with what exit `i` already sold of it. */
  ghost function PositionAndSold(w: World, i: nat): int
    requires Shaped(w) && i < |w.j.orders|
  {
    Position(w, w.j.orders[i].ticker) + w.j.orders[i].direction.Signed(w.remote[i].filled)
  }

  lemma ExitWeighs(w: World, i: nat)
    requires Shaped(w) && i < |w.j.orders| && w.j.orders[i].IsMarketExit()
    ensures PositionWeights(w, w.j.orders[i].ticker)[i] == w.j.orders[i].direction.Signed(0 - w.remote[i].filled)
  {}

  /** A live order keeps its ticker unsettled, so nothing new is opened there. */
  lemma NoIntentBeside(w: World, a: Action, i: nat)
    requires Base(w) && Enabled(w, a) && i < |w.j.orders| && !w.j.orders[i].IsLeg() && !Dead(w, i)
    ensures !IntentFor(w, a, w.j.orders[i].ticker)
  {
    assert OwnRowTrue(w, i);
  }

  /** The journal knows both legs of every entry of the ticker that filled. */
  predicate AllLegsKnown(orders: seq<Order>, ticker: Ticker) {
    forall e :: 0 <= e < |orders| && orders[e].IsEntry() && orders[e].ticker == ticker && orders[e].applied > 0 ==>
      BothLegsKnown(orders, e)
  }

  ghost predicate Quiet(w: World, ticker: Ticker) {
    TickerSettled(w.j.orders, ticker) && AllLegsKnown(w.j.orders, ticker)
  }

  lemma QuietIsStill(w: World, ticker: Ticker)
    requires Base(w) && Quiet(w, ticker)
    ensures Still(w, ticker, None)
  {
    forall k | 0 <= k < |w.j.orders| && OwnOf(w, k, ticker) ensures RowIsStill(w, k) {
      SettledRowIsFinal(w, k);
      assert OwnRowTrue(w, k);
      if w.j.orders[k].IsEntry() && w.j.orders[k].applied > 0 {
        SettledLegIsDone(w, k, TargetLeg);
        SettledLegIsDone(w, k, StopLeg);
      }
    }
  }

  ghost predicate AgreesWith(w: World, listing: Listing)
    requires Shaped(w)
  {
    forall ticker: Ticker :: Listed(listing, ticker) == Position(w, ticker)
  }

  /** A listing still in force is right about every ticker on which nothing can move. */
  ghost predicate ListingHolds(w: World)
    requires Shaped(w)
  {
    w.listing.Some? ==> forall ticker: Ticker :: Quiet(w, ticker) ==> RightAbout(w, ticker)
  }

  ghost predicate RightAbout(w: World, ticker: Ticker)
    requires Shaped(w) && w.listing.Some?
  {
    Listed(w.listing.value, ticker) == Position(w, ticker)
  }

  /** Only a recorded report, or a withdrawn intent, can settle a ticker; both end the listing's force. */
  lemma QuietWasQuiet(w: World, a: Action, ticker: Ticker)
    requires Base(w) && Enabled(w, a) && !a.Observe? && !a.CancelUnsent? && !a.Discover? && !a.Crash?
    requires Quiet(Do(w, a), ticker)
    ensures Quiet(w, ticker) && !IntentFor(w, a, ticker)
  {
    var w' := Do(w, a);
    RowsOnlyGrow(w, a);
    if a.OpenIntent? || a.ExitIntent? { assert w'.j.orders[|w.j.orders|].state.PendingSubmission?; }
    forall i | 0 <= i < |w.j.orders| && w.j.orders[i].ticker == ticker ensures w.j.orders[i].state.Terminal() {
      assert w'.j.orders[i].ticker == ticker;
    }
    forall e | 0 <= e < |w.j.orders| && w.j.orders[e].IsEntry() && w.j.orders[e].ticker == ticker
      && w.j.orders[e].applied > 0
      ensures BothLegsKnown(w.j.orders, e) {
      assert w'.j.orders[e].applied > 0;
      SameLegs(w, a, e, TargetLeg);
      SameLegs(w, a, e, StopLeg);
    }
  }

  /** Steps other than reports and discoveries add no leg. */
  lemma SameLegs(w: World, a: Action, e: nat, kind: LegKind)
    requires Base(w) && Enabled(w, a) && !a.Observe? && !a.Discover?
    requires FindLeg(Do(w, a).j.orders, Parent(e, kind)).Some?
    ensures FindLeg(w.j.orders, Parent(e, kind)).Some?
  {
    var i := FindLeg(Do(w, a).j.orders, Parent(e, kind)).value;
    assert i < |w.j.orders| && w.j.orders[i].parent == Some(Parent(e, kind));
  }

  lemma DiscoverQuietWasQuiet(w: World, a: Action, ticker: Ticker)
    requires Base(w) && Enabled(w, a) && a.Discover? && Base(Do(w, a)) && Quiet(Do(w, a), ticker)
    ensures Quiet(w, ticker)
  {
    forall i | 0 <= i < |w.j.orders| && w.j.orders[i].ticker == ticker ensures w.j.orders[i].state.Terminal() {
      DiscoverKeepsRow(w, a.order, a.kinds, i);
      assert Do(w, a).j.orders[i].ticker == ticker;
    }
    forall e | 0 <= e < |w.j.orders| && w.j.orders[e].IsEntry() && w.j.orders[e].ticker == ticker
      && w.j.orders[e].applied > 0
      ensures BothLegsKnown(w.j.orders, e) {
      KnownLegsAreOld(w, a, e);
    }
  }

  lemma KnownLegsAreOld(w: World, a: Action, e: nat)
    requires Base(w) && Enabled(w, a) && a.Discover? && Base(Do(w, a)) && e < |w.j.orders| && w.j.orders[e].IsEntry()
    requires w.j.orders[e].applied > 0 && Quiet(Do(w, a), w.j.orders[e].ticker)
    ensures BothLegsKnown(w.j.orders, e)
  {
    DiscoverKeepsRow(w, a.order, a.kinds, e);
    assert RowLinked(w.j, e);
    assert Do(w, a).j.orders[e] == w.j.orders[e] && BothLegsKnown(Do(w, a).j.orders, e);
    SettledLegIsOld(w, a, e, TargetLeg);
    SettledLegIsOld(w, a, e, StopLeg);
  }

  /** A newly discovered leg is not finished yet. */
  lemma SettledLegIsOld(w: World, a: Action, e: nat, kind: LegKind)
    requires Base(w) && Enabled(w, a) && a.Discover? && e < |w.j.orders| && Base(Do(w, a))
    requires FindLeg(Do(w, a).j.orders, Parent(e, kind)).Some? && TickerSettled(Do(w, a).j.orders, w.j.orders[e].ticker)
    ensures FindLeg(w.j.orders, Parent(e, kind)).Some?
  {
    var w' := Do(w, a);
    var i := FindLeg(w'.j.orders, Parent(e, kind)).value;
    DiscoverKeepsRow(w, a.order, a.kinds, e);
    assert RowLinked(w'.j, i);
    if i < |w.j.orders| {
      DiscoverKeepsRow(w, a.order, a.kinds, i);
    } else {
      NewLegIsNew(w, a.order, a.kinds, i);
    }
  }

  lemma {:induction false} NewLegIsNew(w: World, id: nat, kinds: seq<LegKind>, i: nat)
    requires Shaped(w) && id < |w.j.orders| && w.j.orders[id].IsEntry()
      && |w.j.orders| <= i < |DiscoverAll(w, id, kinds).j.orders|
    ensures DiscoverAll(w, id, kinds).j.orders[i].state.New?
  {
    if kinds == [] {
    } else {
      var front := kinds[..|kinds| - 1];
      DiscoverAllShaped(w, id, front);
      if i < |DiscoverAll(w, id, front).j.orders| { NewLegIsNew(w, id, front, i); }
    }
  }

  lemma StepKeepsListing(w: World, a: Action)
    requires Base(w) && ListingHolds(w) && Enabled(w, a) && (a.ListPositions? ==> AgreesWith(w, a.listing))
    ensures Base(Do(w, a)) && ListingHolds(Do(w, a))
  {
    var w' := Do(w, a);
    StepKeepsBase(w, a);
    if w'.listing.Some? {
      forall ticker: Ticker | Quiet(w', ticker) ensures RightAbout(w', ticker) { ListingStaysRight(w, a, ticker); }
    }
  }

  lemma ListingStaysRight(w: World, a: Action, ticker: Ticker)
    requires Base(w) && ListingHolds(w) && Enabled(w, a) && Base(Do(w, a))
      && (a.ListPositions? ==> AgreesWith(w, a.listing))
    requires Do(w, a).listing.Some? && Quiet(Do(w, a), ticker)
    ensures RightAbout(Do(w, a), ticker)
  {
    if a.Discover? {
      DiscoverQuietWasQuiet(w, a, ticker);
      if w.j.orders != [] { DiscoverKeepsRow(w, a.order, a.kinds, 0); }
    } else {
      QuietWasQuiet(w, a, ticker);
    }
    QuietIsStill(w, ticker);
    StillStays(w, a, ticker);
    if !a.ListPositions? { assert RightAbout(w, ticker); }
  }

  /** A live market exit covers exactly what is left of the position. */
  ghost predicate ExitCovers(w: World, i: nat)
    requires Shaped(w) && i < |w.j.orders|
  {
    var o := w.j.orders[i];
    o.IsMarketExit() && !Dead(w, i) ==>
      Still(w, o.ticker, Some(i)) && Position(w, o.ticker) == o.direction.Signed(o.requested - w.remote[i].filled)
  }

  ghost predicate ExitsCover(w: World)
    requires Shaped(w)
  {
    forall i :: 0 <= i < |w.j.orders| ==> ExitCovers(w, i)
  }

  /** Each listing was right when it was made, and the journal knew all legs of a ticker before it exited it. */
  ghost predicate Faithful(w: World, a: Action)
    requires Shaped(w) && Enabled(w, a)
  {
    && (a.ListPositions? ==> AgreesWith(w, a.listing))
    && (a.ExitIntent? ==> AllLegsKnown(w.j.orders, w.j.trades[a.trade].ticker))
  }

  lemma StepKeepsCover(w: World, a: Action)
    requires Base(w) && ListingHolds(w) && ExitsCover(w) && Enabled(w, a) && Faithful(w, a)
    ensures Base(Do(w, a)) && ExitsCover(Do(w, a))
  {
    StepKeepsBase(w, a);
    forall i | 0 <= i < |Do(w, a).j.orders| ensures ExitCovers(Do(w, a), i) {
      if i < |w.j.orders| { OldExitCovers(w, a, i); } else { NewExitCovers(w, a, i); }
    }
  }

  lemma OldExitCovers(w: World, a: Action, i: nat)
    requires Base(w) && ExitsCover(w) && Enabled(w, a) && Base(Do(w, a)) && i < |w.j.orders| && i < |Do(w, a).j.orders|
    ensures ExitCovers(Do(w, a), i)
  {
    RowIsSame(w, a, i);
    if w.j.orders[i].IsMarketExit() {
      StepKeepsRow(w, a, i);
      if !Dead(w, i) {
        assert ExitCovers(w, i);
        LiveExitStays(w, a, i);
      }
    }
  }

  lemma NewExitCovers(w: World, a: Action, i: nat)
    requires Base(w) && ListingHolds(w) && Enabled(w, a) && Faithful(w, a) && Base(Do(w, a))
    requires |w.j.orders| <= i < |Do(w, a).j.orders|
    ensures ExitCovers(Do(w, a), i)
  {
    NewRowIs(w, a, i);
    if Do(w, a).j.orders[i].IsMarketExit() { FreshExitCovers(w, a); }
  }

  lemma FreshExitCovers(w: World, a: Action)
    requires Base(w) && ListingHolds(w) && Enabled(w, a) && a.ExitIntent? && Faithful(w, a) && Base(Do(w, a))
    ensures |w.j.orders| < |Do(w, a).j.orders| && ExitCovers(Do(w, a), |w.j.orders|)
  {
    FreshExitIsUnsent(w, a);
    ListedIsHeld(w, a);
    QuietIsStill(w, w.j.trades[a.trade].ticker);
    StillBesideFreshExit(w, a);
    FreshExitMovesNothing(w, a);
  }

  /** A listing in force that is right says what the trade to be sold holds. */
  lemma ListedIsHeld(w: World, a: Action)
    requires Base(w) && ListingHolds(w) && Enabled(w, a) && a.ExitIntent? && Faithful(w, a)
    ensures var trade := w.j.trades[a.trade];
      Position(w, trade.ticker) == trade.direction.Signed(trade.remaining)
  {
    var ticker := w.j.trades[a.trade].ticker;
    assert Quiet(w, ticker);
    assert RightAbout(w, ticker) && Shows(w.listing.value, w.j.trades, a.trade);
  }

  lemma StillBesideFreshExit(w: World, a: Action)
    requires Base(w) && Enabled(w, a) && a.ExitIntent? && Base(Do(w, a)) && Still(w, w.j.trades[a.trade].ticker, None)
    ensures Still(Do(w, a), w.j.trades[a.trade].ticker, Some(|w.j.orders|))
  {
    var w', ticker := Do(w, a), w.j.trades[a.trade].ticker;
    FreshExitIsUnsent(w, a);
    forall k | 0 <= k < |w.j.orders| && OwnOf(w', k, ticker) ensures RowIsStill(w', k) {
      StillRowKeepsWeight(w, a, k, ticker);
    }
  }

  lemma FreshExitMovesNothing(w: World, a: Action)
    requires Base(w) && Enabled(w, a) && a.ExitIntent? && Base(Do(w, a)) && Still(w, w.j.trades[a.trade].ticker, None)
    ensures Position(Do(w, a), w.j.trades[a.trade].ticker) == Position(w, w.j.trades[a.trade].ticker)
  {
    var w', ticker := Do(w, a), w.j.trades[a.trade].ticker;
    FreshExitIsUnsent(w, a);
    forall k | 0 <= k < |w.j.orders| ensures PositionWeights(w', ticker)[k] == PositionWeights(w, ticker)[k] {
      StillRowKeepsWeight(w, a, k, ticker);
    }
    SumPadded(PositionWeights(w, ticker), PositionWeights(w', ticker));
  }

  lemma FreshExitIsUnsent(w: World, a: Action)
    requires Base(w) && Enabled(w, a) && a.ExitIntent? && Shaped(Do(w, a))
    ensures var w', n, trade := Do(w, a), |w.j.orders|, w.j.trades[a.trade];
      && |w'.j.orders| == n + 1 && w'.remote[n] == UNSENT
      && w'.j.orders[n] == NewRow(trade.ticker, Exit, trade.direction, trade.remaining, Some(a.trade))
      && PositionWeights(w', trade.ticker)[n] == 0
  {}

  /** A run in which every listing was right and all legs were known before an exit. */
  ghost predicate FaithfulRun(run: seq<Action>)
    requires IsRun(INITIAL, run)
    decreases |run|
  {
    run != [] ==>
      var front := run[..|run| - 1];
      RunShaped(INITIAL, front);
      FaithfulRun(front) && Faithful(After(INITIAL, front), run[|run| - 1])
  }

  lemma {:induction false} FaithfulRunsCover(run: seq<Action>)
    requires IsRun(INITIAL, run) && FaithfulRun(run)
    ensures Base(After(INITIAL, run)) && ListingHolds(After(INITIAL, run)) && ExitsCover(After(INITIAL, run))
    decreases |run|
  {
    RunKeepsBase(run);
    if run == [] {
    } else {
      FaithfulRunsCover(run[..|run| - 1]);
      StepKeepsListing(After(INITIAL, run[..|run| - 1]), run[|run| - 1]);
      StepKeepsCover(After(INITIAL, run[..|run| - 1]), run[|run| - 1]);
    }
  }

  /** With true listings, in whatever order reports come: as long as a market exit can fill, the position is exactly
      what the exit has left to sell, so no exit takes it beyond zero. */
  lemma LiveExitsCoverThePosition(run: seq<Action>, i: nat)
    requires IsRun(INITIAL, run) && FaithfulRun(run) && Shaped(After(INITIAL, run))
    requires var w := After(INITIAL, run); i < |w.j.orders| && w.j.orders[i].IsMarketExit() && !Dead(w, i)
    ensures LeftToSell(After(INITIAL, run), i)
  {
    FaithfulRunsCover(run);
    CoveringExit(After(INITIAL, run), i);
  }

  /** With true listings, in whatever order reports come, a market exit leaves only when all other orders of its ticker
      are finished at the broker, both bracket legs included, and for exactly the position. */
  lemma TrueListingsNeverOversell(run: seq<Action>, i: nat)
    requires IsRun(INITIAL, run) && FaithfulRun(run) && Shaped(After(INITIAL, run))
    requires var w := After(INITIAL, run); i < |w.j.orders| && w.j.orders[i].IsMarketExit() && w.sending == Some(i)
    ensures SellsExactly(After(INITIAL, run), i)
  {
    FaithfulRunsCover(run);
    EveryRunKeepsExitsLast(run);
    SendingSellsExactly(After(INITIAL, run), i);
  }

  lemma SendingSellsExactly(w: World, i: nat)
    requires Base(w) && ExitsLast(w) && ExitsCover(w)
    requires i < |w.j.orders| && w.j.orders[i].IsMarketExit() && w.sending == Some(i)
    ensures SellsExactly(w, i)
  {
    assert OwnRowTrue(w, i) && CampaignLocked(w, EntryOf(w, i));
    CoveringExit(w, i);
    forall k | 0 <= k < |w.j.orders| && k != i && SameTicker(w, k, i) ensures Dead(w, k) { OthersAreFinished(w, i, k); }
  }

  /** What the exit has left to sell is the position. */
  ghost predicate LeftToSell(w: World, i: nat)
    requires Shaped(w) && i < |w.j.orders|
  {
    var o := w.j.orders[i];
    Position(w, o.ticker) == o.direction.Signed(o.requested - w.remote[i].filled) && w.remote[i].filled <= o.requested
  }

  lemma CoveringExit(w: World, i: nat)
    requires Base(w) && ExitsCover(w) && i < |w.j.orders| && w.j.orders[i].IsMarketExit() && !Dead(w, i)
    ensures LeftToSell(w, i)
  {
    assert ExitCovers(w, i) && OwnRowTrue(w, i);
  }
}
