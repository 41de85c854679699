/** The promises of the order protocol over whole runs, and the run that breaks them without their assumption. */
module OrderTheorems {
  import opened Common
  import opened OrderJournal
  import opened OrderProtocol
  import opened OrderTruth
  import opened OrderConservation
  import opened OrderSafety
  import opened OrderSafetySteps

  /** A run in which every leg fill is recorded only after its parent's final fill. */
  ghost predicate Orderly(run: seq<Action>)
    requires IsRun(INITIAL, run)
    decreases |run|
  {
    run != [] ==>
      var front := run[..|run| - 1];
      RunShaped(INITIAL, front);
      Orderly(front) && InOrder(After(INITIAL, front), run[|run| - 1])
  }

  lemma {:induction false} OrderlyRunsAreSafe(run: seq<Action>)
    requires IsRun(INITIAL, run) && Orderly(run)
    ensures Safe(After(INITIAL, run))
    decreases |run|
  {
    if run == [] {
    } else {
      OrderlyRunsAreSafe(run[..|run| - 1]);
      StepKeepsSafe(After(INITIAL, run[..|run| - 1]), run[|run| - 1]);
    }
  }

  /** In every reachable state the broker's position in a ticker is the unsold part of its latest campaign,
      on that campaign's side of zero, and older campaigns are flat. */
  lemma PositionNeverChangesSign(run: seq<Action>, ticker: Ticker)
    requires IsRun(INITIAL, run) && Orderly(run)
    ensures var w := After(INITIAL, run);
      && Shaped(w)
      && match LatestEntry(w.j.orders, ticker)
         case None => Position(w, ticker) == 0
         case Some(e) =>
           Net(w, e) >= 0 && Position(w, ticker) == w.j.orders[e].direction.Signed(Net(w, e))
  {
    OrderlyRunsAreSafe(run);
    var w := After(INITIAL, run);
    assert PositionFollows(w, ticker);
    var latest := LatestEntry(w.j.orders, ticker);
    if latest.Some? { NetNonNegative(w, latest.value); }
  }

  ghost predicate SameTicker(w: World, k: nat, i: nat)
    requires k < |w.j.orders| && i < |w.j.orders|
  {
    !w.j.orders[k].IsLeg() && w.j.orders[k].ticker == w.j.orders[i].ticker
  }

  /** A market exit leaves the process only when every other order of its ticker is finished at the broker,
      both bracket legs included, and for exactly the shares the broker still holds. */
  lemma FlattenNeverOversells(run: seq<Action>, i: nat)
    requires IsRun(INITIAL, run) && Orderly(run) && Shaped(After(INITIAL, run))
    requires var w := After(INITIAL, run);
      i < |w.j.orders| && w.j.orders[i].IsMarketExit() && w.sending == Some(i)
    ensures SellsExactly(After(INITIAL, run), i)
  {
    OrderlyRunsAreSafe(run);
    SendingIsExact(After(INITIAL, run), i);
  }

  /** Order `i` is the only order of its ticker that can still fill, and it is for the whole position. */
  ghost predicate SellsExactly(w: World, i: nat)
    requires Shaped(w) && i < |w.j.orders| && w.j.orders[i].IsMarketExit()
  {
    var e := EntryOf(w, i);
    && e < |w.j.orders| && w.remote[e].target.done && w.remote[e].stop.done
    && (forall k :: 0 <= k < |w.j.orders| && k != i && SameTicker(w, k, i) ==> Dead(w, k))
    && Position(w, w.j.orders[i].ticker) == w.j.orders[i].direction.Signed(w.j.orders[i].requested)
  }

  lemma SendingIsExact(w: World, i: nat)
    requires Safe(w) && i < |w.j.orders| && w.j.orders[i].IsMarketExit() && w.sending == Some(i)
    ensures SellsExactly(w, i)
  {
    assert RowLinked(w.j, i) && OwnRowTrue(w, i);
    assert !Dead(w, i) && CampaignLocked(w, EntryOf(w, i)) && ExactlyPledged(w, i);
    forall k | 0 <= k < |w.j.orders| && k != i && SameTicker(w, k, i) ensures Dead(w, k) {
      OnlyOneLive(w, i, k);
    }
    LiveMeansLatest(w, i);
    assert PositionFollows(w, w.j.orders[i].ticker);
  }

  lemma OnlyOneLive(w: World, i: nat, k: nat)
    requires Safe(w) && i < |w.j.orders| && k < |w.j.orders| && k != i
    requires w.j.orders[i].IsMarketExit() && !Dead(w, i) && CampaignLocked(w, EntryOf(w, i))
    requires !w.j.orders[k].IsLeg() && w.j.orders[k].ticker == w.j.orders[i].ticker
    ensures Dead(w, k)
  {
    LiveMeansLatest(w, i);
    if !Dead(w, k) { LiveMeansLatest(w, k); }
    assert TwoExits(w, i, k) <==> w.j.orders[k].IsMarketExit();
    assert TwoExits(w, k, i) <==> w.j.orders[k].IsMarketExit();
  }

  /** In orderly runs shares are conserved, a trade is open exactly while it holds shares, and it is announced
      once at each end. */
  lemma OrderlyRunsConserve(run: seq<Action>, t: nat)
    requires IsRun(INITIAL, run) && Orderly(run) && Shaped(After(INITIAL, run)) && t < |After(INITIAL, run).j.trades|
    ensures var w := After(INITIAL, run);
      && Conserved(w, t) && (w.j.trades[t].open <==> w.j.trades[t].remaining > 0)
      && EventsAgree(w, t)
  {
    OrderlyRunsAreSafe(run);
    OrderlyRunsAreNotLate(run, t);
    NotLateMeansNeither(run, t);
    OneOpenAndOneClose(run, t);
    assert Conserved(After(INITIAL, run), t);
  }

  lemma {:induction false} OrderlyRunsAreNotLate(run: seq<Action>, t: nat)
    requires IsRun(INITIAL, run) && Orderly(run)
    ensures !LateIn(run, t)
    decreases |run|
  {
    if run == [] {
    } else {
      var front, a := run[..|run| - 1], run[|run| - 1];
      OrderlyRunsAreNotLate(front, t);
      OrderlyRunsAreSafe(front);
      var w := After(INITIAL, front);
      if t < |w.j.trades| { GrowthFindsNoExits(w, a, t); } else { NewTradeIsNotLate(w, a, t); }
    }
  }

  // --- the race the assumption excludes ---

  /** The broker lets bracket legs fill only once their parent is finished. */
  ghost predicate LegsWait(run: seq<Action>)
    requires IsRun(INITIAL, run)
    decreases |run|
  {
    run != [] ==>
      var front, a := run[..|run| - 1], run[|run| - 1];
      RunShaped(INITIAL, front);
      LegsWait(front) && (a.LegMoves? && a.filled > 0 ==> After(INITIAL, front).remote[a.order].done)
  }

  /** `run` reaches `w` while the legs wait for their parents. */
  ghost predicate Reaches(run: seq<Action>, w: World) {
    IsRun(INITIAL, run) && LegsWait(run) && After(INITIAL, run) == w && Shaped(w)
    && (w.listing.Some? ==> ListPositions(w.listing.value) in run)
  }

  ghost predicate Leads(w: World, a: Action, w': World) {
    Shaped(w) && Enabled(w, a) && Do(w, a) == w' && (a.LegMoves? && a.filled > 0 ==> w.remote[a.order].done)
  }

  lemma Then(run: seq<Action>, w: World, a: Action, w': World) returns (run': seq<Action>)
    requires Reaches(run, w) && Leads(w, a, w')
    ensures Reaches(run', w')
  {
    run' := run + [a];
    assert run'[..|run|] == run && run'[|run|] == a;
    RunExtends(INITIAL, run, a);
    if a.Discover? { DiscoverKeepsStates(w, a.order, a.kinds); }
  }

  function Told(state: OrderState, filled: real): Report {
    Report(state, filled, if filled == 0.0 then None else Some(100.0), Some(100.0))
  }

  const ENTRY := NewRow("NVDA", Entry, Long, 100, None)
  const PART := ENTRY.(state := PartiallyFilled, applied := 60, price := 100.0, tradeId := Some(0),
                       brokerKnown := true)
  const TRADE := Trade("NVDA", Long, 0, 100.0, 60, 60, 0.0, true, None, false)
  const LEG := Order("NVDA", Exit, Long, New, 100, 0, 0.0, Some(0), true, None, None, false)
  const TARGET := LEG.(parent := Some(Parent(0, TargetLeg)))
  const STOP := LEG.(parent := Some(Parent(0, StopLeg)))
  const IDLE := RemoteLeg(0, false)

  const SENDING := World(Journal([ENTRY.(state := Unresolved)], []), [UNSENT], Some(0), [], None)
  const SENT := SENDING.(remote := [UNSENT.(sends := 1)], sending := None)
  const PLACED := SENT.(remote := [Remote(1, true, 0, false, IDLE, IDLE)])
  const PARTIAL := World(Journal([PART], [TRADE]), [Remote(1, true, 60, false, IDLE, IDLE)], None, [], None)
  const LEGGED := World(Journal([PART, TARGET, STOP], [TRADE]),
                        [Remote(1, true, 60, false, IDLE, IDLE), UNSENT, UNSENT], None, [], None)

  /** 60 of 100 shares are recorded and both legs known; meanwhile the parent finished and the target leg sold 40. */
  const RACE := LEGGED.(remote := [Remote(1, true, 100, true, RemoteLeg(40, true), RemoteLeg(0, true)), UNSENT, UNSENT])

  const PARENT_DONE := LEGGED.(remote := [Remote(1, true, 100, true, IDLE, IDLE), UNSENT, UNSENT])
  const TARGET_DONE := LEGGED.(remote := [Remote(1, true, 100, true, RemoteLeg(40, true), IDLE), UNSENT, UNSENT])

  lemma EntryIsSending() returns (run: seq<Action>)
    ensures Reaches(run, SENDING)
  {
    run := Then([], INITIAL, OpenIntent("NVDA", Long, 100), World(Journal([ENTRY], []), [UNSENT], None, [], None));
    run := Then(run, World(Journal([ENTRY], []), [UNSENT], None, [], None), BeginSubmit(0), SENDING);
  }

  lemma EntryIsPlaced() returns (run: seq<Action>)
    ensures Reaches(run, PLACED)
  {
    run := EntryIsSending();
    run := Then(run, SENDING, Send(0), SENT);
    run := Then(run, SENT, BrokerAccepts(0), PLACED);
  }

  lemma BothLegsDiscovered()
    requires Shaped(PARTIAL)
    ensures Leads(PARTIAL, Discover(0, [TargetLeg, StopLeg]), LEGGED)
  {
    var one := World(Journal([PART, TARGET], [TRADE]), [PARTIAL.remote[0], UNSENT], None, [], None);
    assert DiscoverOne(PARTIAL, 0, TargetLeg) == one;
    assert DiscoverOne(one, 0, StopLeg) == LEGGED;
    assert [TargetLeg, StopLeg][..1] == [TargetLeg] && [TargetLeg][..0] == [];
    assert DiscoverAll(PARTIAL, 0, [TargetLeg]) == one;
  }

  lemma LegsAreKnown() returns (run: seq<Action>)
    ensures Reaches(run, LEGGED)
  {
    run := EntryIsPlaced();
    run := Then(run, PLACED, BrokerMoves(0, 60, false), PLACED.(remote := PARTIAL.remote));
    run := Then(run, PLACED.(remote := PARTIAL.remote), Observe(0, Told(PartiallyFilled, 60.0), false), PARTIAL);
    BothLegsDiscovered();
    run := Then(run, PARTIAL, Discover(0, [TargetLeg, StopLeg]), LEGGED);
  }

  lemma ParentIsDone() returns (run: seq<Action>)
    ensures Reaches(run, PARENT_DONE)
  {
    run := LegsAreKnown();
    run := Then(run, LEGGED, BrokerMoves(0, 100, true), PARENT_DONE);
  }

  lemma RaceIsReachable() returns (run: seq<Action>)
    ensures Reaches(run, RACE)
  {
    run := ParentIsDone();
    run := Then(run, PARENT_DONE, LegMoves(0, TargetLeg, 40, true), TARGET_DONE);
    run := Then(run, TARGET_DONE, LegMoves(0, StopLeg, 0, true), RACE);
  }

  const SOLD40 := TARGET.(state := Canceled, applied := 40, price := 100.0, protectiveQty := Some(100))
  const STOPPED := STOP.(state := Canceled, protectiveQty := Some(100))
  const FULL := PART.(state := Filled, applied := 100)
  const INFLATED := TRADE.(shares := 100, remaining := 100)
  const SALE_SEEN := RACE.(j := Journal([PART, SOLD40, STOP], [TRADE.(remaining := 20)]))
  const LEGS_SEEN := RACE.(j := Journal([PART, SOLD40, STOPPED], [TRADE.(remaining := 20)]))
  const FORGOTTEN := RACE.(j := Journal([FULL, SOLD40, STOPPED], [INFLATED]))

  /** The leg's fill is recorded before the parent's final fill, which then restores the 40 sold shares. */
  lemma JournalForgetsTheSale() returns (run: seq<Action>)
    ensures Reaches(run, FORGOTTEN)
  {
    run := LegsAreSeen();
    LateFillLeads();
    run := Then(run, LEGS_SEEN, Observe(0, Told(Filled, 100.0), false), FORGOTTEN);
  }

  lemma LegsAreSeen() returns (run: seq<Action>)
    ensures Reaches(run, LEGS_SEEN)
  {
    run := RaceIsReachable();
    SaleLeads();
    run := Then(run, RACE, Observe(1, Told(Canceled, 40.0), false), SALE_SEEN);
    StopLeads();
    run := Then(run, SALE_SEEN, Observe(2, Told(Canceled, 0.0), false), LEGS_SEEN);
  }

  lemma SaleLeads()
    requires Shaped(RACE)
    ensures Leads(RACE, Observe(1, Told(Canceled, 40.0), false), SALE_SEEN)
  {}

  lemma StopLeads()
    requires Shaped(SALE_SEEN)
    ensures Leads(SALE_SEEN, Observe(2, Told(Canceled, 0.0), false), LEGS_SEEN)
  {}

  lemma LateFillLeads()
    requires Shaped(LEGS_SEEN)
    ensures Leads(LEGS_SEEN, Observe(0, Told(Filled, 100.0), false), FORGOTTEN)
  {}

  /** What the broker held when the parent was finished and no leg had filled yet. */
  const STALE: Listing := map["NVDA" := 100]

  const LISTED := FORGOTTEN.(listing := Some(STALE))

  const EXIT := NewRow("NVDA", Exit, Long, 100, Some(0))

  function Selling(exit: Order, remote: Remote, sending: Option<nat>): World {
    World(Journal([FULL, SOLD40, STOPPED, exit], [INFLATED]), RACE.remote + [remote], sending, [], Some(STALE))
  }

  lemma FlattenIsAllowed()
    requires Shaped(LISTED)
    ensures Enabled(LISTED, ExitIntent(0)) && Do(LISTED, ExitIntent(0)) == Selling(EXIT, UNSENT, None)
  {
    var orders := LISTED.j.orders;
    assert orders[..2] == [FULL, SOLD40];
    assert FindLeg([FULL, SOLD40], Parent(0, TargetLeg)) == Some(1);
    assert FindLeg(orders, Parent(0, TargetLeg)) == Some(1) && FindLeg(orders, Parent(0, StopLeg)) == Some(2);
    assert LISTED.j.trades[0] == INFLATED && TickerSettled(orders, "NVDA");
  }

  const EXIT_OUT := EXIT.(state := Unresolved)

  lemma FlattenIsIntended() returns (run: seq<Action>)
    ensures Reaches(run, Selling(EXIT, UNSENT, None))
  {
    run := JournalForgetsTheSale();
    run := Then(run, FORGOTTEN, ListPositions(STALE), LISTED);
    FlattenIsAllowed();
    run := Then(run, LISTED, ExitIntent(0), Selling(EXIT, UNSENT, None));
  }

  lemma FlattenLeads()
    requires Shaped(Selling(EXIT, UNSENT, None))
    ensures Leads(Selling(EXIT, UNSENT, None), BeginSubmit(3), Selling(EXIT_OUT, UNSENT, Some(3)))
    ensures Shaped(Selling(EXIT_OUT, UNSENT, Some(3))) ==>
      Leads(Selling(EXIT_OUT, UNSENT, Some(3)), Send(3), Selling(EXIT_OUT, UNSENT.(sends := 1), None))
  {}

  lemma FlattenIsSent() returns (run: seq<Action>)
    ensures Reaches(run, Selling(EXIT_OUT, UNSENT.(sends := 1), None))
  {
    run := FlattenIsIntended();
    FlattenLeads();
    run := Then(run, Selling(EXIT, UNSENT, None), BeginSubmit(3), Selling(EXIT_OUT, UNSENT, Some(3)));
    run := Then(run, Selling(EXIT_OUT, UNSENT, Some(3)), Send(3), Selling(EXIT_OUT, UNSENT.(sends := 1), None));
  }

  /** The listing that clears the exit is out of date by one fill: it shows the 100 shares held before the leg sold. */
  lemma ListingIsStale()
    requires Shaped(PARENT_DONE) && Shaped(LISTED)
    ensures Position(PARENT_DONE, "NVDA") == STALE["NVDA"] == 100 && Position(LISTED, "NVDA") == 60
  {
    assert PositionWeights(PARENT_DONE, "NVDA") == [] + [100] + [0] + [0];
    assert PositionWeights(LISTED, "NVDA") == [] + [60] + [0] + [0];
    SumAppend([], 100);
    SumAppend([] + [100], 0);
    SumAppend([] + [100] + [0], 0);
    SumAppend([], 60);
    SumAppend([] + [60], 0);
    SumAppend([] + [60] + [0], 0);
  }

  /** With reports out of order and a listing out of date a flatten does oversell, although the legs even wait for
      their parent: 100 shares bought, 40 sold by a leg, 100 more sold at market. */
  lemma FlattenOversellsAfterTheRace() returns (run: seq<Action>)
    ensures IsRun(INITIAL, run) && LegsWait(run) && Shaped(After(INITIAL, run))
    ensures ListPositions(STALE) in run && Position(After(INITIAL, run), "NVDA") == -40
  {
    run := FlattenIsSent();
    var taken := Selling(EXIT_OUT, Remote(1, true, 0, false, IDLE, IDLE), None);
    run := Then(run, Selling(EXIT_OUT, UNSENT.(sends := 1), None), BrokerAccepts(3), taken);
    run := Then(run, taken, BrokerMoves(3, 100, true), Selling(EXIT_OUT, Remote(1, true, 100, true, IDLE, IDLE), None));
    RacePosition(Selling(EXIT_OUT, Remote(1, true, 100, true, IDLE, IDLE), None));
  }

  lemma RacePosition(w: World)
    requires Shaped(w) && w == Selling(EXIT_OUT, Remote(1, true, 100, true, IDLE, IDLE), None)
    ensures Position(w, "NVDA") == -40
  {
    assert PositionWeights(w, "NVDA") == [] + [60] + [0] + [0] + [-100];
    SumAppend([], 60);
    SumAppend([] + [60], 0);
    SumAppend([] + [60] + [0], 0);
    SumAppend([] + [60] + [0] + [0], -100);
  }
}
