/** The paper broker as the worker runs it: methods over the durable journal, the in-memory fields and a network
    that answers late, partially or not at all. Each database commit and each network call is one step of
    OrderProtocol, so whatever these methods do is a run and every theorem about runs holds of their state. */
module AlpacaBroker {
  import opened Common
  import opened OrderJournal
  import opened OrderProtocol
  import opened OrderTruth
  import opened BrokerTalk
  import OrderTheorems

  datatype ExitReason = StopHit | TargetHit | OtherReason

  ghost predicate LeadsTo(run: seq<Action>, w: World) {
    IsRun(INITIAL, run) && After(INITIAL, run) == w
  }

  predicate Unfolded(key: nat) { true }

  /** `w` is reached by the steps taken so far. The run stays folded until `Unfolded` is mentioned. */
  ghost predicate Reached(w: World, run: seq<Action>) {
    && |w.remote| == |w.j.orders|
    && forall key {:trigger Unfolded(key)} :: Unfolded(key) ==> LeadsTo(run, w)
  }

  /** Whatever is reached keeps the invariant of all runs. */
  lemma ReachedIsBase(w: World, run: seq<Action>)
    requires Reached(w, run)
    ensures Base(w)
  {
    assert Unfolded(0);
    RunKeepsBase(run);
  }

  predicate IsIntent(a: Action) { a.OpenIntent? || a.ExitIntent? }

  /** The order intents among the steps of a run. */
  function Intents(run: seq<Action>): seq<Action> {
    if run == [] then []
    else Intents(run[..|run| - 1]) + if IsIntent(run[|run| - 1]) then [run[|run| - 1]] else []
  }

  lemma ReachedStep(w: World, run: seq<Action>, a: Action)
    requires Reached(w, run) && Shaped(w) && Enabled(w, a)
    ensures Reached(Do(w, a), run + [a])
    ensures Intents(run + [a]) == Intents(run) + if IsIntent(a) then [a] else []
  {
    assert Unfolded(0);
    assert (run + [a])[..|run|] == run;
    RunExtends(INITIAL, run, a);
  }

  lemma ReachedStart()
    ensures Reached(INITIAL, [])
  {}

  /** The broker said this about an order it had filled that far. */
  ghost predicate Said(filled: nat, done: bool, report: Report) {
    && !report.state.PendingSubmission? && !report.state.Unresolved?
    && report.filled <= filled as real
    && (report.state.Terminal() ==> done && report.filled == filled as real)
  }

  ghost predicate TruthfulLegs(remote: seq<Remote>, id: nat, legs: seq<LegAnswer>)
    requires id < |remote|
  {
    forall k :: 0 <= k < |legs| && legs[k].kind.Some? ==>
      Said(remote[id].Leg(legs[k].kind.value).filled, remote[id].Leg(legs[k].kind.value).done, legs[k].report)
  }

  /** The broker's own record of the order, where a leg's is kept inside its parent's. */
  function RecordOf(orders: seq<Order>, remote: seq<Remote>, id: nat): Option<RemoteLeg>
    requires id < |orders|
  {
    match orders[id].parent
    case None => if id < |remote| then Some(RemoteLeg(remote[id].filled, remote[id].done)) else None
    case Some(parent) => if parent.order < |remote| then Some(remote[parent.order].Leg(parent.kind)) else None
  }

  /** A report is some past state of an order the broker took. */
  ghost predicate Honest(orders: seq<Order>, remote: seq<Remote>, id: nat, report: Report)
    requires id < |orders| == |remote|
  {
    && RecordOf(orders, remote, id).Some?
    && Said(RecordOf(orders, remote, id).value.filled, RecordOf(orders, remote, id).value.done, report)
    && (!orders[id].IsLeg() ==> remote[id].placed)
  }

  lemma HonestIsTruthful(w: World, id: nat, report: Report)
    requires Shaped(w) && id < |w.j.orders| && Honest(w.j.orders, w.remote, id, report)
    ensures Truthful(w, id, report)
  {
    assert RowLinked(w.j, id);
  }

  /** Rows other than `id` and bracket legs are as before. */
  ghost predicate OthersKept(before: seq<Order>, after: seq<Order>, id: nat) {
    && |before| <= |after|
    && forall i :: 0 <= i < |before| ==>
      after[i].parent == before[i].parent && (i != id && !before[i].IsLeg() ==> after[i] == before[i])
  }

  /** Every row that is not a bracket leg is as before. */
  ghost predicate OwnRowsKept(before: seq<Order>, after: seq<Order>) {
    && |before| <= |after|
    && forall i :: 0 <= i < |before| ==>
      after[i].parent == before[i].parent && (!before[i].IsLeg() ==> after[i] == before[i])
  }

  lemma OwnRowsKeptTwice(a: seq<Order>, b: seq<Order>, c: seq<Order>)
    requires OwnRowsKept(a, b) && OwnRowsKept(b, c)
    ensures OwnRowsKept(a, c)
  {}

  lemma {:induction false} DiscoverKeepsOwnRows(w: World, id: nat, kinds: seq<LegKind>)
    requires Shaped(w) && id < |w.j.orders| && w.j.orders[id].IsEntry()
    ensures OwnRowsKept(w.j.orders, DiscoverAll(w, id, kinds).j.orders)
  {
    if kinds == [] {
    } else {
      DiscoverKeepsOwnRows(w, id, kinds[..|kinds| - 1]);
    }
  }

  /** Trades are never removed nor moved to another ticker. */
  ghost predicate TradesKept(before: seq<Trade>, after: seq<Trade>) {
    |before| <= |after| && forall t :: 0 <= t < |before| ==> after[t].ticker == before[t].ticker
  }

  predicate HasLeg(orders: seq<Order>, parent: Parent) { FindLeg(orders, parent).Some? }

  predicate LegsKnown(orders: seq<Order>, id: nat, legs: seq<LegAnswer>) {
    forall k :: 0 <= k < |legs| ==> legs[k].kind.Some? && HasLeg(orders, Parent(id, legs[k].kind.value))
  }

  lemma LegStaysKnown(before: seq<Order>, after: seq<Order>, parent: Parent)
    requires HasLeg(before, parent) && |before| <= |after|
    requires forall i :: 0 <= i < |before| ==> after[i].parent == before[i].parent
    ensures HasLeg(after, parent)
  {
    assert after[FindLeg(before, parent).value].parent == Some(parent);
  }

  lemma LegsStayKnown(before: seq<Order>, after: seq<Order>, id: nat, legs: seq<LegAnswer>)
    requires LegsKnown(before, id, legs) && |before| <= |after|
    requires forall i :: 0 <= i < |before| ==> after[i].parent == before[i].parent
    ensures LegsKnown(after, id, legs)
  {
    forall k | 0 <= k < |legs| ensures HasLeg(after, Parent(id, legs[k].kind.value)) {
      LegStaysKnown(before, after, Parent(id, legs[k].kind.value));
    }
  }

  lemma RegisteredLegIsKnown(orders: seq<Order>, id: nat, kind: LegKind)
    requires id < |orders|
    ensures var more := RegisterLeg(orders, id, kind);
      && HasLeg(more, Parent(id, kind)) && |orders| <= |more| <= |orders| + 1
      && forall i :: 0 <= i < |orders| ==> more[i].parent == orders[i].parent
  {
    var more := RegisterLeg(orders, id, kind);
    if |more| > |orders| { assert more[|orders|].parent == Some(Parent(id, kind)); }
    else { LegStaysKnown(orders, more, Parent(id, kind)); }
  }

  lemma StagedLegIsKnown(orders: seq<Order>, id: nat, legs: seq<LegAnswer>, leg: LegAnswer)
    requires id < |orders| && leg.kind.Some? && LegsKnown(orders, id, legs)
    ensures var more := RegisterLeg(orders, id, leg.kind.value);
      LegsKnown(more, id, legs + [leg]) && |orders| <= |more| <= |orders| + 1
  {
    var more := RegisterLeg(orders, id, leg.kind.value);
    RegisteredLegIsKnown(orders, id, leg.kind.value);
    LegsStayKnown(orders, more, id, legs);
  }

  lemma ReportKeepsIdentity(j: Journal, id: nat, report: Report)
    requires id < |j.orders| && Linked(j)
    ensures ApplyReport(j, id, report).Ok? ==>
      var orders := ApplyReport(j, id, report).value.orders;
      && |orders| == |j.orders|
      && TradesKept(j.trades, ApplyReport(j, id, report).value.trades)
      && orders[id].state == report.state
      && forall i :: 0 <= i < |orders| ==>
        SameIdentity(j.orders[i], orders[i]) && (i != id ==> orders[i] == j.orders[i])
  {
    if ApplyReport(j, id, report).Ok? { ReportEffect(j, id, report); }
  }

  /** Price rounded half up to a cent, or to a hundredth of a cent below one dollar. */
  function RoundTick(value: real): (r: real)
    requires value > 0.0
    ensures value >= 1.0 ==> IsWhole(r * 100.0) && -0.005 < r - value <= 0.005
    ensures value < 1.0 ==> IsWhole(r * 10000.0) && -0.00005 < r - value <= 0.00005
  {
    if value >= 1.0 then
      WholeTicks((value * 100.0 + 0.5).Floor);
      (value * 100.0 + 0.5).Floor as real / 100.0
    else
      WholeTicks((value * 10000.0 + 0.5).Floor);
      (value * 10000.0 + 0.5).Floor as real / 10000.0
  }

  lemma WholeTicks(n: int)
    ensures IsWhole(n as real / 100.0 * 100.0) && IsWhole(n as real / 10000.0 * 10000.0)
  {
    assert n as real / 100.0 * 100.0 == n as real && n as real / 10000.0 * 10000.0 == n as real;
    assert (n as real).Floor == n;
  }

  predicate LevelsInOrder(direction: Direction, stop: real, entry: real, target: real) {
    if direction.Long? then stop < entry < target else target < entry < stop
  }

  predicate Priced(level: Option<real>) { level.Some? && level.value > 0.0 }

  /** A sweep over the rows `before` has handled the first `k` of them: the others are untouched. */
  ghost predicate Swept(before: seq<Order>, after: seq<Order>, k: nat) {
    && |before| <= |after|
    && (forall i :: 0 <= i < |before| ==> after[i].parent == before[i].parent)
    && (forall i :: 0 <= i < |before| && before[i].IsLeg() ==> !before[i].state.PendingSubmission?)
    && (forall i :: k <= i < |before| && !before[i].IsLeg() ==> after[i] == before[i])
    && (forall i :: 0 <= i < k && i < |before| && !before[i].IsLeg() ==> !after[i].state.PendingSubmission?)
  }

  lemma SweptNext(before: seq<Order>, was: seq<Order>, now: seq<Order>, k: nat)
    requires k < |before| && Swept(before, was, k) && OthersKept(was, now, k) && !now[k].state.PendingSubmission?
    ensures Swept(before, now, k + 1)
  {}

  function Flattened(row: Order): Order {
    if row.IsEntry() && !row.state.Terminal() then row.(flatten := true) else row
  }

  /** The row an intent adds to the orders table. */
  function IntentRow(j: Journal, a: Action): Order
    requires IsIntent(a) && (a.ExitIntent? ==> a.trade < |j.trades|)
  {
    match a
    case OpenIntent(ticker, direction, quantity) => NewRow(ticker, Entry, direction, quantity, None)
    case ExitIntent(t) => NewRow(j.trades[t].ticker, Exit, j.trades[t].direction, j.trades[t].remaining, Some(t))
    case _ => NewRow("", Entry, Long, 0, None)
  }

  /** The cumulative fill a report states, or Err where it cannot be. */
  method CheckFill(row: Order, report: Report) returns (filled: Result<nat>)
    ensures filled == ValidatedFill(row, report)
  {
    var qty := report.filled.Floor;
    if qty as real != report.filled || qty < row.applied || row.requested < qty { return Err; }
    if qty != 0 && (report.price.None? || !(0.0 < report.price.value)) { return Err; }
    if report.state == Filled && !row.IsLeg() && qty < row.requested { return Err; }
    filled := Ok(qty);
  }

  method CheckLegQuantity(report: Report, filled: nat) returns (quantity: Result<int>)
    ensures quantity == ValidatedLegQuantity(report, filled)
  {
    if report.quantity.None? { return Err; }
    var whole := report.quantity.value.Floor;
    quantity := if whole as real == report.quantity.value && filled <= whole then Ok(whole) else Err;
  }

  /** New shares of an entry: the first ones make the trade. */
  method RecordEntryFill(db: Journal, id: nat, qty: nat, price: real) returns (trades: seq<Trade>, t: nat)
    requires id < |db.orders|
    requires db.orders[id].tradeId.Some? ==> db.orders[id].tradeId.value < |db.trades|
    ensures (trades, t) == ApplyEntryFill(db, id, qty, price)
  {
    var row := db.orders[id];
    if row.tradeId.None? {
      trades, t := db.trades, |db.trades|;
      trades := trades + [Trade(row.ticker, row.direction, id, price, qty, qty, 0.0, true, None, false)];
    } else {
      t := row.tradeId.value;
      var trade := db.trades[t];
      trades := db.trades[t := trade.(remaining := qty, shares := qty, entry := price)];
    }
  }

  /** New shares of an exit: they leave the trade at what they fetched beyond their entry price. */
  method RecordExitFill(trade: Trade, row: Order, qty: nat, price: real) returns (next: Result<Trade>)
    requires trade.shares > 0 && qty > row.applied
    ensures next == ApplyExitFill(trade, row, qty, price)
  {
    var sold := qty - row.applied;
    if trade.remaining < sold { return Err; }
    var fetched := qty as real * price - row.applied as real * row.price;
    var paid := sold as real * trade.entry;
    var gross := if trade.direction == Long then trade.gross + fetched - paid else trade.gross + paid - fetched;
    assert gross == ExitGross(trade, row, qty, price);
    var updated := trade.(remaining := trade.remaining - sold, gross := RoundEven2(gross));
    if updated.remaining == 0 {
      OppositeMove(gross, trade.shares);
      var move := gross / trade.shares as real;
      var average := if trade.direction == Long then trade.entry + move else trade.entry - move;
      updated := updated.(open := false, exitPrice := Some(average));
    }
    next := Ok(updated);
  }

  /** The rounded stop and target lie on their sides of the entry. */
  method LevelsAround(direction: Direction, stop: real, entry: real, target: real) returns (ordered: bool)
    requires stop > 0.0 && target > 0.0
    ensures ordered <==> LevelsInOrder(direction, RoundTick(stop), entry, RoundTick(target))
  {
    var low, high := RoundTick(stop), RoundTick(target);
    if direction == Short { low, high := high, low; }
    ordered := !(entry <= low || high <= entry);
  }

  lemma OppositeMove(gross: real, shares: nat)
    requires shares > 0
    ensures (-gross) / shares as real == -(gross / shares as real)
  {}

  /** The transaction behind one broker report, as values: the new tables and what to announce. */
  method RecordReport(db: Journal, id: nat, report: Report) returns (next: Result<Journal>, news: seq<Event>)
    requires Linked(db) && id < |db.orders|
    ensures next == ApplyReport(db, id, report)
    ensures next.Ok? ==> |next.value.orders| == |db.orders| && news == EventOf(db, next.value, id)
  {
    var row := db.orders[id];
    assert RowLinked(db, id);
    news := [];
    var validated := CheckFill(row, report);
    if validated.Err? { return Err, []; }
    var qty, price := validated.value, if report.price.Some? then report.price.value else 0.0;
    var updated := row.(state := report.state, applied := qty, price := price, brokerKnown := true);
    if row.IsLeg() {
      var quantity := CheckLegQuantity(report, qty);
      if quantity.Err? { return Err, []; }
      updated := updated.(protectiveQty := Some(quantity.value));
    }
    var trades := db.trades;
    if qty > row.applied {
      if row.IsEntry() {
        var t;
        trades, t := RecordEntryFill(db, id, qty, price);
        updated := updated.(tradeId := Some(t));
        if row.applied == 0 { news := [Opened(t)]; }
      } else {
        if row.tradeId.None? { return Err, []; }
        var t := row.tradeId.value;
        assert TradeLinked(db, t) && RowLinked(db, db.trades[t].entryOrder);
        var filled := RecordExitFill(trades[t], row, qty, price);
        if filled.Err? { return Err, []; }
        trades := trades[t := filled.value];
        if filled.value.remaining == 0 { news := [Closed(t)]; }
      }
    }
    next := Ok(Journal(db.orders[id := updated], trades));
  }

  lemma OneMoreKind(w: World, id: nat, kinds: seq<LegKind>, kind: LegKind)
    requires id < |w.j.orders|
    ensures DiscoverAll(w, id, kinds + [kind]) == DiscoverOne(DiscoverAll(w, id, kinds), id, kind)
  {
    assert (kinds + [kind])[..|kinds|] == kinds;
  }

  /** `orders` and `remote` are the tables of `w` after discovering some kinds of legs of entry `id`. */
  ghost predicate Staged(w: World, id: nat, kinds: seq<LegKind>, orders: seq<Order>, remote: seq<Remote>)
    requires id < |w.j.orders|
  {
    && |w.j.orders| <= |orders| == |remote| && w.remote <= remote
    && DiscoverAll(w, id, kinds) == w.(j := w.j.(orders := orders), remote := remote)
  }

  lemma StageNext(w: World, id: nat, kinds: seq<LegKind>, orders: seq<Order>, remote: seq<Remote>, kind: LegKind)
    requires id < |w.j.orders| && Staged(w, id, kinds, orders, remote)
    ensures var more := RegisterLeg(orders, id, kind);
      Staged(w, id, kinds + [kind], more, if |more| == |orders| then remote else remote + [UNSENT])
  {
    OneMoreKind(w, id, kinds, kind);
    RegisteredLegIsKnown(orders, id, kind);
  }

  lemma OneMoreLeg(legs: seq<LegAnswer>, k: nat)
    requires k < |legs|
    ensures legs[..k + 1] == legs[..k] + [legs[k]]
  {}

  /** `more` and `records` are the tables of `w` with a row for every one of `legs`. */
  ghost predicate Staging(w: World, id: nat, legs: seq<LegAnswer>, kinds: seq<LegKind>, more: seq<Order>,
                          records: seq<Remote>)
    requires id < |w.j.orders|
  {
    && AllExpected(legs) && |w.j.orders| <= |more|
    && more == Registered(w.j.orders, id, legs) && LegsKnown(more, id, legs) && Staged(w, id, kinds, more, records)
  }

  lemma StagingNext(w: World, id: nat, legs: seq<LegAnswer>, leg: LegAnswer, kinds: seq<LegKind>, more: seq<Order>,
                    records: seq<Remote>)
    requires id < |w.j.orders| && Staging(w, id, legs, kinds, more, records) && leg.kind.Some?
    ensures var next := RegisterLeg(more, id, leg.kind.value);
      Staging(w, id, legs + [leg], kinds + [leg.kind.value], next,
              if |next| == |more| then records else records + [UNSENT])
  {
    assert (legs + [leg])[..|legs|] == legs;
    StageNext(w, id, kinds, more, records, leg.kind.value);
    StagedLegIsKnown(more, id, legs, leg);
  }

  /** The transaction that persists a parent's legs, as values: every leg has a row afterwards, or nothing changes. */
  method StageLegs(ghost w: World, orders: seq<Order>, remote: seq<Remote>, id: nat, legs: seq<LegAnswer>)
    returns (ok: bool, more: seq<Order>, records: seq<Remote>, ghost kinds: seq<LegKind>)
    requires w.j.orders == orders && w.remote == remote && |remote| == |orders| && id < |orders|
    ensures ok <==> AllExpected(legs)
    ensures ok ==> Staging(w, id, legs, kinds, more, records)
  {
    more, records, kinds := orders, remote, [];
    for k := 0 to |legs|
      invariant Staging(w, id, legs[..k], kinds, more, records)
    {
      if legs[k].kind.None? { return false, more, records, kinds; }
      StagingNext(w, id, legs[..k], legs[k], kinds, more, records);
      OneMoreLeg(legs, k);
      var entry, parent := more[id], Parent(id, legs[k].kind.value);
      var known := FindLeg(more, parent);
      if known.None? {
        var leg := Order(entry.ticker, Exit, entry.direction, New, entry.requested, 0, 0.0, entry.tradeId, true,
                         Some(parent), None, false);
        more, records := more + [leg], records + [UNSENT];
      } else if entry.tradeId.Some? {
        more := more[known.value := more[known.value].(tradeId := entry.tradeId)];
      }
      kinds := kinds + [legs[k].kind.value];
    }
    assert legs[..|legs|] == legs;
    ok := true;
  }

  class AlpacaBroker {
    var db: Journal
    /** The broker's own records: written and read by the network methods only. */
    var remote: seq<Remote>
    var sending: Option<nat>
    var events: seq<Event>
    var openPositions: map<Ticker, Position>
    var blocked: bool
    var safeToFlatten: bool
    var capital: real
    const positionPct: real
    /** What the broker last listed, as long as no report was recorded since. */
    ghost var listing: Option<Listing>
    ghost var trace: seq<Action>
    /** The conversation with the broker so far. */
    ghost var deeds: seq<Deed>

    /** What the conversation acts on. */
    ghost function Book(): Told
      reads this`db, this`events, this`blocked
    {
      Told(db, events, blocked)
    }

    ghost function State(): World
      reads this`db, this`remote, this`sending, this`events, this`listing
    {
      World(db, remote, sending, events, listing)
    }

    /** The state is the result of protocol steps. */
    ghost predicate Durable()
      reads this`db, this`remote, this`sending, this`events, this`listing, this`trace
    {
      Reached(State(), trace)
    }

    ghost predicate Valid()
      reads this`db, this`remote, this`sending, this`events, this`openPositions, this`listing, this`trace
    {
      Durable() && Mirrors(openPositions, db.trades)
    }

    /** Between calls no request is on its way out. */
    ghost predicate Ready()
      reads this`db, this`remote, this`sending, this`events, this`openPositions, this`listing, this`trace
    {
      Valid() && sending.None?
    }

    constructor (pct: real, equity: real)
      ensures Ready() && db == Journal([], []) && positionPct == pct && trace == [] && deeds == []
    {
      db, remote, sending, events := Journal([], []), [], None, [];
      openPositions, blocked, safeToFlatten, capital := map[], false, false, equity;
      positionPct := pct;
      trace, deeds, listing := [], [], None;
      new;
      ReachedStart();
    }

    ghost method Record(before: World, a: Action)
      requires Reached(before, trace) && Shaped(before) && Enabled(before, a)
      requires State().(listing := Do(before, a).listing) == Do(before, a)
      modifies this`listing, this`trace
      ensures trace == old(trace) + [a] && Durable() && listing == Do(before, a).listing
      ensures Intents(trace) == old(Intents(trace)) + if IsIntent(a) then [a] else []
    {
      ReachedStep(before, trace, a);
      trace, listing := trace + [a], Do(before, a).listing;
    }

    /** What holds of every reachable state. */
    lemma Facts()
      requires Durable()
      ensures Base(State())
    {
      ReachedIsBase(State(), trace);
    }

    lemma EntryIsNoLeg(id: nat)
      requires Durable() && id < |db.orders| && db.orders[id].IsEntry()
      ensures !db.orders[id].IsLeg()
    {
      Facts();
      assert RowLinked(db, id);
    }

    lemma LegIsNotPending(id: nat)
      requires Durable() && id < |db.orders|
      ensures db.orders[id].IsLeg() ==> !db.orders[id].state.PendingSubmission?
    {
      Facts();
      assert RowLinked(db, id);
    }

    // --- the network and the broker behind it ---

    /** One arbitrary move of the broker within its promises. */
    method BrokerMove()
      requires Valid()
      modifies this`remote, this`listing, this`trace
      ensures Valid() && |remote| == old(|remote|) && Intents(trace) == old(Intents(trace)) && listing == old(listing)
    {
      var i: int := *;
      var filled: int := *;
      var done: bool := *;
      var kind: LegKind := *;
      ghost var before := State();
      Facts();
      if i < 0 || i >= |db.orders| || filled < 0 || db.orders[i].IsLeg() { return; }
      var r := remote[i];
      if r.sends > 0 && !r.placed {
        remote := remote[i := r.(placed := true)];
        Record(before, BrokerAccepts(i));
      } else if r.placed && !r.done && r.filled <= filled <= db.orders[i].requested {
        remote := remote[i := r.(filled := filled, done := done)];
        Record(before, BrokerMoves(i, filled, done));
      } else if db.orders[i].IsEntry() && r.placed && !r.Leg(kind).done && r.Leg(kind).filled <= filled
             && r.WithLeg(kind, RemoteLeg(filled, done)).LegsFilled() <= r.filled {
        remote := remote[i := r.WithLeg(kind, RemoteLeg(filled, done))];
        Record(before, LegMoves(i, kind, filled, done));
      }
    }

    method Elapse()
      requires Valid()
      modifies this`remote, this`listing, this`trace
      ensures Valid() && |remote| == old(|remote|) && Intents(trace) == old(Intents(trace)) && listing == old(listing)
    {
      var n: int := *;
      for k := 0 to Max(0, n)
        invariant Valid() && |remote| == old(|remote|) && Intents(trace) == old(Intents(trace))
          && listing == old(listing)
      {
        BrokerMove();
      }
    }

    /** The broker's words about an order it filled that far: possibly stale, never ahead, final only when final. */
    method Speak(filled: nat, done: bool) returns (report: Report)
      ensures Said(filled, done, report)
    {
      var state: OrderState := *;
      var qty: real := *;
      var price: Option<real> := *;
      var quantity: Option<real> := *;
      if qty > filled as real { qty := filled as real; }
      if state.PendingSubmission? || state.Unresolved? || (state.Terminal() && !(done && qty == filled as real)) {
        state := OtherActive;
      }
      report := Report(state, qty, price, quantity);
    }

    /** What comes back about an order; None is a lost or refused answer. A parent's answer may nest its legs. */
    method Reply(id: nat) returns (answer: Option<Answer>)
      requires Ready() && id < |db.orders|
      modifies this`remote, this`listing, this`trace
      ensures Ready() && Intents(trace) == old(Intents(trace))
      ensures answer.Some? ==>
        Honest(db.orders, remote, id, answer.value.report) && TruthfulLegs(remote, id, answer.value.legs)
    {
      Elapse();
      Facts();
      var lost: bool := *;
      var o := db.orders[id];
      assert RowLinked(db, id);
      if lost || (!o.IsLeg() && !remote[id].placed) { return None; }
      var report: Report;
      if o.IsLeg() {
        var leg := remote[o.parent.value.order].Leg(o.parent.value.kind);
        report := Speak(leg.filled, leg.done);
      } else {
        report := Speak(remote[id].filled, remote[id].done);
      }
      var legs: seq<LegAnswer> := [];
      var n: int := *;
      for k := 0 to Max(0, n)
        modifies {}
        invariant TruthfulLegs(remote, id, legs)
      {
        var kind: LegKind := *;
        var expected: bool := *;
        var leg := Speak(remote[id].Leg(kind).filled, remote[id].Leg(kind).done);
        legs := legs + [LegAnswer(if expected then Some(kind) else None, leg)];
      }
      answer := Some(Answer(report, legs));
    }

    /** Look an order up. */
    method Lookup(id: nat) returns (answer: Option<Answer>)
      requires Ready() && id < |db.orders|
      modifies this`remote, this`listing, this`trace, this`deeds
      ensures Ready() && Intents(trace) == old(Intents(trace)) && deeds == old(deeds) + [Asked(id, answer)]
      ensures answer.Some? ==>
        Honest(db.orders, remote, id, answer.value.report) && TruthfulLegs(remote, id, answer.value.legs)
    {
      answer := Reply(id);
      deeds := deeds + [Asked(id, answer)];
    }

    /** The request leaves the process; the answer may be lost although the broker took the order. */
    method SendRequest(id: nat) returns (answer: Option<Answer>)
      requires Valid() && sending == Some(id)
      modifies this`remote, this`sending, this`listing, this`trace, this`deeds
      ensures Ready() && Intents(trace) == old(Intents(trace)) && id < |db.orders|
        && deeds == old(deeds) + [Sent(id, answer)]
      ensures answer.Some? ==>
        Honest(db.orders, remote, id, answer.value.report) && TruthfulLegs(remote, id, answer.value.legs)
    {
      ghost var before := State();
      Facts();
      remote := remote[id := remote[id].(sends := remote[id].sends + 1)];
      sending := None;
      Record(before, Send(id));
      answer := Reply(id);
      deeds := deeds + [Sent(id, answer)];
    }

    /** Ask the broker to cancel; only an acknowledgement comes back, if anything. */
    method RequestCancel(id: nat) returns (acknowledged: bool)
      requires Ready()
      modifies this`remote, this`listing, this`trace, this`deeds
      ensures Ready() && Intents(trace) == old(Intents(trace)) && deeds == old(deeds) + [CancelAsked(id, acknowledged)]
      ensures listing == old(listing)
    {
      Elapse();
      acknowledged := *;
      deeds := deeds + [CancelAsked(id, acknowledged)];
    }

    // --- journal and memory ---

    /** A wish to leave is noted on the trade, or on its entry order before there was a trade. */
    predicate Leaving(row: Trade)
      reads this`db
    {
      row.pendingExit || (row.entryOrder < |db.orders| && db.orders[row.entryOrder].flatten)
    }

    /** Load the open rows; a position inherits the wish to leave that was noted on its entry order. */
    method ReloadOpenPositions()
      requires Durable()
      modifies this`openPositions
      ensures Valid() && forall ticker :: ticker in openPositions ==>
        openPositions[ticker].leaving == Leaving(openPositions[ticker].row)
    {
      openPositions := map[];
      for t := 0 to |db.trades|
        invariant forall ticker :: ticker in openPositions ==>
          var p := openPositions[ticker];
          p.id < t && db.trades[p.id] == p.row && p.row.open && p.row.ticker == ticker && p.leaving == Leaving(p.row)
        invariant forall k :: 0 <= k < t && db.trades[k].open ==>
          db.trades[k].ticker in openPositions && openPositions[db.trades[k].ticker].id == k
      {
        var row := db.trades[t];
        if row.open {
          if row.ticker in openPositions {
            // A second open row of a ticker would stop the worker; no run produces one.
            Facts();
            OneOpenPerTicker(State(), openPositions[row.ticker].id, t);
            assert false;
          }
          var leaving := row.pendingExit;
          if row.entryOrder < |db.orders| && db.orders[row.entryOrder].flatten { leaving := true; }
          openPositions := openPositions[row.ticker := Position(t, row, leaving)];
        }
      }
    }

    /** Set the state, error or flag of one row in a transaction of its own. */
    method MarkUnresolved(id: nat)
      requires Ready() && id < |db.orders|
      modifies this`db, this`blocked, this`listing, this`trace
      ensures Ready() && Intents(trace) == old(Intents(trace)) && blocked
      ensures Book() == GaveUp(old(Book()), id)
    {
      ghost var before := State();
      Facts();
      blocked := true;
      db := db.(orders := db.orders[id := db.orders[id].(state := Unresolved)]);
      Record(before, OrderProtocol.MarkUnresolved(id));
    }

    /** The first order of the ticker that can still trade. */
    method FirstLive(ticker: Ticker) returns (live: Option<nat>)
      ensures live.Some? <==> !TickerSettled(db.orders, ticker)
      ensures live.Some? ==>
        live.value < |db.orders| && db.orders[live.value].ticker == ticker && !db.orders[live.value].state.Terminal()
    {
      for k := 0 to |db.orders|
        invariant forall i :: 0 <= i < k && db.orders[i].ticker == ticker ==> db.orders[i].state.Terminal()
      {
        if db.orders[k].ticker == ticker && !db.orders[k].state.Terminal() { return Some(k); }
      }
      live := None;
    }

    /** Whether an order of the ticker can still trade. */
    method HasLiveOrder(ticker: Ticker) returns (live: bool)
      ensures live <==> !TickerSettled(db.orders, ticker)
    {
      var first := FirstLive(ticker);
      live := first.Some?;
    }

    method HasOpen(ticker: Ticker) returns (open: bool)
      requires Valid()
      ensures open <==> TickerOpen(db.trades, ticker) || !TickerSettled(db.orders, ticker)
    {
      var live := HasLiveOrder(ticker);
      open := ticker in openPositions || live;
    }

    /** Record one broker report in a single transaction; false is a report that is refused. */
    method ApplyBrokerOrderState(id: nat, report: Report) returns (ok: bool)
      requires Ready() && id < |db.orders| && Honest(db.orders, remote, id, report)
      modifies this`db, this`events, this`openPositions, this`listing, this`trace
      ensures TradesKept(old(db.trades), db.trades)
      ensures Ready() && Intents(trace) == old(Intents(trace))
      ensures |db.orders| == |old(db.orders)| && (ok ==> db.orders[id].state == report.state)
      ensures forall i :: 0 <= i < |db.orders| ==>
        SameIdentity(old(db.orders)[i], db.orders[i]) && (i != id ==> db.orders[i] == old(db.orders)[i])
      ensures var next := Reported(old(Book()), id, report);
        ok == next.Some? && Book() == if ok then next.value else old(Book())
    {
      ghost var before := State();
      Facts();
      var next, news := RecordReport(db, id, report);
      if next.Err? { return false; }
      ReportKeepsIdentity(db, id, report);
      HonestIsTruthful(before, id, report);
      db, events := next.value, events + news;
      Record(before, Observe(id, report, true));
      ReloadOpenPositions();
      ok := true;
    }

    /** Persist the legs nested in a parent's answer, all or none, then record what the broker said about each. */
    method DiscoverLegs(id: nat, legs: seq<LegAnswer>) returns (ok: bool)
      requires Ready() && id < |db.orders| && db.orders[id].IsEntry() && TruthfulLegs(remote, id, legs)
      modifies this`db, this`remote, this`events, this`openPositions, this`listing, this`trace
      ensures TradesKept(old(db.trades), db.trades)
      ensures Ready() && Intents(trace) == old(Intents(trace)) && OwnRowsKept(old(db.orders), db.orders)
      ensures (Book(), ok) == WithLegs(old(Book()), id, legs)
    {
      ok := PersistLegs(id, legs);
      if !ok { return; }
      ghost var orders := db.orders;
      ok := RecordLegs(id, legs);
      OwnRowsKeptTwice(old(db.orders), orders, db.orders);
    }

    /** Record what the broker said about legs that have their rows, up to the first report that is refused. */
    method RecordLegs(id: nat, legs: seq<LegAnswer>) returns (ok: bool)
      requires Ready() && id < |remote| && LegsKnown(db.orders, id, legs) && TruthfulLegs(remote, id, legs)
      modifies this`db, this`events, this`openPositions, this`listing, this`trace
      ensures TradesKept(old(db.trades), db.trades)
      ensures Ready() && Intents(trace) == old(Intents(trace)) && OwnRowsKept(old(db.orders), db.orders)
      ensures (Book(), ok) == LegReports(old(Book()), id, legs)
    {
      ghost var start := Book();
      ok := true;
      assert legs[..0] == [];
      for k := 0 to |legs|
        invariant Ready() && Intents(trace) == old(Intents(trace))
        invariant OwnRowsKept(old(db.orders), db.orders) && LegsKnown(db.orders, id, legs)
        invariant TradesKept(old(db.trades), db.trades)
        invariant ok && LegReports(start, id, legs[..k]) == (Book(), true)
      {
        ghost var book := Book();
        ok := RecordLeg(id, legs, k);
        NextReport(start, id, legs, k, book, Book(), ok);
        if !ok { return; }
      }
      assert legs[..|legs|] == legs;
    }

    method RecordLeg(id: nat, legs: seq<LegAnswer>, k: nat) returns (ok: bool)
      requires Ready() && id < |remote| && LegsKnown(db.orders, id, legs) && k < |legs|
        && TruthfulLegs(remote, id, legs)
      modifies this`db, this`events, this`openPositions, this`listing, this`trace
      ensures TradesKept(old(db.trades), db.trades)
      ensures Ready() && Intents(trace) == old(Intents(trace))
      ensures OwnRowsKept(old(db.orders), db.orders) && LegsKnown(db.orders, id, legs)
      ensures (Book(), ok) == LegReport(old(Book()), id, legs[k])
    {
      var leg := FindLeg(db.orders, Parent(id, legs[k].kind.value)).value;
      ghost var orders := db.orders;
      Facts();
      assert RowLinked(db, leg);
      ok := ApplyBrokerOrderState(leg, legs[k].report);
      LegsStayKnown(orders, db.orders, id, legs);
    }

    method PersistLegs(id: nat, legs: seq<LegAnswer>) returns (ok: bool)
      requires Ready() && id < |db.orders| && db.orders[id].IsEntry() && TruthfulLegs(remote, id, legs)
      modifies this`db, this`remote, this`listing, this`trace
      ensures TradesKept(old(db.trades), db.trades)
      ensures Ready() && Intents(trace) == old(Intents(trace)) && OwnRowsKept(old(db.orders), db.orders)
      ensures ok <==> forall k :: 0 <= k < |legs| ==> legs[k].kind.Some?
      ensures ok ==> TruthfulLegs(remote, id, legs) && LegsKnown(db.orders, id, legs)
      ensures db == if ok then old(db).(orders := Registered(old(db.orders), id, legs)) else old(db)
    {
      ghost var before := State();
      Facts();
      var orders, records;
      ghost var kinds;
      ok, orders, records, kinds := StageLegs(before, db.orders, remote, id, legs);
      if !ok { return; }
      DiscoverKeepsOwnRows(before, id, kinds);
      assert records[id] == remote[id];
      db, remote := db.(orders := orders), records;
      Record(before, Discover(id, kinds));
    }

    method BeginSubmit(id: nat)
      requires Ready() && id < |db.orders| && db.orders[id].state.PendingSubmission?
      modifies this`db, this`sending, this`listing, this`trace
      ensures Valid() && sending == Some(id) && Intents(trace) == old(Intents(trace))
      ensures db == old(db).(orders := old(db.orders)[id := old(db.orders[id]).(state := Unresolved)])
    {
      ghost var before := State();
      Facts();
      db := db.(orders := db.orders[id := db.orders[id].(state := Unresolved)]);
      sending := Some(id);
      Record(before, OrderProtocol.BeginSubmit(id));
    }

    /** Record an answer about order `id`, and its legs if it is an entry; a refused answer leaves it unresolved. */
    method Digest(id: nat, answer: Option<Answer>)
      requires Ready() && id < |db.orders| && !db.orders[id].state.PendingSubmission?
      requires answer.Some? ==>
        Honest(db.orders, remote, id, answer.value.report) && TruthfulLegs(remote, id, answer.value.legs)
      modifies this`db, this`remote, this`events, this`openPositions, this`blocked, this`listing, this`trace
      ensures TradesKept(old(db.trades), db.trades)
      ensures Ready() && Intents(trace) == old(Intents(trace)) && OthersKept(old(db.orders), db.orders, id)
      ensures !db.orders[id].state.PendingSubmission?
      ensures Book() == Digested(old(Book()), id, answer)
    {
      var ok := false;
      if answer.Some? { ok := DigestAnswer(id, answer.value); }
      if !ok { MarkUnresolved(id); }
    }

    method DigestAnswer(id: nat, answer: Answer) returns (ok: bool)
      requires Ready() && id < |db.orders| && !db.orders[id].state.PendingSubmission?
      requires Honest(db.orders, remote, id, answer.report) && TruthfulLegs(remote, id, answer.legs)
      modifies this`db, this`remote, this`events, this`openPositions, this`listing, this`trace
      ensures TradesKept(old(db.trades), db.trades)
      ensures Ready() && Intents(trace) == old(Intents(trace)) && OthersKept(old(db.orders), db.orders, id)
      ensures !db.orders[id].state.PendingSubmission?
      ensures (Book(), ok) == Answered(old(Book()), id, answer)
    {
      ok := ApplyBrokerOrderState(id, answer.report);
      if ok && db.orders[id].IsEntry() {
        EntryIsNoLeg(id);
        ok := DiscoverLegs(id, answer.legs);
      }
    }

    /** Send a durable intent: the unresolved state is committed before the request leaves the process. */
    method Submit(id: nat)
      requires Ready() && id < |db.orders| && db.orders[id].state.PendingSubmission?
      modifies this`db, this`remote, this`sending, this`events, this`openPositions, this`blocked
      modifies this`listing, this`trace, this`deeds
      ensures TradesKept(old(db.trades), db.trades)
      ensures Ready() && Intents(trace) == old(Intents(trace)) && OthersKept(old(db.orders), db.orders, id)
      ensures !db.orders[id].state.PendingSubmission?
      ensures Spoke(old(Book()), old(deeds), Book(), deeds, [ToSend(id)])
    {
      BeginSubmit(id);
      var answer := SendRequest(id);
      Digest(id, answer);
      SpokeOnce(old(Book()), old(deeds), Sent(id, answer));
    }

    /** A request that was never sent is cancelled locally if its entry is to be flattened. */
    method ResolvePendingSubmission(id: nat, row: Order)
      requires Ready() && id < |db.orders| && db.orders[id] == row && row.state.PendingSubmission?
      modifies this`db, this`remote, this`sending, this`events, this`openPositions, this`blocked
      modifies this`listing, this`trace, this`deeds
      ensures Ready() && Intents(trace) == old(Intents(trace)) && OthersKept(old(db.orders), db.orders, id)
      ensures !db.orders[id].state.PendingSubmission?
      ensures Spoke(old(Book()), old(deeds), Book(), deeds,
                    if row.IsEntry() && row.flatten then [ToWithdraw(id)] else [ToSend(id)])
    {
      if row.IsEntry() && row.flatten {
        ghost var before := State();
        Facts();
        db := db.(orders := db.orders[id := row.(state := Canceled)]);
        Record(before, CancelUnsent(id));
        deeds := deeds + [Withdrew(id)];
        SpokeOnce(old(Book()), old(deeds), Withdrew(id));
        return;
      }
      Submit(id);
    }

    /** Bring one journaled order up to date; `row` is the caller's earlier copy of it. */
    method SyncOrderWithBroker(id: nat, row: Order, knownLegs: nat)
      requires Ready() && id < |db.orders|
      requires db.orders[id] == row || (db.orders[id].IsLeg() && !row.state.PendingSubmission?)
      modifies this`db, this`remote, this`sending, this`events, this`openPositions, this`blocked
      modifies this`listing, this`trace, this`deeds
      ensures Ready() && Intents(trace) == old(Intents(trace)) && OthersKept(old(db.orders), db.orders, id)
      ensures !db.orders[id].state.PendingSubmission?
      ensures Spoke(old(Book()), old(deeds), Book(), deeds, SyncTask(row, id, knownLegs))
    {
      LegIsNotPending(id);
      var unknown := row.IsEntry() && row.applied > 0 && knownLegs != 2;
      if row.state.Terminal() && !unknown {
        SpokeNothing(Book(), deeds);
        return;
      }
      if row.state.PendingSubmission? {
        ResolvePendingSubmission(id, row);
        return;
      }
      var answer := Lookup(id);
      Digest(id, answer);
      SpokeOnce(old(Book()), old(deeds), Asked(id, answer));
    }

    /** Ask the broker to cancel every live order of an entry that is to be flattened. */
    method CancelFlattenEntries()
      requires Ready()
      modifies this`db, this`remote, this`blocked, this`listing, this`trace, this`deeds
      ensures Ready() && Intents(trace) == old(Intents(trace))
      ensures Spoke(old(Book()), old(deeds), Book(), deeds, CancelTasks(old(db.orders), |old(db.orders)|))
    {
      var orders := db.orders;
      SpokeNothing(Book(), deeds);
      for k := 0 to |orders|
        invariant Ready() && Intents(trace) == old(Intents(trace)) && |db.orders| == |orders|
        invariant Spoke(old(Book()), old(deeds), Book(), deeds, CancelTasks(orders, k))
      {
        ghost var book, said := Book(), deeds;
        CancelFlattening(orders, k);
        SpokeThen(old(Book()), old(deeds), book, said, Book(), deeds, CancelTasks(orders, k),
                  CancelTask(orders, orders[k], k));
      }
    }

    method CancelFlattening(orders: seq<Order>, k: nat)
      requires Ready() && k < |orders| == |db.orders|
      modifies this`db, this`remote, this`blocked, this`listing, this`trace, this`deeds
      ensures Ready() && Intents(trace) == old(Intents(trace)) && |db.orders| == |old(db.orders)|
      ensures Spoke(old(Book()), old(deeds), Book(), deeds, CancelTask(orders, orders[k], k))
    {
      var row := orders[k];
      SpokeNothing(Book(), deeds);
      var flattening := row.IsEntry() && row.flatten;
      if row.IsLeg() {
        var entry := row.parent.value.order;
        flattening := entry < |orders| && orders[entry].IsEntry() && orders[entry].flatten;
      }
      if row.state.Terminal() || !flattening { return; }
      if !row.brokerKnown {
        blocked := true;
        deeds := deeds + [Unidentified(k)];
        SpokeOnce(old(Book()), old(deeds), Unidentified(k));
        return;
      }
      var acknowledged := RequestCancel(k);
      if !acknowledged { MarkUnresolved(k); }
      SpokeOnce(old(Book()), old(deeds), CancelAsked(k, acknowledged));
    }

    /** Persist cancellation intent on every live entry, even one without a trade yet. */
    method RequestSessionFlatten()
      requires Ready()
      modifies this`db, this`listing, this`trace
      ensures Ready() && Intents(trace) == old(Intents(trace)) && db.trades == old(db.trades)
      ensures |db.orders| == |old(db.orders)|
      ensures forall i :: 0 <= i < |db.orders| ==> db.orders[i] == Flattened(old(db.orders)[i])
    {
      for k := 0 to |db.orders|
        invariant Ready() && Intents(trace) == old(Intents(trace)) && db.trades == old(db.trades)
        invariant |db.orders| == |old(db.orders)|
        invariant forall i :: 0 <= i < |db.orders| ==>
          db.orders[i] == if i < k then Flattened(old(db.orders)[i]) else old(db.orders)[i]
      {
        var row := db.orders[k];
        if row.IsEntry() && !row.state.Terminal() && !row.flatten {
          ghost var before := State();
          Facts();
          db := db.(orders := db.orders[k := row.(flatten := true)]);
          Record(before, FlagFlatten(k));
        }
      }
    }

    /** What the broker says it holds; None is a failed request. */
    method FetchBrokerPositions() returns (observed: Option<Listing>)
      requires Ready()
      modifies this`remote, this`listing, this`trace, this`deeds
      ensures Ready() && Intents(trace) == old(Intents(trace)) && deeds == old(deeds) + [Listed(observed)]
      ensures observed.Some? ==> listing == observed
    {
      Elapse();
      observed := *;
      if observed.Some? {
        ghost var before := State();
        Facts();
        Record(before, ListPositions(observed.value));
      }
      deeds := deeds + [Listed(observed)];
    }

    /** The account's equity; one that the account does not state is taken to be the last known capital. */
    method FetchAccountEquity() returns (equity: Option<real>)
      requires Ready()
      modifies this`remote, this`listing, this`trace, this`deeds
      ensures Ready() && Intents(trace) == old(Intents(trace)) && deeds == old(deeds) + [Valued(equity)]
      ensures listing == old(listing)
    {
      Elapse();
      equity := *;
      var stated: bool := *;
      if equity.Some? && !stated { equity := Some(capital); }
      deeds := deeds + [Valued(equity)];
    }

    method BlockOnUnsettledOrders(orders: seq<Order>)
      modifies this`blocked
      ensures blocked <==> old(blocked) || !AllSettledOrResting(orders)
    {
      for k := 0 to |orders|
        invariant blocked <==> old(blocked) || !AllSettledOrResting(orders[..k])
      {
        var o := orders[k];
        if !o.state.Terminal() && !(o.IsLeg() && o.state.RestingLeg()) { blocked := true; }
        assert SettledOrResting(o) <==> o.state.Terminal() || (o.IsLeg() && o.state.RestingLeg());
        assert orders[..k + 1] == orders[..k] + [o];
      }
      assert orders[..|orders|] == orders;
    }

    method BlockOnIncompleteBracketProtection()
      requires Valid()
      modifies this`blocked
      ensures blocked <==> old(blocked) || !AllGuarded(db)
    {
      hide Guarded, Durable;
      var rest := openPositions.Keys;
      while rest != {}
        invariant rest <= openPositions.Keys
        invariant blocked <==> old(blocked) || !GuardedBut(rest)
        decreases |rest|
      {
        var ticker :| ticker in rest;
        rest := rest - {ticker};
        var intact := ProtectionIntact(openPositions[ticker]);
        if !intact { blocked := true; }
      }
    }

    /** The remembered positions apart from those of `rest` are guarded. */
    ghost predicate GuardedBut(rest: set<Ticker>)
      requires Mirrors(openPositions, db.trades)
      reads this`db, this`openPositions
    {
      forall ticker :: ticker in openPositions && ticker !in rest ==> Guarded(db, openPositions[ticker].id)
    }

    /** Count the live legs of a position and compare what each still protects. */
    method ProtectionIntact(p: Position) returns (intact: bool)
      requires Durable() && p.id < |db.trades| && db.trades[p.id] == p.row
      ensures intact <==> Guarded(db, p.id)
    {
      Facts();
      assert TradeLinked(db, p.id);
      var live, matching := 0, true;
      ghost var target: Option<nat>, stop: Option<nat> := None, None;
      for k := 0 to |db.orders|
        invariant FoundLeg(db, p.id, TargetLeg, target, k) && FoundLeg(db, p.id, StopLeg, stop, k)
        invariant live == (if target.Some? then 1 else 0) + (if stop.Some? then 1 else 0)
        invariant matching <==>
          (target.Some? ==> Covers(db.orders[target.value], p.row))
          && (stop.Some? ==> Covers(db.orders[stop.value], p.row))
      {
        var o := db.orders[k];
        assert RowLinked(db, k);
        if !o.IsLeg() || o.tradeId != Some(p.id) || o.state.Terminal() { continue; }
        assert RowLinked(db, o.parent.value.order);
        live := live + 1;
        if o.protectiveQty.None? || o.protectiveQty.value - o.applied != p.row.remaining { matching := false; }
        if o.parent.value.kind.TargetLeg? { target := Some(k); } else { stop := Some(k); }
      }
      intact := live == 2 && matching && db.orders[p.row.entryOrder].state.Filled?;
      OnlyLeg(db, p.id, TargetLeg, target);
      OnlyLeg(db, p.id, StopLeg, stop);
    }

    /** Look every unfinished order up, then compare exposure, settlement and protection with the broker.
        Nothing is opened or closed here: reconciliation only sends intents that were already durable. */
    method Reconcile() returns (ok: bool, ghost round: Round)
      requires Ready()
      modifies this
      ensures Ready() && Intents(trace) == old(Intents(trace)) && ok == !blocked && deeds == old(deeds) + round.Said()
      ensures Reconciled(old(Book()).(blocked := false), old(capital), Seen(round))
      ensures safeToFlatten ==> listing == Some(Exposure(openPositions))
      ensures ok ==> AllGuarded(db) && AllSettledOrResting(db.orders)
    {
      blocked, safeToFlatten := false, false;
      assert Book() == old(Book()).(blocked := false);
      round := Examine();
      ok := !blocked;
    }

    method Examine() returns (ghost round: Round)
      requires Ready() && !safeToFlatten
      modifies this
      ensures Ready() && Intents(trace) == old(Intents(trace)) && deeds == old(deeds) + round.Said()
      ensures Reconciled(old(Book()), old(capital), Seen(round))
      ensures safeToFlatten ==> listing == Some(Exposure(openPositions))
    {
      ghost var start := Book();
      ghost var mid, heard, sync, cancels := Refresh();
      ghost var listed, equity := Conclude();
      round := Round(sync, cancels, listed, equity);
      Joined(old(deeds), sync, cancels, Closing(listed, equity));
      IsReconciled(start, old(capital), mid, heard, Seen(round));
    }

    /** Bring every order up to date, then ask flagged entries and their legs to cancel. */
    method Refresh() returns (ghost mid: Told, ghost heard: Told, ghost sync: seq<Deed>, ghost cancels: seq<Deed>)
      requires Ready()
      modifies this`db, this`remote, this`sending, this`events, this`openPositions, this`blocked
      modifies this`listing, this`trace, this`deeds
      ensures Ready() && Intents(trace) == old(Intents(trace)) && deeds == old(deeds) + sync + cancels
      ensures mid == HearAll(old(Book()), sync) && heard == HearAll(mid, cancels) == Book()
      ensures Tasks(sync) == SyncTasks(old(db.orders), |old(db.orders)|)
      ensures Tasks(cancels) == CancelTasks(mid.j.orders, |mid.j.orders|)
    {
      SyncAll();
      mid := Book();
      ghost var half := deeds;
      CancelFlattenEntries();
      heard := Book();
      sync, cancels := Parts(old(Book()), old(deeds), mid, half, heard, deeds,
                             SyncTasks(old(db.orders), |old(db.orders)|), CancelTasks(mid.j.orders, |mid.j.orders|));
    }

    /** What is known now. */
    ghost function Seen(round: Round): Sight
      reads this`db, this`events, this`blocked, this`openPositions, this`safeToFlatten, this`capital
    {
      Sight(Book(), openPositions, Verdict(safeToFlatten, capital), round)
    }

    /** Compare with what the broker lists, and ask the account if that came. */
    method Conclude() returns (ghost listed: Option<Listing>, ghost equity: Option<real>)
      requires Ready() && !safeToFlatten
      modifies this`remote, this`listing, this`trace, this`deeds, this`blocked, this`safeToFlatten, this`capital
      ensures Ready() && Intents(trace) == old(Intents(trace))
      ensures deeds == old(deeds) + Closing(listed, equity) && (listed.None? ==> equity.None?)
      ensures Concludes(old(Book()), openPositions, listed, equity, old(capital), Book(),
                        Verdict(safeToFlatten, capital))
      ensures safeToFlatten ==> listing == Some(Exposure(openPositions))
    {
      hide Mirrors, Confirms, AllGuarded, AllSettledOrResting;
      var observed := FetchBrokerPositions();
      listed, equity := observed, None;
      if observed.None? {
        safeToFlatten, blocked := false, true;
        return;
      }
      CompareWithBroker(observed.value);
      ConfirmsExposure(openPositions, db.trades, observed.value);
      var account := FetchAccountEquity();
      equity := account;
      AddTwo(old(deeds), Listed(observed), Valued(account));
      if account.Some? {
        capital := account.value;
      } else {
        safeToFlatten, blocked := false, true;
      }
    }

    /** The three comparisons; flattening needs only the first two to pass. */
    method CompareWithBroker(observed: Listing)
      requires Valid()
      modifies this`blocked, this`safeToFlatten
      ensures safeToFlatten <==> !old(blocked) && Confirms(observed, db.trades) && AllSettledOrResting(db.orders)
      ensures !blocked <==> safeToFlatten && AllGuarded(db)
    {
      ConfirmsExposure(openPositions, db.trades, observed);
      var expected := map ticker | ticker in openPositions ::
        var row := openPositions[ticker].row;
        (if row.direction == Long then 1 else -1) * row.remaining;
      assert expected == Exposure(openPositions);
      if observed != expected { blocked := true; }
      BlockOnUnsettledOrders(db.orders);
      safeToFlatten := !blocked;
      BlockOnIncompleteBracketProtection();
    }

    /** Parents come before their legs in table order; rows are the copies taken before the first lookup. */
    method SyncAll()
      requires Ready()
      modifies this`db, this`remote, this`sending, this`events, this`openPositions, this`blocked
      modifies this`listing, this`trace, this`deeds
      ensures Ready() && Intents(trace) == old(Intents(trace))
      ensures forall i :: 0 <= i < |old(db.orders)| ==> i < |db.orders| && !db.orders[i].state.PendingSubmission?
      ensures Spoke(old(Book()), old(deeds), Book(), deeds, SyncTasks(old(db.orders), |old(db.orders)|))
    {
      var orders := db.orders;
      NothingSwept();
      SpokeNothing(Book(), deeds);
      for k := 0 to |orders|
        invariant Ready() && Intents(trace) == old(Intents(trace))
        invariant Swept(orders, db.orders, k) && Spoke(old(Book()), old(deeds), Book(), deeds, SyncTasks(orders, k))
      {
        ghost var book, said := Book(), deeds;
        SyncRow(orders, k);
        SpokeThen(old(Book()), old(deeds), book, said, Book(), deeds, SyncTasks(orders, k),
                  SyncTask(orders[k], k, CountLegs(orders, k)));
      }
      NonePending(orders);
    }

    lemma NothingSwept()
      requires Durable()
      ensures Swept(db.orders, db.orders, 0)
    {
      forall i | 0 <= i < |db.orders| && db.orders[i].IsLeg() ensures !db.orders[i].state.PendingSubmission? {
        LegIsNotPending(i);
      }
    }

    lemma NonePending(orders: seq<Order>)
      requires Durable() && Swept(orders, db.orders, |orders|)
      ensures forall i :: 0 <= i < |orders| ==> i < |db.orders| && !db.orders[i].state.PendingSubmission?
    {
      forall i | 0 <= i < |orders| ensures !db.orders[i].state.PendingSubmission? {
        if orders[i].IsLeg() { LegIsNotPending(i); }
      }
    }

    method SyncRow(orders: seq<Order>, k: nat)
      requires Ready() && k < |orders| && Swept(orders, db.orders, k)
      modifies this`db, this`remote, this`sending, this`events, this`openPositions, this`blocked
      modifies this`listing, this`trace, this`deeds
      ensures Ready() && Intents(trace) == old(Intents(trace)) && Swept(orders, db.orders, k + 1)
      ensures Spoke(old(Book()), old(deeds), Book(), deeds, SyncTask(orders[k], k, CountLegs(orders, k)))
    {
      ghost var before := db.orders;
      SyncOrderWithBroker(k, orders[k], CountLegs(orders, k));
      SweptNext(orders, before, db.orders, k);
    }

    /** Create a durable order intent unless the ticker still has a live order. */
    method Intent(ticker: Ticker, a: Action) returns (id: nat)
      requires Ready() && IsIntent(a)
      requires a.OpenIntent? ==> a.ticker == ticker && a.quantity > 0 && !TickerOpen(db.trades, ticker)
      requires a.ExitIntent? ==>
        a.trade < |db.trades| && db.trades[a.trade].ticker == ticker && db.trades[a.trade].open
        && BothLegsKnown(db.orders, db.trades[a.trade].entryOrder) && listing.Some?
        && Confirms(listing.value, db.trades)
      modifies this`db, this`remote, this`listing, this`trace
      ensures Ready() && id < |db.orders| && old(db.trades) == db.trades
      ensures Intents(trace) == old(Intents(trace)) + if TickerSettled(old(db.orders), ticker) then [a] else []
      ensures TickerSettled(old(db.orders), ticker) ==>
        id == |old(db.orders)| && db.orders == old(db.orders) + [IntentRow(db, a)]
      ensures !TickerSettled(old(db.orders), ticker) ==>
        db == old(db) && db.orders[id].ticker == ticker && !db.orders[id].state.Terminal()
    {
      var live := FirstLive(ticker);
      if live.Some? { return live.value; }
      ghost var before := State();
      Facts();
      id := |db.orders|;
      var row := Order(ticker, Entry, Long, PendingSubmission, 0, 0, 0.0, None, false, None, None, false);
      if a.OpenIntent? {
        row := row.(direction := a.direction, requested := a.quantity);
      } else {
        var trade := db.trades[a.trade];
        row := row.(purpose := Exit, direction := trade.direction, requested := trade.remaining,
                    tradeId := Some(a.trade));
      }
      db := db.(orders := db.orders + [row]);
      remote := remote + [UNSENT];
      Record(before, a);
    }

    /** Whether an entry may be opened: the gates in the order they are checked. */
    ghost predicate Admits(ticker: Ticker, direction: Option<Direction>, entry: real, stop: Option<real>,
                           target: Option<real>)
      requires entry != 0.0
      reads this
    {
      && direction.Some?
      && !TickerOpen(db.trades, ticker) && TickerSettled(db.orders, ticker)
      && !blocked && Shares(entry) >= 1
      && Priced(stop) && Priced(target)
      && LevelsInOrder(direction.value, RoundTick(stop.value), entry, RoundTick(target.value))
    }

    ghost function Shares(entry: real): int
      requires entry != 0.0
      reads this
    {
      (capital * positionPct / entry).Floor
    }

    /** An entry is for the most whole shares that the position's share of capital pays. */
    lemma SharesAreMost(entry: real, shares: int)
      requires entry > 0.0
      ensures shares == Shares(entry) <==>
        shares as real * entry <= capital * positionPct < (shares + 1) as real * entry
    {
      Quotient(capital * positionPct, entry, capital * positionPct / entry, shares);
    }

    method AffordableShares(entry: real) returns (shares: int)
      requires entry != 0.0
      ensures shares == Shares(entry)
    {
      shares := (capital * positionPct / entry).Floor;
    }

    /** An admitted signal becomes one durable intent and one request; any other changes nothing at all. */
    method OpenPosition(ticker: Ticker, direction: Option<Direction>, entry: real, stop: Option<real>,
                        target: Option<real>)
      returns (position: Option<Position>)
      requires Ready() && entry != 0.0
      modifies this
      ensures Ready()
      ensures Intents(trace) == old(Intents(trace)) +
        if old(Admits(ticker, direction, entry, stop, target))
        then [OpenIntent(ticker, direction.value, old(Shares(entry)))] else []
      ensures !old(Admits(ticker, direction, entry, stop, target)) ==>
        Book() == old(Book()) && deeds == old(deeds) && position.None?
      ensures old(Admits(ticker, direction, entry, stop, target)) ==>
        var row := NewRow(ticker, Entry, direction.value, old(Shares(entry)), None);
        Spoke(old(Book()).(j := old(db).(orders := old(db.orders) + [row])), old(deeds), Book(), deeds,
              [ToSend(|old(db.orders)|)])
      ensures position.Some? ==>
        position.value.id < |db.trades| && db.trades[position.value.id] == position.value.row
        && position.value.row.open && position.value.row.ticker == ticker
    {
      position := None;
      if direction.None? { return; }
      var open := HasOpen(ticker);
      if open || blocked { return; }
      hide Shares, RoundTick, LevelsInOrder;
      var shares := AffordableShares(entry);
      if shares < 1 || stop.None? || stop.value <= 0.0 || target.None? || target.value <= 0.0 { return; }
      var ordered := LevelsAround(direction.value, stop.value, entry, target.value);
      if !ordered { return; }
      var id := Intent(ticker, OpenIntent(ticker, direction.value, shares));
      Submit(id);
      if ticker in openPositions { position := Some(openPositions[ticker]); }
    }

    /** Close at market only what is certainly left. A stop or target exit is the resting leg's business. Otherwise
        the wish is noted, a reconciliation brings everything up to date (`seen`), and one exit is sent if that found
        the position still open, safe to flatten, both its legs known and every order of the ticker finished;
        whatever can still trade is asked to cancel instead. */
    method ClosePosition(ticker: Ticker, reason: ExitReason)
      returns (closed: Option<Trade>, ghost seen: Sight, ghost sold: Option<nat>)
      requires Ready()
      modifies this
      ensures Ready() && Intents(trace) == old(Intents(trace)) + if sold.Some? then [ExitIntent(sold.value)] else []
      ensures reason != OtherReason || ticker !in old(openPositions) ==>
        Book() == old(Book()) && deeds == old(deeds) && sold.None?
      ensures reason == OtherReason && ticker in old(openPositions) ==>
        && old(openPositions[ticker].id < |db.trades|)
        && Reconciled(Told(Noted(old(db), old(openPositions[ticker].id)), old(events), false), old(capital), seen)
        && old(deeds) + seen.round.Said() <= deeds
        && sold ==
           if CanSell(seen.told.j.orders, seen.positions, ticker, seen.verdict.safe)
           then Some(seen.positions[ticker].id) else None
      ensures closed ==
        if sold.Some? && sold.value < |db.trades| && !db.trades[sold.value].open
        then Some(db.trades[sold.value]) else None
    {
      closed, sold, seen := None, None, Seen(Round([], [], None, None));
      if ticker !in openPositions || reason != OtherReason { return; }
      NotePendingExit(ticker);
      var _, round := Reconcile();
      seen := Seen(round);
      var ready := ReadyToSell(ticker);
      if ready {
        sold := Some(openPositions[ticker].id);
        closed := Sell(ticker);
      }
    }

    /** True exactly if the position is still open, safe to flatten, both its legs known and every order of the ticker
        finished; otherwise whatever can still trade the position was asked to cancel. */
    method ReadyToSell(ticker: Ticker) returns (ready: bool)
      requires Ready()
      modifies this`db, this`remote, this`blocked, this`listing, this`trace, this`deeds
      ensures Ready() && Intents(trace) == old(Intents(trace)) && old(deeds) <= deeds
      ensures ready <==> CanSell(old(db.orders), openPositions, ticker, safeToFlatten)
      ensures ready ==> listing == old(listing)
      ensures ready ==>
        db == old(db) && deeds == old(deeds) && BothLegsKnown(db.orders, openPositions[ticker].row.entryOrder)
    {
      if ticker !in openPositions { return false; }
      var position := openPositions[ticker];
      if CountLegs(db.orders, position.row.entryOrder) != 2 {
        blocked := true;
        return false;
      }
      Facts();
      TwoLegsAreBoth(db.orders, position.row.entryOrder);
      if TickerSettled(db.orders, ticker) { TradableIsLive(db.orders, ticker, position, |db.orders|); }
      var active := CancelActive(ticker, position);
      if active || !safeToFlatten { return false; }
      var live := HasLiveOrder(ticker);
      ready := !live;
    }

    method Sell(ticker: Ticker) returns (closed: Option<Trade>)
      requires Ready() && ticker in openPositions && TickerSettled(db.orders, ticker)
      requires BothLegsKnown(db.orders, openPositions[ticker].row.entryOrder)
        && listing == Some(Exposure(openPositions))
      modifies this
      ensures Ready() && Intents(trace) == old(Intents(trace)) + [ExitIntent(old(openPositions[ticker].id))]
      ensures var row := old(IntentRow(db, ExitIntent(openPositions[ticker].id)));
        Spoke(old(Book()).(j := old(db).(orders := old(db.orders) + [row])), old(deeds), Book(), deeds,
              [ToSend(|old(db.orders)|)])
      ensures old(openPositions[ticker].id) < |db.trades|
      ensures var row := db.trades[old(openPositions[ticker].id)]; closed == if row.open then None else Some(row)
    {
      var position := openPositions[ticker];
      ConfirmsExposure(openPositions, db.trades, listing.value);
      var id := Intent(ticker, ExitIntent(position.id));
      Submit(id);
      var row := db.trades[position.id];
      closed := if row.open then None else Some(row);
    }

    method NotePendingExit(ticker: Ticker)
      requires Ready() && ticker in openPositions
      modifies this`db, this`openPositions, this`listing, this`trace
      ensures Ready() && Intents(trace) == old(Intents(trace))
      ensures old(openPositions[ticker].id) < |old(db.trades)| && db == Noted(old(db), old(openPositions[ticker].id))
    {
      var p := openPositions[ticker];
      ghost var before := State();
      Facts();
      var row := p.row.(pendingExit := true);
      db := db.(trades := db.trades[p.id := row]);
      openPositions := openPositions[ticker := Position(p.id, row, true)];
      Record(before, OrderProtocol.NotePendingExit(p.id));
    }

    /** Request cancellation of whatever can still trade this position, in table order, up to the first market exit
        or refusal; true if anything can. */
    method CancelActive(ticker: Ticker, position: Position) returns (active: bool)
      requires Ready()
      modifies this`db, this`remote, this`blocked, this`listing, this`trace, this`deeds
      ensures Ready() && Intents(trace) == old(Intents(trace)) && old(deeds) <= deeds
      ensures active <==> Tradable(old(db.orders), ticker, position, |old(db.orders)|) != []
      ensures !active ==> db == old(db) && deeds == old(deeds) && listing == old(listing)
      ensures Cancelled(old(Book()), Tradable(old(db.orders), ticker, position, |old(db.orders)|), Book(), old(deeds),
                        deeds)
    {
      ghost var book := Book();
      var orders := db.orders;
      active := false;
      for k := 0 to |orders|
        invariant Ready() && Intents(trace) == old(Intents(trace)) && Book() == book
        invariant deeds == old(deeds) + Acknowledged(Tradable(orders, ticker, position, k))
        invariant active <==> Tradable(orders, ticker, position, k) != []
        invariant listing == old(listing)
      {
        var row := orders[k];
        if row.ticker != ticker || row.state.Terminal() { continue; }
        if row.tradeId != Some(position.id) && k != position.row.entryOrder { continue; }
        active := true;
        StopsAt(book, ticker, position, k, old(deeds));
        if orders[k].IsMarketExit() { return; }
        var acknowledged := RequestCancel(k);
        AckOneMore(old(deeds), Tradable(orders, ticker, position, k), k);
        if !acknowledged {
          MarkUnresolved(k);
          return;
        }
      }
    }

    /** A crash at any point, also with a request on its way out, and the next process over the same database. */
    method Restart()
      requires Valid()
      modifies this
      ensures Ready() && db == old(db) && remote == old(remote) && deeds == old(deeds)
        && Intents(trace) == old(Intents(trace))
      ensures !blocked && !safeToFlatten
    {
      ghost var before := State();
      Facts();
      sending := None;
      Record(before, Crash);
      blocked, safeToFlatten := false, false;
      capital := *;
      ReloadOpenPositions();
    }
  }

  /** The wish to leave is noted on a trade. */
  function Noted(j: Journal, t: nat): Journal
    requires t < |j.trades|
  {
    j.(trades := j.trades[t := j.trades[t].(pendingExit := true)])
  }

  /** The position can be sold at market without overselling. */
  predicate CanSell(orders: seq<Order>, positions: map<Ticker, Position>, ticker: Ticker, safe: bool) {
    && ticker in positions && safe && CountLegs(orders, positions[ticker].row.entryOrder) == 2
    && TickerSettled(orders, ticker)
  }

  /** A live order of the ticker that belongs to the position. */
  predicate CanTrade(row: Order, i: nat, ticker: Ticker, position: Position) {
    && row.ticker == ticker && !row.state.Terminal()
    && (row.tradeId == Some(position.id) || i == position.row.entryOrder)
  }

  /** What can trade the position among the first `n` orders, in table order. */
  function Tradable(orders: seq<Order>, ticker: Ticker, position: Position, n: nat): seq<nat>
    requires n <= |orders|
  {
    if n == 0 then []
    else
      Tradable(orders, ticker, position, n - 1)
        + if CanTrade(orders[n - 1], n - 1, ticker, position) then [n - 1] else []
  }

  lemma {:induction false} TradableIsLive(orders: seq<Order>, ticker: Ticker, position: Position, n: nat)
    requires n <= |orders| && TickerSettled(orders, ticker)
    ensures Tradable(orders, ticker, position, n) == []
  {
    if n == 0 {
    } else {
      TradableIsLive(orders, ticker, position, n - 1);
    }
  }

  function Acknowledged(ids: seq<nat>): (r: seq<Deed>)
    ensures |r| == |ids| && forall i :: 0 <= i < |r| ==> r[i] == CancelAsked(ids[i], true)
  {
    seq(|ids|, i requires 0 <= i < |ids| => CancelAsked(ids[i], true))
  }

  /** All of `ids` were asked to cancel and acknowledged, or all up to a market exit or a first refusal. */
  ghost predicate Cancelled(t: Told, ids: seq<nat>, t': Told, before: seq<Deed>, now: seq<Deed>) {
    || (now == before + Acknowledged(ids) && t' == t)
    || exists m :: 0 <= m < |ids| && StoppedAt(t, ids, m, t', before, now)
  }

  predicate StoppedAt(t: Told, ids: seq<nat>, m: nat, t': Told, before: seq<Deed>, now: seq<Deed>)
    requires m < |ids|
  {
    && ids[m] < |t.j.orders|
    && if t.j.orders[ids[m]].IsMarketExit() then now == before + Acknowledged(ids[..m]) && t' == t
       else now == before + Acknowledged(ids[..m]) + [CancelAsked(ids[m], false)] && t' == GaveUp(t, ids[m])
  }

  /** Stopping at order `k`, at a market exit or on a refusal, is one of the outcomes. */
  lemma StopsAt(t: Told, ticker: Ticker, position: Position, k: nat, before: seq<Deed>)
    requires k < |t.j.orders| && CanTrade(t.j.orders[k], k, ticker, position)
    ensures var ids := Tradable(t.j.orders, ticker, position, |t.j.orders|);
      var said := before + Acknowledged(Tradable(t.j.orders, ticker, position, k));
      && ids != []
      && if t.j.orders[k].IsMarketExit() then Cancelled(t, ids, t, before, said)
         else Cancelled(t, ids, GaveUp(t, k), before, said + [CancelAsked(k, false)])
  {
    var ids := Tradable(t.j.orders, ticker, position, |t.j.orders|);
    var m := |Tradable(t.j.orders, ticker, position, k)|;
    TradableStays(t.j.orders, ticker, position, k + 1, |t.j.orders|);
    assert ids[..m] == Tradable(t.j.orders, ticker, position, k) && ids[m] == k;
    var said := before + Acknowledged(Tradable(t.j.orders, ticker, position, k));
    if t.j.orders[k].IsMarketExit() { assert StoppedAt(t, ids, m, t, before, said); }
    else { assert StoppedAt(t, ids, m, GaveUp(t, k), before, said + [CancelAsked(k, false)]); }
  }

  lemma AckOneMore(before: seq<Deed>, ids: seq<nat>, k: nat)
    ensures before + Acknowledged(ids) + [CancelAsked(k, true)] == before + Acknowledged(ids + [k])
  {
    assert Acknowledged(ids + [k]) == Acknowledged(ids) + [CancelAsked(k, true)];
  }

  lemma {:induction false} TradableStays(orders: seq<Order>, ticker: Ticker, position: Position, k: nat, n: nat)
    requires k <= n <= |orders|
    ensures Tradable(orders, ticker, position, k) <= Tradable(orders, ticker, position, n)
    decreases n
  {
    if k < n { TradableStays(orders, ticker, position, k, n - 1); }
  }

  lemma Joined<T>(before: seq<T>, a: seq<T>, b: seq<T>, c: seq<T>)
    ensures before + a + b + c == before + (a + b + c)
  {}

  lemma AddTwo<T>(before: seq<T>, a: T, b: T)
    ensures before + [a] + [b] == before + [a, b]
  {}

  // --- the race, through the method that sells ---

  const RACE: Journal := OrderTheorems.LISTED.j

  const RACE_POSITION := Position(0, RACE.trades[0].(pendingExit := true), true)

  /** What a reconciliation after the race has seen, if the broker lists the stale position. */
  function RaceSight(capital: real): Sight {
    Sight(Told(Noted(RACE, 0), [], true), map["NVDA" := RACE_POSITION], Verdict(true, capital),
          Round([], [], Some(OrderTheorems.STALE), Some(capital)))
  }

  lemma RaceNeedsNothing()
    ensures var orders := Noted(RACE, 0).orders;
      SyncTasks(orders, |orders|) == [] && CancelTasks(orders, |orders|) == []
      && CountLegs(orders, 0) == 2 && TickerSettled(orders, "NVDA")
  {
    var orders := Noted(RACE, 0).orders;
    assert |orders| == 3 && orders[0].state.Filled? && orders[1].state.Canceled? && orders[2].state.Canceled?;
    assert orders[..2][..1] == orders[..1] && orders[..1][..0] == [] && orders[..3] == orders;
    assert CountLegs(orders[..1], 0) == 0;
    assert CountLegs(orders[..2], 0) == 1;
    assert CountLegs(orders, 0) == 2;
    NothingToDo(orders, 3);
  }

  /** Finished orders whose legs are all known need no exchange. */
  lemma {:induction false} NothingToDo(orders: seq<Order>, n: nat)
    requires n <= |orders|
    requires forall i :: 0 <= i < |orders| ==>
      !NeedsBrokerSync(orders[i], CountLegs(orders, i)) && orders[i].state.Terminal()
    ensures SyncTasks(orders, n) == [] && CancelTasks(orders, n) == []
  {
    if n == 0 {
    } else {
      NothingToDo(orders, n - 1);
    }
  }

  /** After the race every order is finished, nothing is left to look up, and a reconciliation to which the broker
      lists the stale position clears the flatten: by its contract ClosePosition then sends the exit. */
  lemma StaleListingClearsTheFlatten(capital: real)
    ensures Reconciled(Told(Noted(RACE, 0), [], false), capital, RaceSight(capital))
    ensures CanSell(RaceSight(capital).told.j.orders, RaceSight(capital).positions, "NVDA",
                    RaceSight(capital).verdict.safe)
  {
    var seen, start := RaceSight(capital), Told(Noted(RACE, 0), [], false);
    RaceNeedsNothing();
    assert HearAll(start, []) == start;
    assert Exposure(seen.positions) == OrderTheorems.STALE;
    assert forall i :: 0 <= i < |start.j.orders| ==> !LiveLeg(start.j, 0, TargetLeg, i);
    assert start.j.trades[0].open && !Guarded(start.j, 0);
    assert Mirrors(seen.positions, start.j.trades);
    assert Concludes(start, seen.positions, seen.round.listed, seen.round.equity, capital, seen.told, seen.verdict);
  }

  /** `found` is the one live leg of the kind among the first `n` orders, if there is one. */
  ghost predicate FoundLeg(j: Journal, t: nat, kind: LegKind, found: Option<nat>, n: nat)
    requires t < |j.trades| && n <= |j.orders|
  {
    && (found.Some? ==> found.value < n && LiveLeg(j, t, kind, found.value))
    && (found.None? ==> forall i :: 0 <= i < n ==> !LiveLeg(j, t, kind, i))
  }

  lemma OnlyLeg(j: Journal, t: nat, kind: LegKind, found: Option<nat>)
    requires Linked(j) && t < |j.trades| && FoundLeg(j, t, kind, found, |j.orders|)
    ensures Shielded(j, t, kind) <==> found.Some? && Covers(j.orders[found.value], j.trades[t])
  {}

  lemma Quotient(x: real, y: real, q: real, n: int)
    requires y > 0.0 && q == x / y
    ensures n == q.Floor <==> n as real * y <= x < (n + 1) as real * y
  {
    FloorIs(q, n);
    Between(n as real, (n + 1) as real, q, y, x);
  }

  lemma FloorIs(q: real, n: int)
    ensures n == q.Floor <==> n as real <= q < (n + 1) as real
  {}

  lemma Between(low: real, high: real, q: real, y: real, x: real)
    requires y > 0.0 && x == q * y
    ensures low <= q < high <==> low * y <= x < high * y
  {
    if low <= q { Scaled(low, q, y); } else { ScaledStrictly(q, low, y); }
    if high <= q { Scaled(high, q, y); } else { ScaledStrictly(q, high, y); }
  }

  lemma Scaled(a: real, b: real, y: real)
    requires a <= b && y > 0.0
    ensures a * y <= b * y
  {}

  lemma ScaledStrictly(a: real, b: real, y: real)
    requires a < b && y > 0.0
    ensures a * y < b * y
  {}

  lemma OneOpenPerTicker(w: World, a: nat, b: nat)
    requires Base(w) && a < |w.j.trades| && b < |w.j.trades| && w.j.trades[a].open && w.j.trades[b].open
    requires w.j.trades[a].ticker == w.j.trades[b].ticker
    ensures a == b
  {
    assert TradeLinked(w.j, a) && TradeLinked(w.j, b);
    OpenTradeIsLatest(w, a, w.j.trades[b].entryOrder);
    OpenTradeIsLatest(w, b, w.j.trades[a].entryOrder);
  }
}
