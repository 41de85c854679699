/** The order protocol as a step system: one worker's journal and memory against an untrusted broker.
    Every database commit and every network call is a step of its own, so a crash can fall between any two. */
module OrderProtocol {
  import opened Common
  import opened OrderJournal

  /** The broker's record of one bracket leg. */
  datatype RemoteLeg = RemoteLeg(filled: nat, done: bool)

  /** The broker's side of one journaled order: how often a request for it left this process, whether the
      broker took it, and what it did with it. A leg's record is kept inside its parent's. */
  datatype Remote = Remote(sends: nat, placed: bool, filled: nat, done: bool, target: RemoteLeg, stop: RemoteLeg)
  {
    function Leg(kind: LegKind): RemoteLeg { if kind.TargetLeg? then target else stop }

    function LegsFilled(): nat { target.filled + stop.filled }

    function WithLeg(kind: LegKind, leg: RemoteLeg): Remote {
      if kind.TargetLeg? then this.(target := leg) else this.(stop := leg)
    }
  }

  const UNSENT := Remote(0, false, 0, false, RemoteLeg(0, false), RemoteLeg(0, false))

  datatype Event = Opened(trade: nat) | Closed(trade: nat)

  /** Signed shares per ticker, as the broker lists them. */
  type Listing = map<Ticker, int>

  /** `sending` is the order whose request is about to leave the process; only a crash or the send clears it.
      `listing` is what the broker last listed, as long as no report was recorded since. */
  datatype World = World(
    j: Journal, remote: seq<Remote>, sending: Option<nat>, events: seq<Event>, listing: Option<Listing>)

  datatype Action =
    // the worker
    | OpenIntent(ticker: Ticker, direction: Direction, quantity: nat)
    | ExitIntent(trade: nat)
    | BeginSubmit(order: nat)
    | Send(order: nat)
    | Observe(order: nat, report: Report, emitted: bool)
    | Discover(order: nat, kinds: seq<LegKind>)
    | MarkUnresolved(order: nat)
    | CancelUnsent(order: nat)
    | FlagFlatten(order: nat)
    | NotePendingExit(trade: nat)
    | ListPositions(listing: Listing)
    | Crash
    // the broker
    | BrokerAccepts(order: nat)
    | BrokerMoves(order: nat, filled: nat, done: bool)
    | LegMoves(order: nat, kind: LegKind, filled: nat, done: bool)

  ghost predicate Shaped(w: World) {
    && |w.remote| == |w.j.orders|
    && Linked(w.j)
    && (w.sending.Some? ==> w.sending.value < |w.j.orders| && !w.j.orders[w.sending.value].IsLeg())
  }

  const INITIAL := World(Journal([], []), [], None, [], None)

  function NewRow(ticker: Ticker, purpose: Purpose, direction: Direction, quantity: nat, trade: Option<nat>): Order {
    Order(ticker, purpose, direction, PendingSubmission, quantity, 0, 0.0, trade, false, None, None, false)
  }

  /** A report is some past state of the order: fills only grow, and a terminal state is final. */
  ghost predicate Truthful(w: World, id: nat, report: Report)
    requires Shaped(w) && id < |w.j.orders|
  {
    var o := w.j.orders[id];
    assert RowLinked(w.j, id);
    var filled :=
      if o.IsLeg() then w.remote[o.parent.value.order].Leg(o.parent.value.kind).filled else w.remote[id].filled;
    var done := if o.IsLeg() then w.remote[o.parent.value.order].Leg(o.parent.value.kind).done else w.remote[id].done;
    && !report.state.PendingSubmission? && !report.state.Unresolved?
    && (!o.IsLeg() ==> w.remote[id].placed)
    && report.filled <= filled as real
    && (report.state.Terminal() ==> done && report.filled == filled as real)
  }

  /** The listing is exactly the exposure of the open trades. */
  ghost predicate Confirms(listing: Listing, trades: seq<Trade>) {
    && (forall t {:trigger Shows(listing, trades, t)} :: 0 <= t < |trades| ==> Shows(listing, trades, t))
    && (forall ticker :: ticker in listing ==> TickerOpen(trades, ticker))
  }

  /** An open trade is listed with its remaining shares. */
  predicate Shows(listing: Listing, trades: seq<Trade>, t: nat)
    requires t < |trades|
  {
    var trade := trades[t];
    trade.open ==> trade.ticker in listing && listing[trade.ticker] == trade.direction.Signed(trade.remaining)
  }

  /** What the worker checks, and what the broker promises, before a step. */
  ghost predicate Enabled(w: World, a: Action)
    requires Shaped(w)
  {
    var j := w.j;
    match a
    case OpenIntent(ticker, _, quantity) =>
      w.sending.None? && quantity > 0 && !TickerOpen(j.trades, ticker) && TickerSettled(j.orders, ticker)
    case ExitIntent(t) =>
      && w.sending.None? && t < |j.trades| && j.trades[t].open
      && TickerSettled(j.orders, j.trades[t].ticker) && BothLegsKnown(j.orders, j.trades[t].entryOrder)
      && w.listing.Some? && Confirms(w.listing.value, j.trades)
    case BeginSubmit(i) => w.sending.None? && i < |j.orders| && j.orders[i].state.PendingSubmission?
    case Send(i) => w.sending == Some(i)
    case Observe(i, report, _) =>
      w.sending.None? && i < |j.orders| && Truthful(w, i, report) && ApplyReport(j, i, report).Ok?
    case Discover(i, _) => w.sending.None? && i < |j.orders| && j.orders[i].IsEntry()
    case MarkUnresolved(i) => w.sending.None? && i < |j.orders|
    case CancelUnsent(i) => w.sending.None? && i < |j.orders| && j.orders[i].state.PendingSubmission?
    case FlagFlatten(i) => w.sending.None? && i < |j.orders|
    case NotePendingExit(t) => w.sending.None? && t < |j.trades|
    case ListPositions(_) => w.sending.None?
    case Crash => true
    case BrokerAccepts(i) => i < |j.orders| && !j.orders[i].IsLeg() && w.remote[i].sends > 0 && !w.remote[i].placed
    case BrokerMoves(i, filled, _) =>
      && i < |j.orders| && !j.orders[i].IsLeg() && w.remote[i].placed && !w.remote[i].done
      && w.remote[i].filled <= filled <= j.orders[i].requested
    case LegMoves(i, kind, filled, done) =>
      && i < |j.orders| && j.orders[i].IsEntry() && w.remote[i].placed && !w.remote[i].Leg(kind).done
      && w.remote[i].Leg(kind).filled <= filled
      && w.remote[i].WithLeg(kind, RemoteLeg(filled, done)).LegsFilled() <= w.remote[i].filled
  }

  /** The notification one recorded report gives rise to. */
  function EventOf(before: Journal, after: Journal, id: nat): seq<Event>
    requires id < |before.orders| && id < |after.orders|
  {
    var o, o' := before.orders[id], after.orders[id];
    if o'.applied <= o.applied || o'.tradeId.None? then []
    else if o.IsEntry() then (if o.applied == 0 then [Opened(o'.tradeId.value)] else [])
    else if o'.tradeId.value < |after.trades| && after.trades[o'.tradeId.value].remaining == 0
    then [Closed(o'.tradeId.value)]
    else []
  }

  function AppendRow(w: World, o: Order): World {
    w.(j := w.j.(orders := w.j.orders + [o]), remote := w.remote + [UNSENT])
  }

  function DiscoverOne(w: World, id: nat, kind: LegKind): World
    requires id < |w.j.orders|
  {
    var orders := RegisterLeg(w.j.orders, id, kind);
    w.(j := w.j.(orders := orders), remote := w.remote + if |orders| == |w.j.orders| then [] else [UNSENT])
  }

  function DiscoverAll(w: World, id: nat, kinds: seq<LegKind>): (w': World)
    requires id < |w.j.orders|
    ensures |w.j.orders| <= |w'.j.orders|
  {
    if kinds == [] then w else DiscoverOne(DiscoverAll(w, id, kinds[..|kinds| - 1]), id, kinds[|kinds| - 1])
  }

  function SetRow(w: World, id: nat, o: Order): World
    requires id < |w.j.orders|
  {
    w.(j := w.j.(orders := w.j.orders[id := o]))
  }

  function SetRemote(w: World, id: nat, r: Remote): World
    requires id < |w.remote|
  {
    w.(remote := w.remote[id := r])
  }

  ghost function Do(w: World, a: Action): World
    requires Shaped(w) && Enabled(w, a)
  {
    var j := w.j;
    match a
    case OpenIntent(ticker, direction, quantity) => AppendRow(w, NewRow(ticker, Entry, direction, quantity, None))
    case ExitIntent(t) =>
      AppendRow(w, NewRow(j.trades[t].ticker, Exit, j.trades[t].direction, j.trades[t].remaining, Some(t)))
    case BeginSubmit(i) => SetRow(w, i, j.orders[i].(state := Unresolved)).(sending := Some(i))
    case Send(i) => SetRemote(w, i, w.remote[i].(sends := w.remote[i].sends + 1)).(sending := None)
    case Observe(i, report, emitted) =>
      var j' := ApplyReport(j, i, report).value;
      w.(j := j', events := w.events + if emitted then EventOf(j, j', i) else [], listing := None)
    case Discover(i, kinds) => DiscoverAll(w, i, kinds)
    case MarkUnresolved(i) => SetRow(w, i, j.orders[i].(state := Unresolved))
    case CancelUnsent(i) => SetRow(w, i, j.orders[i].(state := Canceled)).(listing := None)
    case FlagFlatten(i) => SetRow(w, i, j.orders[i].(flatten := true))
    case NotePendingExit(t) => w.(j := j.(trades := j.trades[t := j.trades[t].(pendingExit := true)]))
    case ListPositions(listing) => w.(listing := Some(listing))
    case Crash => w.(sending := None, listing := None)
    case BrokerAccepts(i) => SetRemote(w, i, w.remote[i].(placed := true))
    case BrokerMoves(i, filled, done) => SetRemote(w, i, w.remote[i].(filled := filled, done := done))
    case LegMoves(i, kind, filled, done) => SetRemote(w, i, w.remote[i].WithLeg(kind, RemoteLeg(filled, done)))
  }

  // --- every step keeps the tables well formed ---

  lemma RowTouchKeepsLinks(j: Journal, i: nat, state: OrderState, flatten: bool)
    requires Linked(j) && i < |j.orders|
    requires j.orders[i].IsLeg() ==> !state.PendingSubmission?
    ensures Linked(j.(orders := j.orders[i := j.orders[i].(state := state, flatten := flatten)]))
  {
    assert RowLinked(j, i);
    if j.orders[i].tradeId.Some? { assert TradeLinked(j, j.orders[i].tradeId.value); }
    ReplaceKeepsLinks(j, i, j.orders[i].(state := state, flatten := flatten), j.trades);
  }

  lemma AppendKeepsLinks(j: Journal, o: Order)
    requires Linked(j) && o.applied == 0 && !o.IsLeg()
    requires o.IsEntry() ==> o.tradeId.None?
    requires o.IsMarketExit() ==>
      o.tradeId.Some? && o.tradeId.value < |j.trades| && j.trades[o.tradeId.value].ticker == o.ticker
      && j.trades[o.tradeId.value].direction == o.direction
    ensures Linked(j.(orders := j.orders + [o]))
  {
    var j' := j.(orders := j.orders + [o]);
    forall i | 0 <= i < |j'.orders| ensures RowLinked(j', i) {
      if i < |j.orders| { assert RowLinked(j, i); }
      else if o.tradeId.Some? { assert TradeLinked(j, o.tradeId.value); }
    }
    forall t | 0 <= t < |j'.trades| ensures TradeLinked(j', t) {
      assert TradeLinked(j, t);
    }
  }

  lemma DiscoverOneShaped(w: World, id: nat, kind: LegKind)
    requires Shaped(w) && id < |w.j.orders| && w.j.orders[id].IsEntry()
    ensures Shaped(DiscoverOne(w, id, kind))
    ensures DiscoverOne(w, id, kind).j.orders[id] == w.j.orders[id]
  {
    RegisterLegKeepsLinks(w.j, id, kind);
    if w.sending.Some? { assert RowLinked(w.j, w.sending.value); }
  }

  lemma {:induction false} DiscoverAllShaped(w: World, id: nat, kinds: seq<LegKind>)
    requires Shaped(w) && id < |w.j.orders| && w.j.orders[id].IsEntry()
    ensures Shaped(DiscoverAll(w, id, kinds))
    ensures DiscoverAll(w, id, kinds).j.orders[id] == w.j.orders[id]
  {
    if kinds == [] {
    } else {
      DiscoverAllShaped(w, id, kinds[..|kinds| - 1]);
      DiscoverOneShaped(DiscoverAll(w, id, kinds[..|kinds| - 1]), id, kinds[|kinds| - 1]);
    }
  }

  lemma StepShaped(w: World, a: Action)
    requires Shaped(w) && Enabled(w, a)
    ensures Shaped(Do(w, a))
  {
    var j := w.j;
    match a
    case OpenIntent(ticker, direction, quantity) =>
      AppendKeepsLinks(j, NewRow(ticker, Entry, direction, quantity, None));
    case ExitIntent(t) =>
      AppendKeepsLinks(j, NewRow(j.trades[t].ticker, Exit, j.trades[t].direction, j.trades[t].remaining, Some(t)));
    case BeginSubmit(i) => RowTouchKeepsLinks(j, i, Unresolved, j.orders[i].flatten); assert RowLinked(j, i);
    case Observe(i, report, _) => ApplyReportKeepsLinks(j, i, report);
    case Discover(i, kinds) => DiscoverAllShaped(w, i, kinds);
    case MarkUnresolved(i) => RowTouchKeepsLinks(j, i, Unresolved, j.orders[i].flatten);
    case CancelUnsent(i) => RowTouchKeepsLinks(j, i, Canceled, j.orders[i].flatten);
    case FlagFlatten(i) => assert RowLinked(j, i); RowTouchKeepsLinks(j, i, j.orders[i].state, true);
    case NotePendingExit(t) => NotePendingKeepsLinks(j, t);
    case Send(_) =>
    case ListPositions(_) =>
    case Crash =>
    case BrokerAccepts(_) =>
    case BrokerMoves(_, _, _) =>
    case LegMoves(_, _, _, _) =>
  }

  lemma NotePendingKeepsLinks(j: Journal, t: nat)
    requires Linked(j) && t < |j.trades|
    ensures Linked(j.(trades := j.trades[t := j.trades[t].(pendingExit := true)]))
  {
    var j' := j.(trades := j.trades[t := j.trades[t].(pendingExit := true)]);
    forall i | 0 <= i < |j'.orders| ensures RowLinked(j', i) { assert RowLinked(j, i); }
    forall t | 0 <= t < |j'.trades| ensures TradeLinked(j', t) { assert TradeLinked(j, t); }
  }

  // --- runs ---

  /** A run from `w`: every step is enabled where it is taken. */
  ghost predicate IsRun(w: World, run: seq<Action>)
    requires Shaped(w)
    decreases |run|, 0
  {
    run == [] || (
      var front := run[..|run| - 1];
      IsRun(w, front) && Shaped(After(w, front)) && Enabled(After(w, front), run[|run| - 1]))
  }

  /** The state a run leads to. */
  ghost function After(w: World, run: seq<Action>): World
    requires Shaped(w) && IsRun(w, run)
    decreases |run|, 1
  {
    if run == [] then w else Do(After(w, run[..|run| - 1]), run[|run| - 1])
  }

  lemma {:induction false} RunShaped(w: World, run: seq<Action>)
    requires Shaped(w) && IsRun(w, run)
    ensures Shaped(After(w, run))
    decreases |run|
  {
    if run == [] {
    } else {
      RunShaped(w, run[..|run| - 1]);
      StepShaped(After(w, run[..|run| - 1]), run[|run| - 1]);
    }
  }

  lemma RunExtends(w: World, run: seq<Action>, a: Action)
    requires Shaped(w) && IsRun(w, run) && Shaped(After(w, run)) && Enabled(After(w, run), a)
    ensures IsRun(w, run + [a]) && After(w, run + [a]) == Do(After(w, run), a)
    ensures Shaped(After(w, run + [a]))
  {
    assert (run + [a])[..|run|] == run;
    StepShaped(After(w, run), a);
  }
}
