/** What the worker says to the broker, what it hears back, and what the journal makes of it. The worker's journal is
    a function of the conversation; which requests a reconciliation makes is a function of the journal. */
module BrokerTalk {
  import opened Common
  import opened OrderJournal
  import opened OrderProtocol

  /** One bracket leg nested in the broker's answer about its parent; None is an unexpected leg type. */
  datatype LegAnswer = LegAnswer(kind: Option<LegKind>, report: Report)

  datatype Answer = Answer(report: Report, legs: seq<LegAnswer>)

  /** One exchange with the broker, or the decision not to have it. An answer of None is lost or refused. */
  datatype Deed =
    | Asked(order: nat, answer: Option<Answer>)
    | Sent(order: nat, answer: Option<Answer>)
    | Withdrew(order: nat)                            // a request that was never sent is cancelled locally
    | CancelAsked(order: nat, acknowledged: bool)
    | Unidentified(order: nat)                        // nothing to cancel by: the broker's id is not known yet
    | Listed(positions: Option<Listing>)
    | Valued(equity: Option<real>)

  /** The part of the worker's state a conversation changes. */
  datatype Told = Told(j: Journal, events: seq<Event>, blocked: bool)

  // --- what is made of an answer ---

  /** One broker report recorded; None if it is refused. */
  ghost function Reported(t: Told, id: nat, report: Report): Option<Told> {
    if id < |t.j.orders| && Linked(t.j) && ApplyReport(t.j, id, report).Ok? then
      var j' := ApplyReport(t.j, id, report).value;
      if id < |j'.orders| then Some(t.(j := j', events := t.events + EventOf(t.j, j', id))) else None
    else None
  }

  function SetState(j: Journal, id: nat, state: OrderState): Journal {
    if id < |j.orders| then j.(orders := j.orders[id := j.orders[id].(state := state)]) else j
  }

  /** The order becomes unresolved and the worker is blocked. */
  function GaveUp(t: Told, id: nat): Told { t.(j := SetState(t.j, id, Unresolved), blocked := true) }

  predicate AllExpected(legs: seq<LegAnswer>) { forall k :: 0 <= k < |legs| ==> legs[k].kind.Some? }

  /** Every nested leg of entry `id` has a row. */
  function Registered(orders: seq<Order>, id: nat, legs: seq<LegAnswer>): (r: seq<Order>)
    requires id < |orders|
    ensures |orders| <= |r|
  {
    if legs == [] then orders
    else
      var front, last := Registered(orders, id, legs[..|legs| - 1]), legs[|legs| - 1];
      if last.kind.None? then front else RegisterLeg(front, id, last.kind.value)
  }

  /** The reports about the legs recorded in order, up to the first that is refused. */
  ghost function LegReports(t: Told, id: nat, legs: seq<LegAnswer>): (Told, bool) {
    if legs == [] then (t, true)
    else
      var (front, ok) := LegReports(t, id, legs[..|legs| - 1]);
      if !ok then (front, false) else LegReport(front, id, legs[|legs| - 1])
  }

  ghost function LegReport(t: Told, id: nat, leg: LegAnswer): (Told, bool) {
    if leg.kind.None? || FindLeg(t.j.orders, Parent(id, leg.kind.value)).None? then (t, false)
    else
      var next := Reported(t, FindLeg(t.j.orders, Parent(id, leg.kind.value)).value, leg.report);
      if next.None? then (t, false) else (next.value, true)
  }

  /** All legs get their rows or, on an unexpected type, none; then their reports are recorded. */
  ghost function WithLegs(t: Told, id: nat, legs: seq<LegAnswer>): (Told, bool)
    requires id < |t.j.orders|
  {
    if !AllExpected(legs) then (t, false)
    else LegReports(t.(j := t.j.(orders := Registered(t.j.orders, id, legs))), id, legs)
  }

  ghost function Answered(t: Told, id: nat, answer: Answer): (Told, bool) {
    var next := Reported(t, id, answer.report);
    if next.None? then (t, false)
    else if id < |next.value.j.orders| && next.value.j.orders[id].IsEntry() then WithLegs(next.value, id, answer.legs)
    else (next.value, true)
  }

  /** An answer is recorded, legs included; whatever cannot be recorded leaves the order unresolved. */
  ghost function Digested(t: Told, id: nat, answer: Option<Answer>): Told {
    if answer.None? then GaveUp(t, id)
    else
      var (next, ok) := Answered(t, id, answer.value);
      if ok then next else GaveUp(next, id)
  }

  ghost function Hear(t: Told, d: Deed): Told {
    match d
    case Asked(id, answer) => Digested(t, id, answer)
    case Sent(id, answer) => Digested(t.(j := SetState(t.j, id, Unresolved)), id, answer)
    case Withdrew(id) => t.(j := SetState(t.j, id, Canceled))
    case CancelAsked(id, acknowledged) => if acknowledged then t else GaveUp(t, id)
    case Unidentified(_) => t.(blocked := true)
    case Listed(_) => t
    case Valued(_) => t
  }

  ghost function HearAll(t: Told, talk: seq<Deed>): Told {
    if talk == [] then t else Hear(HearAll(t, talk[..|talk| - 1]), talk[|talk| - 1])
  }

  lemma {:induction false} HearBoth(t: Told, a: seq<Deed>, b: seq<Deed>)
    ensures HearAll(t, a + b) == HearAll(HearAll(t, a), b)
  {
    if b == [] {
      assert a + b == a;
    } else {
      assert (a + b)[..|a + b| - 1] == a + b[..|b| - 1];
      HearBoth(t, a, b[..|b| - 1]);
    }
  }

  /** One more report: recorded, or the end. */
  lemma NextReport(t: Told, id: nat, legs: seq<LegAnswer>, k: nat, was: Told, now: Told, ok: bool)
    requires k < |legs| && LegReports(t, id, legs[..k]) == (was, true) && LegReport(was, id, legs[k]) == (now, ok)
    ensures LegReports(t, id, legs[..k + 1]) == (now, ok)
    ensures !ok ==> LegReports(t, id, legs) == (now, false)
  {
    assert legs[..k + 1][..k] == legs[..k] && legs[..k + 1][k] == legs[k];
    if !ok { FailureStays(t, id, legs, k + 1); }
  }

  lemma {:induction false} FailureStays(t: Told, id: nat, legs: seq<LegAnswer>, k: nat)
    requires k <= |legs| && !LegReports(t, id, legs[..k]).1
    ensures LegReports(t, id, legs) == LegReports(t, id, legs[..k])
  {
    if k == |legs| {
      assert legs[..k] == legs;
    } else {
      assert legs[..|legs| - 1][..k] == legs[..k];
      FailureStays(t, id, legs[..|legs| - 1], k);
    }
  }

  // --- which requests are made ---

  /** A deed without what came back. */
  datatype Task =
    | ToAsk(order: nat) | ToSend(order: nat) | ToWithdraw(order: nat) | ToCancel(order: nat) | ToNote(order: nat)
    | ToList | ToValue

  function TaskOf(d: Deed): Task {
    match d
    case Asked(id, _) => ToAsk(id)
    case Sent(id, _) => ToSend(id)
    case Withdrew(id) => ToWithdraw(id)
    case CancelAsked(id, _) => ToCancel(id)
    case Unidentified(id) => ToNote(id)
    case Listed(_) => ToList
    case Valued(_) => ToValue
  }

  function Tasks(talk: seq<Deed>): (r: seq<Task>)
    ensures |r| == |talk| && forall i :: 0 <= i < |r| ==> r[i] == TaskOf(talk[i])
  {
    seq(|talk|, i requires 0 <= i < |talk| => TaskOf(talk[i]))
  }

  /** From `before` to `now` the given requests were made, and the state is what was heard. */
  ghost predicate Spoke(t: Told, before: seq<Deed>, t': Told, now: seq<Deed>, tasks: seq<Task>) {
    && |before| <= |now| && now[..|before|] == before
    && Tasks(now[|before|..]) == tasks && t' == HearAll(t, now[|before|..])
  }

  lemma SpokeNothing(t: Told, deeds: seq<Deed>)
    ensures Spoke(t, deeds, t, deeds, [])
  {
    assert deeds[|deeds|..] == [];
  }

  lemma SpokeOnce(t: Told, deeds: seq<Deed>, d: Deed)
    ensures Spoke(t, deeds, Hear(t, d), deeds + [d], [TaskOf(d)])
  {
    var talk := (deeds + [d])[|deeds|..];
    assert talk == [d] && talk[..0] == [];
    assert HearAll(t, talk[..0]) == t;
  }

  lemma SpokeThen(t: Told, a: seq<Deed>, t1: Told, b: seq<Deed>, t2: Told, c: seq<Deed>, first: seq<Task>,
                  second: seq<Task>)
    requires Spoke(t, a, t1, b, first) && Spoke(t1, b, t2, c, second)
    ensures Spoke(t, a, t2, c, first + second)
  {
    Slices(a, b, c);
    TasksBoth(b[|a|..], c[|b|..]);
    HearBoth(t, b[|a|..], c[|b|..]);
  }

  lemma Slices<T>(a: seq<T>, b: seq<T>, c: seq<T>)
    requires |a| <= |b| <= |c| && b[..|a|] == a && c[..|b|] == b
    ensures c[|a|..] == b[|a|..] + c[|b|..] && c[..|a|] == a
    ensures b == a + b[|a|..] && c == b + c[|b|..]
  {
    assert c[..|a|] == c[..|b|][..|a|];
  }

  lemma TasksBoth(x: seq<Deed>, y: seq<Deed>)
    ensures Tasks(x + y) == Tasks(x) + Tasks(y)
  {}

  /** The two parts of a conversation in two stages. */
  lemma Parts(t: Told, a: seq<Deed>, t1: Told, b: seq<Deed>, t2: Told, c: seq<Deed>, first: seq<Task>,
              second: seq<Task>)
    returns (x: seq<Deed>, y: seq<Deed>)
    requires Spoke(t, a, t1, b, first) && Spoke(t1, b, t2, c, second)
    ensures c == a + x + y && Tasks(x) == first && Tasks(y) == second
    ensures t1 == HearAll(t, x) && t2 == HearAll(t1, y)
  {
    x, y := b[|a|..], c[|b|..];
    Slices(a, b, c);
  }

  /** Number of journaled legs of entry `id`. */
  function CountLegs(orders: seq<Order>, id: nat): nat {
    if orders == [] then 0
    else
      var last := orders[|orders| - 1];
      CountLegs(orders[..|orders| - 1], id) + if last.IsLeg() && last.parent.value.order == id then 1 else 0
  }

  function Known(orders: seq<Order>, id: nat, kind: LegKind): nat {
    if FindLeg(orders, Parent(id, kind)).Some? then 1 else 0
  }

  /** Leg identities are distinct, so counting two legs is knowing both. */
  lemma {:induction false} TwoLegsAreBoth(orders: seq<Order>, id: nat)
    requires forall a, b :: 0 <= a < b < |orders| && orders[a].IsLeg() ==> orders[a].parent != orders[b].parent
    ensures CountLegs(orders, id) == Known(orders, id, TargetLeg) + Known(orders, id, StopLeg)
  {
    if orders == [] {
    } else {
      var front, last := orders[..|orders| - 1], orders[|orders| - 1];
      TwoLegsAreBoth(front, id);
      if last.IsLeg() && last.parent.value.order == id {
        var kind := last.parent.value.kind;
        var other := if kind.TargetLeg? then StopLeg else TargetLeg;
        assert last.parent == Some(Parent(id, kind));
        assert Known(front, id, kind) == 0 && Known(orders, id, kind) == 1;
        assert Known(orders, id, other) == Known(front, id, other);
      }
    }
  }

  predicate NeedsBrokerSync(row: Order, knownLegs: nat) {
    !row.state.Terminal() || (row.IsEntry() && knownLegs != 2 && row.applied > 0)
  }

  function SyncTask(row: Order, id: nat, knownLegs: nat): seq<Task> {
    if !NeedsBrokerSync(row, knownLegs) then []
    else if !row.state.PendingSubmission? then [ToAsk(id)]
    else if row.IsEntry() && row.flatten then [ToWithdraw(id)]
    else [ToSend(id)]
  }

  /** The requests that bring the first `n` orders up to date, in table order. */
  function SyncTasks(orders: seq<Order>, n: nat): seq<Task>
    requires n <= |orders|
  {
    if n == 0 then [] else SyncTasks(orders, n - 1) + SyncTask(orders[n - 1], n - 1, CountLegs(orders, n - 1))
  }

  lemma InEither<T>(a: seq<T>, b: seq<T>, x: T)
    ensures x in a + b <==> x in a || x in b
  {}

  lemma SyncNamesRow(row: Order, id: nat, knownLegs: nat, task: Task)
    ensures task in SyncTask(row, id, knownLegs) ==>
      (task.ToAsk? || task.ToSend? || task.ToWithdraw?) && task.order == id
  {}

  /** A request of the sweep concerns a row of the table and is the one that row needs. */
  lemma {:induction false} TaskOfRow(orders: seq<Order>, n: nat, task: Task)
    requires n <= |orders|
    ensures task in SyncTasks(orders, n) <==>
      && (task.ToAsk? || task.ToSend? || task.ToWithdraw?) && task.order < n
      && task in SyncTask(orders[task.order], task.order, CountLegs(orders, task.order))
  {
    if n == 0 {
    } else {
      TaskOfRow(orders, n - 1, task);
      SyncNamesRow(orders[n - 1], n - 1, CountLegs(orders, n - 1), task);
      hide SyncTask, CountLegs;
      InEither(SyncTasks(orders, n - 1), SyncTask(orders[n - 1], n - 1, CountLegs(orders, n - 1)), task);
    }
  }

  predicate LegMissing(orders: seq<Order>, id: nat, kind: LegKind) {
    forall i :: 0 <= i < |orders| ==> orders[i].parent != Some(Parent(id, kind))
  }

  /** What a reconciliation does about an order, exactly: an unfinished one is looked up, or sent or withdrawn if it
      was never sent; of the finished ones only a filled entry with a leg unknown is looked up again. */
  lemma SyncsExactly(j: Journal, i: nat)
    requires Linked(j) && i < |j.orders|
    ensures var o, tasks := j.orders[i], SyncTasks(j.orders, |j.orders|);
      var finished := o.state in {Filled, Canceled, Rejected, OrderState.Expired};
      && (ToSend(i) in tasks <==> o.state == PendingSubmission && !(o.purpose == Entry && o.flatten))
      && (ToWithdraw(i) in tasks <==> o.state == PendingSubmission && o.purpose == Entry && o.flatten)
      && (ToAsk(i) in tasks <==>
        if finished then
          && o.purpose == Entry && o.applied > 0
          && (LegMissing(j.orders, i, TargetLeg) || LegMissing(j.orders, i, StopLeg))
        else o.state != PendingSubmission)
  {
    TwoLegsAreBoth(j.orders, i);
    TaskOfRow(j.orders, |j.orders|, ToSend(i));
    TaskOfRow(j.orders, |j.orders|, ToWithdraw(i));
    TaskOfRow(j.orders, |j.orders|, ToAsk(i));
  }

  /** The order is a flagged entry or a leg of one. */
  predicate IsFlattening(orders: seq<Order>, row: Order) {
    if row.IsLeg() then
      row.parent.value.order < |orders| && orders[row.parent.value.order].IsEntry()
        && orders[row.parent.value.order].flatten
    else row.IsEntry() && row.flatten
  }

  function CancelTask(orders: seq<Order>, row: Order, id: nat): seq<Task> {
    if row.state.Terminal() || !IsFlattening(orders, row) then []
    else if !row.brokerKnown then [ToNote(id)]
    else [ToCancel(id)]
  }

  /** The cancel requests for entries that are to be flattened and their legs, among the first `n` orders. */
  function CancelTasks(orders: seq<Order>, n: nat): seq<Task>
    requires n <= |orders|
  {
    if n == 0 then [] else CancelTasks(orders, n - 1) + CancelTask(orders, orders[n - 1], n - 1)
  }

  lemma CancelNamesRow(orders: seq<Order>, row: Order, id: nat, task: Task)
    ensures task in CancelTask(orders, row, id) ==> (task.ToCancel? || task.ToNote?) && task.order == id
  {}

  lemma {:induction false} CancelOfRow(orders: seq<Order>, n: nat, task: Task)
    requires n <= |orders|
    ensures task in CancelTasks(orders, n) <==>
      && (task.ToCancel? || task.ToNote?) && task.order < n
      && task in CancelTask(orders, orders[task.order], task.order)
  {
    if n == 0 {
    } else {
      CancelOfRow(orders, n - 1, task);
      CancelNamesRow(orders, orders[n - 1], n - 1, task);
      hide CancelTask;
      InEither(CancelTasks(orders, n - 1), CancelTask(orders, orders[n - 1], n - 1), task);
    }
  }

  /** Which orders are asked to cancel, exactly: unfinished flagged entries and unfinished legs of flagged entries,
      if the broker's id for them is known. */
  lemma CancelsExactly(j: Journal, i: nat)
    requires Linked(j) && i < |j.orders|
    ensures var o, tasks := j.orders[i], CancelTasks(j.orders, |j.orders|);
      var due := o.state !in {Filled, Canceled, Rejected, OrderState.Expired}
        && ((o.purpose == Entry && o.flatten)
            || (o.parent.Some? && o.parent.value.order < |j.orders| && j.orders[o.parent.value.order].flatten));
      && (ToCancel(i) in tasks <==> due && o.brokerKnown)
      && (ToNote(i) in tasks <==> due && !o.brokerKnown)
  {
    assert RowLinked(j, i);
    CancelOfRow(j.orders, |j.orders|, ToCancel(i));
    CancelOfRow(j.orders, |j.orders|, ToNote(i));
  }

  // --- what reconciliation concludes ---

  /** An entry of `open_positions`: the trade row as last loaded, and whether it is wished to leave. */
  datatype Position = Position(id: nat, row: Trade, leaving: bool)

  /** Memory holds exactly the open rows of the trades table, one per ticker. */
  ghost predicate Mirrors(positions: map<Ticker, Position>, trades: seq<Trade>) {
    && (forall ticker :: ticker in positions ==>
      var p := positions[ticker];
      p.id < |trades| && trades[p.id] == p.row && p.row.open && p.row.ticker == ticker)
    && (forall t :: 0 <= t < |trades| && trades[t].open ==>
      trades[t].ticker in positions && positions[trades[t].ticker].id == t)
  }

  /** Signed shares memory expects at the broker. */
  ghost function Exposure(positions: map<Ticker, Position>): Listing {
    map ticker | ticker in positions :: positions[ticker].row.direction.Signed(positions[ticker].row.remaining)
  }

  /** A finished order, or a bracket leg that rests at the broker: reconciliation may end with these. */
  ghost predicate SettledOrResting(row: Order) {
    || row.state in {Filled, Canceled, Rejected, OrderState.Expired}
    || (row.parent.Some? && row.state in {New, Accepted, Held, PartiallyFilled})
  }

  ghost predicate AllSettledOrResting(orders: seq<Order>) {
    forall i :: 0 <= i < |orders| ==> SettledOrResting(orders[i])
  }

  /** Order `i` is an unfinished leg of trade `t`. */
  ghost predicate LiveLeg(j: Journal, t: nat, kind: LegKind, i: nat)
    requires t < |j.trades| && i < |j.orders|
  {
    && j.orders[i].parent == Some(Parent(j.trades[t].entryOrder, kind)) && j.orders[i].tradeId == Some(t)
    && j.orders[i].state !in {Filled, Canceled, Rejected, OrderState.Expired}
  }

  /** The leg has exactly the remaining shares of the trade left to sell. */
  ghost predicate Covers(row: Order, trade: Trade) {
    row.protectiveQty == Some(row.applied + trade.remaining)
  }

  /** A leg of the kind still protects all that remains of trade `t`. */
  ghost predicate Shielded(j: Journal, t: nat, kind: LegKind)
    requires t < |j.trades|
  {
    exists i {:trigger LiveLeg(j, t, kind, i)} ::
      0 <= i < |j.orders| && LiveLeg(j, t, kind, i) && Covers(j.orders[i], j.trades[t])
  }

  /** The entry of trade `t` is filled, and a target and a stop each protect all that remains of it. */
  ghost predicate Guarded(j: Journal, t: nat)
    requires t < |j.trades|
  {
    && j.trades[t].entryOrder < |j.orders| && j.orders[j.trades[t].entryOrder].state == Filled
    && Shielded(j, t, TargetLeg) && Shielded(j, t, StopLeg)
  }

  ghost predicate AllGuarded(j: Journal) {
    forall t :: 0 <= t < |j.trades| && j.trades[t].open ==> Guarded(j, t)
  }

  /** What a reconciliation ends with. */
  datatype Verdict = Verdict(safe: bool, capital: real)

  /** The conversation of one reconciliation; the account is asked only if the listing came. */
  datatype Round = Round(sync: seq<Deed>, cancels: seq<Deed>, listed: Option<Listing>, equity: Option<real>)
  {
    function Said(): seq<Deed> { sync + cancels + Closing(listed, equity) }
  }

  function Closing(listed: Option<Listing>, equity: Option<real>): seq<Deed> {
    if listed.Some? then [Listed(listed), Valued(equity)] else [Listed(listed)]
  }

  /** What a process knows after a reconciliation. */
  datatype Sight = Sight(told: Told, positions: map<Ticker, Position>, verdict: Verdict, round: Round)

  /** A listing of positions and, if it came, a valuation conclude a conversation that led to `heard`. */
  ghost predicate Concludes(heard: Told, positions: map<Ticker, Position>, listed: Option<Listing>,
                            equity: Option<real>, capital: real, end: Told, verdict: Verdict)
  {
    && end.j == heard.j && end.events == heard.events
    && (verdict.safe <==>
      !heard.blocked && listed == Some(Exposure(positions)) && AllSettledOrResting(heard.j.orders) && equity.Some?)
    && (end.blocked <==> !(verdict.safe && AllGuarded(heard.j)))
    && verdict.capital == if listed.Some? && equity.Some? then equity.value else capital
  }

  /** One reconciliation from `start`: every order is brought up to date, flagged entries are asked to cancel, and
      the outcome is compared with what the broker lists. */
  ghost predicate Reconciled(start: Told, capital: real, seen: Sight) {
    var mid := HearAll(start, seen.round.sync);
    && Tasks(seen.round.sync) == SyncTasks(start.j.orders, |start.j.orders|)
    && Tasks(seen.round.cancels) == CancelTasks(mid.j.orders, |mid.j.orders|)
    && (seen.round.listed.None? ==> seen.round.equity.None?)
    && Mirrors(seen.positions, seen.told.j.trades)
    && Concludes(HearAll(mid, seen.round.cancels), seen.positions, seen.round.listed, seen.round.equity, capital,
                 seen.told, seen.verdict)
  }

  lemma IsReconciled(start: Told, capital: real, mid: Told, heard: Told, seen: Sight)
    requires mid == HearAll(start, seen.round.sync) && heard == HearAll(mid, seen.round.cancels)
    requires Tasks(seen.round.sync) == SyncTasks(start.j.orders, |start.j.orders|)
    requires Tasks(seen.round.cancels) == CancelTasks(mid.j.orders, |mid.j.orders|)
    requires (seen.round.listed.None? ==> seen.round.equity.None?) && Mirrors(seen.positions, seen.told.j.trades)
    requires Concludes(heard, seen.positions, seen.round.listed, seen.round.equity, capital, seen.told, seen.verdict)
    ensures Reconciled(start, capital, seen)
  {}

  /** When the worker may trade after a reconciliation: nothing went wrong in the conversation, the account answered,
      the broker lists the remaining shares of every open trade and no other ticker, every order is finished or a
      resting leg, and every open trade has its entry filled, a live target leg and a live stop leg, each for exactly
      the shares that remain. */
  lemma UnblockedExactly(start: Told, capital: real, seen: Sight)
    requires Reconciled(start, capital, seen)
    ensures var j := seen.told.j;
      !seen.told.blocked <==>
        && !HearAll(HearAll(start, seen.round.sync), seen.round.cancels).blocked && seen.round.equity.Some?
        && seen.round.listed.Some? && Confirms(seen.round.listed.value, j.trades)
        && (forall i :: 0 <= i < |j.orders| ==> SettledOrResting(j.orders[i]))
        && forall t :: 0 <= t < |j.trades| && j.trades[t].open ==> Guarded(j, t)
  {
    if seen.round.listed.Some? { ConfirmsExposure(seen.positions, seen.told.j.trades, seen.round.listed.value); }
  }

  /** A listing confirms the open trades exactly if it is the expected exposure. */
  lemma ConfirmsExposure(positions: map<Ticker, Position>, trades: seq<Trade>, listing: Listing)
    requires Mirrors(positions, trades)
    ensures listing == Exposure(positions) <==> Confirms(listing, trades)
  {
    if listing == Exposure(positions) {
      forall t | 0 <= t < |trades| ensures Shows(listing, trades, t) {}
      forall ticker | ticker in listing ensures TickerOpen(trades, ticker) {
        assert trades[positions[ticker].id].open;
      }
    }
    if Confirms(listing, trades) {
      forall ticker | ticker in positions
        ensures ticker in listing && listing[ticker] == Exposure(positions)[ticker] {
        assert Shows(listing, trades, positions[ticker].id);
      }
      forall ticker | ticker in listing ensures ticker in positions { assert TickerOpen(trades, ticker); }
      assert listing.Keys == positions.Keys;
    }
  }
}
