/** What one batch of completed bars does to the local portfolio, as values: turns at the open, exits, proposals. */
module BatchRules {
  import opened Common
  import opened PaperBroker

  /** A candidate entry waiting for the next open. */
  datatype Pending = Pending(signal: Signal, decisionAt: int)

  /** What the signal pipeline proposes for a symbol: arbitrary input to the batch. */
  datatype Candidate = Candidate(signal: Signal, skip: bool, gateAccepts: bool)

  /** The configuration a batch runs under. `session` gives the bounds of the session that contains a time. */
  datatype Rules = Rules(session: int -> Option<(int, int)>, flatten: bool, pct: real, policy: FillPolicy)
  {
    predicate InRegularHours(t: int) {
      session(t).Some? && session(t).value.0 <= t < session(t).value.1
    }

    predicate FlattenDue(t: int) {
      session(t).Some? && session(t).value.1 - 5 <= t < session(t).value.1
    }

    predicate Executable(ts: int) { session(ts).Some? && ts + 5 < session(ts).value.1 }

    /** A candidate may fill at the open that follows its decision directly, within the session day. */
    predicate OnTime(p: Pending, ts: int) {
      && p.decisionAt / 1440 == ts / 1440 && 0 <= ts - p.decisionAt <= 5
      && !(flatten && session(ts).Some? && ts + 5 >= session(ts).value.1 - 5)
    }

    /** Too close to the session's end to propose entries. */
    predicate TooLate(ts: int) {
      flatten && session(ts).Some? && ts + 5 >= session(ts).value.1 - 10
    }

    /** How a position leaves at a bar, and at what price: a protective level first, then a due flatten at the close. */
    function ExitOf(p: Position, bar: Bar, ts: int): Option<(ExitReason, real)> {
      var trigger := CheckExit(p, bar);
      if trigger.Some? then Some((trigger.value, ExitPrice(p, trigger.value, bar)))
      else if Executable(ts) && (p.pendingExit.Some? || (flatten && FlattenDue(ts + 5))) then
        Some((if p.pendingExit.Some? then p.pendingExit.value else SessionClose, bar.close))
      else None
    }
  }

  type Book = map<Ticker, Position>

  type Bars = map<Ticker, Bar>

  function FillSignal(s: Ticker, p: Pending, bar: Bar, ts: int): Signal {
    p.signal.(ticker := s, entry := bar.open, entryAt := ts)
  }

  function Got<V>(m: map<Ticker, V>, t: Ticker): Option<V> { if t in m then Some(m[t]) else None }

  // --- the open ---

  /** What the broker held and could spend when the batch began. */
  datatype Start = Start(book: Book, queue: map<Ticker, Pending>, sizing: real, frozen: bool)

  /** A pending entry of the symbol that may fill at this bar beside the positions `others`. */
  predicate MayFill(r: Rules, candidate: Option<Pending>, sizing: real, frozen: bool, others: Book, s: Ticker,
                    bar: Bar, ts: int)
  {
    && candidate.Some? && r.Executable(ts) && r.OnTime(candidate.value, ts) && !frozen
    && Admitted(FillSignal(s, candidate.value, bar, ts), others, sizing, r.pct, r.policy)
  }

  /** A position filled at the open: the levels of its signal, and all the shares the budget beside `others` buys. */
  predicate Entered(p: Position, fill: Signal, others: Book, sizing: real, r: Rules) {
    && p.ticker == fill.ticker && p.entry == fill.entry && p.stop == fill.stop && p.target == fill.target
    && Some(p.direction) == fill.direction && p.entryAt == fill.entryAt && p.observed == 0 && p.pendingExit.None?
    && p.entry + r.policy.UnitCost(p.entry) > 0.0
    && p.shares == SharesFor(BudgetOf(sizing, r.pct, others), p.entry + r.policy.UnitCost(p.entry))
    && p.entryCost == r.policy.Cost(p.entry, p.shares)
  }

  /** What one symbol's turn at the open comes to: an entry that may fill does, and nothing else happens. */
  predicate Turn(r: Rules, candidate: Option<Pending>, sizing: real, frozen: bool, others: Book, s: Ticker, bar: Bar,
                 ts: int, outcome: Option<Position>)
  {
    if MayFill(r, candidate, sizing, frozen, others, s, bar, ts) then
      outcome.Some? && Entered(outcome.value, FillSignal(s, candidate.value, bar, ts), others, sizing, r)
    else outcome.None?
  }

  /** The positions a symbol finds at its turn: the old ones and those of smaller symbols. */
  function Upto(before: Book, now: Book, n: nat): Book {
    map t | t in now && (t in before || t < n) :: now[t]
  }

  /** The first `n` symbols have had their turns, in order, on top of the positions at the start. */
  ghost predicate Opens(r: Rules, start: Start, now: Book, bars: Bars, ts: int, n: nat) {
    && (forall t :: t in start.book ==> t in now && now[t] == start.book[t])
    && (forall t :: t in now && t !in start.book ==> t < n && t in bars)
    && forall t :: t < n && t in bars && t !in start.book ==> HadTurn(r, start, now, bars[t], ts, t)
  }

  /** The symbol's turn came to what it should, given the positions it found. */
  predicate HadTurn(r: Rules, start: Start, now: Book, bar: Bar, ts: int, t: Ticker) {
    Turn(r, Got(start.queue, t), start.sizing, start.frozen, Upto(start.book, now, t), t, bar, ts, Got(now, t))
  }

  lemma UptoHere(before: Book, now: Book, n: nat, more: Book)
    requires forall t :: t in now ==> t in before || t < n
    requires forall t :: t in before ==> t in now
    requires n !in before && (more == now || (n !in now && n in more && more == now[n := more[n]]))
    ensures Upto(before, more, n) == now
    ensures forall t: nat :: t < n ==> Upto(before, more, t) == Upto(before, now, t) && Got(more, t) == Got(now, t)
  {}

  /** One more turn: nothing earlier changes, and the symbol's own turn came to what it should. */
  lemma OpensNext(r: Rules, start: Start, was: Book, now: Book, bars: Bars, ts: int, s: Ticker)
    requires Opens(r, start, was, bars, ts, s) && s in bars
    requires now == was || (s !in was && s in now && now == was[s := now[s]])
    requires if s in start.book then now == was else 
      Turn(r, Got(start.queue, s), start.sizing, start.frozen, was, s, bars[s], ts, Got(now, s))
    ensures Opens(r, start, now, bars, ts, s + 1)
  {
    if s !in start.book { UptoHere(start.book, was, s, now); }
    forall t | t < s + 1 && t in bars && t !in start.book
      ensures HadTurn(r, start, now, bars[t], ts, t) {
      if t < s { assert HadTurn(r, start, was, bars[t], ts, t); }
    }
  }

  lemma OpensSkip(r: Rules, start: Start, now: Book, bars: Bars, ts: int, s: Ticker)
    requires Opens(r, start, now, bars, ts, s) && s !in bars
    ensures Opens(r, start, now, bars, ts, s + 1)
  {}

  lemma OpensNone(r: Rules, start: Start, bars: Bars, ts: int)
    ensures Opens(r, start, start.book, bars, ts, 0)
  {}

  /** Equal but for the journal identity. */
  predicate Alike(a: Option<Position>, b: Option<Position>) {
    (a.None? && b.None?) || (a.Some? && b.Some? && a.value.(dbId := None) == b.value.(dbId := None))
  }

  lemma AlikeReserves(a: Position, b: Position)
    requires Alike(Some(a), Some(b))
    ensures a.Reserves() == b.Reserves()
  {
    assert a.(dbId := None).Reserves() == a.Reserves() && b.(dbId := None).Reserves() == b.Reserves();
  }

  lemma {:induction false} ReservedAlike(a: Book, b: Book)
    requires forall t: nat :: Alike(Got(a, t), Got(b, t))
    ensures Reserved(a) == Reserved(b)
    decreases |a|
  {
    forall t: nat ensures t in a <==> t in b { assert Alike(Got(a, t), Got(b, t)); }
    assert a.Keys == b.Keys;
    if a.Keys != {} {
      var t := Smallest(a.Keys);
      assert Alike(Got(a, t), Got(b, t));
      AlikeReserves(a[t], b[t]);
      KeysShrink(a, t);
      forall u: nat ensures Alike(Got(a - {t}, u), Got(b - {t}, u)) { assert Alike(Got(a, u), Got(b, u)); }
      ReservedAlike(a - {t}, b - {t});
    }
  }

  /** The entries of a batch depend on what it began with and on the opens alone, never on its exits: the start and
      the bars determine every fill. */
  lemma {:induction false} FillsAreDetermined(r: Rules, start: Start, a: Book, b: Book, bars: Bars, ts: int, n: nat,
                                              t: Ticker)
    requires Opens(r, start, a, bars, ts, n) && Opens(r, start, b, bars, ts, n)
    ensures Alike(Got(a, t), Got(b, t))
    decreases t
  {
    if t !in start.book && t < n && t in bars {
      forall u: nat ensures Alike(Got(Upto(start.book, a, t), u), Got(Upto(start.book, b, t), u)) {
        if u < t { FillsAreDetermined(r, start, a, b, bars, ts, n, u); }
      }
      ReservedAlike(Upto(start.book, a, t), Upto(start.book, b, t));
      assert HadTurn(r, start, a, bars[t], ts, t) && HadTurn(r, start, b, bars[t], ts, t);
      SameTurn(r, Got(start.queue, t), start.sizing, start.frozen, Upto(start.book, a, t), Upto(start.book, b, t), t,
               bars[t], ts, Got(a, t), Got(b, t));
    }
  }

  lemma SameTurn(r: Rules, candidate: Option<Pending>, sizing: real, frozen: bool, others: Book, others': Book,
                 s: Ticker, bar: Bar, ts: int, outcome: Option<Position>, outcome': Option<Position>)
    requires Turn(r, candidate, sizing, frozen, others, s, bar, ts, outcome)
    requires Turn(r, candidate, sizing, frozen, others', s, bar, ts, outcome')
    requires Reserved(others) == Reserved(others') && s !in others && s !in others'
    ensures Alike(outcome, outcome')
  {
    assert BudgetOf(sizing, r.pct, others) == BudgetOf(sizing, r.pct, others');
  }

  /** Who enters at the open: a symbol without a position whose pending candidate was decided at most five minutes ago
      on the same UTC day, in a session that goes on past this bar, and with a flatten due at its end past the last
      five minutes too; whose levels lie around the open in the order of its direction; and of which one share, costs
      included, fits the share of the capital and what the positions before it leave. */
  lemma EntersExactly(r: Rules, start: Start, now: Book, bars: Bars, ts: int, n: nat, t: Ticker)
    requires Opens(r, start, now, bars, ts, n) && t < n && t in bars && t !in start.book && r.policy.Valid()
    ensures t in now <==>
      && t in start.queue && !start.frozen
      && r.session(ts).Some? && ts + 5 < r.session(ts).value.1 && (r.flatten ==> ts + 10 < r.session(ts).value.1)
      && start.queue[t].decisionAt <= ts <= start.queue[t].decisionAt + 5
      && start.queue[t].decisionAt / 1440 == ts / 1440
      && LevelsAround(start.queue[t].signal, bars[t].open)
      && OneFits(r, start.sizing, Upto(start.book, now, t), bars[t].open)
  {
    assert HadTurn(r, start, now, bars[t], ts, t);
    hide SharesFor, BudgetOf, FillPolicy.UnitCost, Reserved;
    if t in start.queue {
      AdmittedExactly(r, start.sizing, Upto(start.book, now, t), FillSignal(t, start.queue[t], bars[t], ts));
    }
  }

  lemma AdmittedExactly(r: Rules, sizing: real, others: Book, s: Signal)
    requires r.policy.Valid() && s.ticker !in others
    ensures Admitted(s, others, sizing, r.pct, r.policy) <==>
      LevelsAround(s, s.entry) && OneFits(r, sizing, others, s.entry)
  {
    if LevelsAround(s, s.entry) {
      UnitCostNonNegative(r.policy, s.entry);
      SharesAreMost(sizing, r.pct, others, s.entry + r.policy.UnitCost(s.entry), 1);
    }
  }

  predicate LevelsAround(s: Signal, price: real) {
    && price > 0.0 && s.stop > 0.0 && s.target > 0.0
    && ((s.direction == Some(Long) && s.stop < price && price < s.target)
        || (s.direction == Some(Short) && s.target < price && price < s.stop))
  }

  /** One share, costs included, within the share of the sizing capital and within what is not reserved. */
  predicate OneFits(r: Rules, sizing: real, others: Book, price: real) {
    var unit := price + r.policy.UnitCost(price);
    unit <= sizing * r.pct && Reserved(others) + unit <= sizing
  }

  // --- the exits ---

  /** One more bar watched. */
  function Counted(p: Position): Position { p.(observed := p.observed + 1) }

  /** How an open position that has a bar leaves at it. */
  function LeaveOf(r: Rules, positions: Book, bars: Bars, ts: int, t: Ticker): Option<(ExitReason, real)> {
    if t in positions && t in bars then r.ExitOf(Counted(positions[t]), bars[t], ts) else None
  }

  /** The positions of the first `n` symbols have been watched over their bars. */
  ghost predicate Watched(r: Rules, before: Book, now: Book, bars: Bars, ts: int, n: nat) {
    && now.Keys <= before.Keys
    && forall t :: t in before ==>
      Got(now, t) ==
        if t >= n || t !in bars then Some(before[t])
        else if LeaveOf(r, before, bars, ts, t).None? then Some(Counted(before[t]))
        else None
  }

  lemma WatchedNext(r: Rules, before: Book, was: Book, now: Book, bars: Bars, ts: int, s: Ticker)
    requires Watched(r, before, was, bars, ts, s) && s in bars && s in before
    requires now == if LeaveOf(r, before, bars, ts, s).None? then was[s := Counted(before[s])] else was - {s}
    ensures Watched(r, before, now, bars, ts, s + 1)
  {
    forall t | t in before
      ensures Got(now, t) ==
        if t >= s + 1 || t !in bars then Some(before[t])
        else if LeaveOf(r, before, bars, ts, t).None? then Some(Counted(before[t]))
        else None {
      if t != s { assert Got(now, t) == Got(was, t); }
    }
  }

  lemma WatchedSkip(r: Rules, before: Book, now: Book, bars: Bars, ts: int, s: Ticker)
    requires Watched(r, before, now, bars, ts, s) && (s !in bars || s !in before)
    ensures Watched(r, before, now, bars, ts, s + 1)
  {}

  function Leaving(r: Rules, positions: Book, bars: Bars, ts: int, n: nat): set<Ticker> {
    set t | t in positions && t < n && LeaveOf(r, positions, bars, ts, t).Some?
  }

  lemma LeavingNext(r: Rules, positions: Book, bars: Bars, ts: int, s: Ticker)
    ensures Leaving(r, positions, bars, ts, s + 1) ==
      Leaving(r, positions, bars, ts, s) + if LeaveOf(r, positions, bars, ts, s).Some? then {s} else {}
  {}

  /** No position of the first `n` symbols would leave at a price the broker refuses. */
  predicate Sellable(r: Rules, positions: Book, bars: Bars, ts: int, n: nat) {
    forall t :: t in positions && t < n && LeaveOf(r, positions, bars, ts, t).Some? ==>
      LeaveOf(r, positions, bars, ts, t).value.1 > 0.0
  }

  /** The trade an exit at a bar leaves. */
  function ExitTrade(r: Rules, p: Position, leave: (ExitReason, real), ts: int): Trade {
    Closing(Counted(p), r.policy, leave.1, leave.0, ts + 5)
  }

  /** Who leaves at a bar: a position whose levels the bar does not lie strictly between; otherwise, while the session
      goes on, one that is wished to leave, and every one if the session is to be flattened within five minutes of the
      bar's end. The latter leave at the close. */
  lemma LeavesExactly(r: Rules, p: Position, bar: Bar, ts: int)
    requires bar.low <= bar.open <= bar.high && Ordered(p.direction, p.stop, p.entry, p.target)
    ensures var held := MinR(p.stop, p.target) < bar.low && bar.high < MaxR(p.stop, p.target);
      var due := r.session(ts).Some? && ts + 5 < r.session(ts).value.1
        && (p.pendingExit.Some?
            || (r.flatten && r.session(ts + 5).Some?
                && r.session(ts + 5).value.1 - 10 <= ts && ts + 5 < r.session(ts + 5).value.1));
      var leave := r.ExitOf(p, bar, ts);
      && (leave.None? <==> held && !due)
      && (leave.Some? && held ==>
        leave.value.1 == bar.close
        && leave.value.0 == if p.pendingExit.Some? then p.pendingExit.value else SessionClose)
      && (!held ==> leave.Some? && CheckExit(p, bar) == Some(leave.value.0)
                    && leave.value.1 == ExitPrice(p, leave.value.0, bar))
  {
    ExitsAreTouches(p, bar);
  }

  /** The trades the exits of the first `n` symbols leave, in symbol order. */
  function ExitTrades(r: Rules, positions: Book, bars: Bars, ts: int, n: nat): seq<Trade> {
    if n == 0 then []
    else
      var leave := LeaveOf(r, positions, bars, ts, n - 1);
      var trades := ExitTrades(r, positions, bars, ts, n - 1);
      if leave.None? then trades else trades + [ExitTrade(r, positions[n - 1], leave.value, ts)]
  }

  function TotalPnl(trades: seq<Trade>): real {
    if trades == [] then 0.0 else TotalPnl(trades[..|trades| - 1]) + trades[|trades| - 1].pnl
  }

  /** What the positions of the first `n` symbols that leave have earned, exactly. */
  function EarnedBy(r: Rules, positions: Book, bars: Bars, ts: int, n: nat): real {
    if n == 0 then 0.0
    else
      var leave := LeaveOf(r, positions, bars, ts, n - 1);
      EarnedBy(r, positions, bars, ts, n - 1)
        + if leave.None? then 0.0 else Earned(positions[n - 1], r.policy, leave.value.1)
  }

  /** What a batch books is what the positions that left have earned, up to half a cent each. */
  lemma {:induction false} BatchBooksEarnings(r: Rules, positions: Book, bars: Bars, ts: int, n: nat)
    ensures |ExitTrades(r, positions, bars, ts, n)| == |Leaving(r, positions, bars, ts, n)|
    ensures Abs(TotalPnl(ExitTrades(r, positions, bars, ts, n)) - EarnedBy(r, positions, bars, ts, n))
      <= 0.005 * |Leaving(r, positions, bars, ts, n)| as real
  {
    hide Rules.ExitOf, Closing;
    if n == 0 {
      assert Leaving(r, positions, bars, ts, 0) == {};
    } else {
      var s, leave := n - 1, LeaveOf(r, positions, bars, ts, n - 1);
      BatchBooksEarnings(r, positions, bars, ts, s);
      LeavingNext(r, positions, bars, ts, s);
      if leave.Some? {
        CountedEarns(r, positions[s], leave.value, ts);
        hide ExitTrade, Earned, LeaveOf;
        var trade := ExitTrade(r, positions[s], leave.value, ts);
        TotalNext(ExitTrades(r, positions, bars, ts, s), trade);
        OneMoreResult(TotalPnl(ExitTrades(r, positions, bars, ts, s)), EarnedBy(r, positions, bars, ts, s), trade.pnl,
                      Earned(positions[s], r.policy, leave.value.1), |Leaving(r, positions, bars, ts, s)|);
      }
    }
  }

  lemma OneMoreResult(booked: real, earned: real, pnl: real, more: real, n: nat)
    requires Abs(booked - earned) <= 0.005 * n as real && Abs(pnl - more) <= 0.005
    ensures Abs(booked + pnl - (earned + more)) <= 0.005 * (n + 1) as real
  {}

  lemma TotalNext(trades: seq<Trade>, trade: Trade)
    ensures TotalPnl(trades + [trade]) == TotalPnl(trades) + trade.pnl
  {
    assert (trades + [trade])[..|trades|] == trades;
  }

  lemma CountedEarns(r: Rules, p: Position, leave: (ExitReason, real), ts: int)
    ensures Abs(ExitTrade(r, p, leave, ts).pnl - Earned(p, r.policy, leave.1)) <= 0.005
  {
    CountingEarnsNothing(p, r.policy, leave.1);
    hide Earned, Closing;
    ResultIsEarned(Counted(p), r.policy, leave.1, leave.0, ts + 5);
  }

  lemma CountingEarnsNothing(p: Position, policy: FillPolicy, price: real)
    ensures Earned(Counted(p), policy, price) == Earned(p, policy, price)
  {}

  /** What watching has changed so far. */
  datatype Till = Till(book: Book, capital: real, closed: seq<Trade>, exited: set<Ticker>)

  /** The first `n` symbols have been watched since `start`. */
  ghost predicate Progress(r: Rules, start: Till, now: Till, bars: Bars, ts: int, n: nat) {
    var trades := ExitTrades(r, start.book, bars, ts, n);
    && Watched(r, start.book, now.book, bars, ts, n) && now.exited == Leaving(r, start.book, bars, ts, n)
    && now.closed == start.closed + trades && now.capital == start.capital + TotalPnl(trades)
  }

  lemma ProgressNone(r: Rules, start: Till, bars: Bars, ts: int)
    requires start.exited == {}
    ensures Progress(r, start, start, bars, ts, 0) && Sellable(r, start.book, bars, ts, 0)
  {}

  lemma ProgressSkip(r: Rules, start: Till, now: Till, bars: Bars, ts: int, s: Ticker)
    requires Progress(r, start, now, bars, ts, s) && (s !in bars || s !in now.book)
    ensures Progress(r, start, now, bars, ts, s + 1)
    ensures Sellable(r, start.book, bars, ts, s + 1) <==> Sellable(r, start.book, bars, ts, s)
  {
    assert s in start.book ==> Got(now.book, s) == Some(start.book[s]);
    LeavingNext(r, start.book, bars, ts, s);
    WatchedSkip(r, start.book, now.book, bars, ts, s);
  }

  /** What watching one position makes of the state. */
  function Stepped(r: Rules, was: Till, bar: Bar, ts: int, s: Ticker): Till
    requires s in was.book
  {
    var p := was.book[s];
    match r.ExitOf(Counted(p), bar, ts)
    case None => was.(book := was.book[s := Counted(p)])
    case Some(leave) =>
      var trade := ExitTrade(r, p, leave, ts);
      Till(was.book - {s}, was.capital + trade.pnl, was.closed + [trade], was.exited + {s})
  }

  lemma ProgressNext(r: Rules, start: Till, was: Till, bars: Bars, ts: int, s: Ticker)
    requires Progress(r, start, was, bars, ts, s) && s in bars && s in was.book
    ensures Progress(r, start, Stepped(r, was, bars[s], ts, s), bars, ts, s + 1)
    ensures var leave := r.ExitOf(Counted(was.book[s]), bars[s], ts);
      Sellable(r, start.book, bars, ts, s + 1) <==>
        Sellable(r, start.book, bars, ts, s) && (leave.Some? ==> leave.value.1 > 0.0)
  {
    hide Rules.ExitOf, Closing;
    assert s in start.book && Got(was.book, s) == Some(start.book[s]);
    var leave := LeaveOf(r, start.book, bars, ts, s);
    LeavingNext(r, start.book, bars, ts, s);
    WatchedNext(r, start.book, was.book, Stepped(r, was, bars[s], ts, s).book, bars, ts, s);
    if leave.Some? {
      PnlNext(start, was, ExitTrades(r, start.book, bars, ts, s), ExitTrade(r, start.book[s], leave.value, ts));
    }
  }

  lemma PnlNext(start: Till, was: Till, trades: seq<Trade>, trade: Trade)
    requires was.closed == start.closed + trades && was.capital == start.capital + TotalPnl(trades)
    ensures was.closed + [trade] == start.closed + (trades + [trade])
    ensures was.capital + trade.pnl == start.capital + TotalPnl(trades + [trade])
  {
    assert (trades + [trade])[..|trades|] == trades;
  }

  // --- the proposals ---

  /** Whether a proposed signal becomes a pending entry: the reasons against it, in the order they are checked. */
  predicate Accepts(r: Rules, book: Book, blocked: bool, exited: set<Ticker>, s: Ticker, c: Candidate, ts: int) {
    && !c.skip && c.signal.direction.Some? && r.Executable(ts) && s !in book && s !in exited && !blocked
    && !r.TooLate(ts) && c.gateAccepts
  }

  /** Exactly the accepted proposals of the first `n` symbols have become pending. */
  ghost predicate Queued(r: Rules, book: Book, blocked: bool, exited: set<Ticker>, before: map<Ticker, Pending>,
                         now: map<Ticker, Pending>, bars: Bars, candidates: map<Ticker, Candidate>, ts: int, n: nat)
  {
    forall s: Ticker ::
      Got(now, s) ==
        if s < n && s in bars && s in candidates && Accepts(r, book, blocked, exited, s, candidates[s], ts)
        then Some(Pending(candidates[s].signal, ts + 5))
        else Got(before, s)
  }

  /** What becomes pending: a directed proposal the pipeline and the gate let through, for a symbol that neither holds
      a position nor left one at this bar, while nothing blocks and the session goes on, and with a flatten due at its
      end goes on for more than fifteen minutes after the bar's start. */
  lemma QueuesExactly(r: Rules, book: Book, blocked: bool, exited: set<Ticker>, before: map<Ticker, Pending>,
                      now: map<Ticker, Pending>, bars: Bars, candidates: map<Ticker, Candidate>, ts: int, n: nat,
                      s: Ticker)
    requires Queued(r, book, blocked, exited, before, now, bars, candidates, ts, n)
    requires s < n && s in bars && s !in before
    ensures s in now <==>
      && s in candidates && !candidates[s].skip && candidates[s].gateAccepts
      && (candidates[s].signal.direction == Some(Long) || candidates[s].signal.direction == Some(Short))
      && s !in book && s !in exited && !blocked
      && r.session(ts).Some? && ts + 5 < r.session(ts).value.1
      && (r.flatten ==> ts + 15 < r.session(ts).value.1)
    ensures s in now ==> now[s] == Pending(candidates[s].signal, ts + 5)
  {
    assert Got(before, s).None? && (Got(now, s).Some? <==> s in now);
    if s in candidates {
      assert Accepts(r, book, blocked, exited, s, candidates[s], ts) <==> Got(now, s).Some?;
      var direction := candidates[s].signal.direction;
      assert direction.Some? ==> direction.value.Long? || direction.value.Short?;
    }
  }

  function Below(bars: Bars, n: nat): set<Ticker> { set t | t in bars && t < n }

  lemma BelowNext(bars: Bars, n: nat)
    ensures Below(bars, n + 1) == Below(bars, n) + if n in bars then {n} else {}
  {}

  // --- what a whole batch does ---

  /** What a batch leaves behind. */
  datatype Finish = Finish(book: Book, queue: map<Ticker, Pending>, capital: real, closed: seq<Trade>)

  /** A completed batch: entries at the open give `filled`, whose exits and counts give the final book, and the
      accepted proposals join what was pending for symbols without a bar. */
  ghost predicate BatchDone(r: Rules, symbols: nat, start: Start, filled: Book, end: Finish, capital: real,
                            closed: seq<Trade>,
                            bars: Bars, candidates: map<Ticker, Candidate>, ts: int, blocked: bool)
  {
    var trades := ExitTrades(r, filled, bars, ts, symbols);
    && Watched(r, filled, end.book, bars, ts, symbols)
    && end.closed == closed + trades && end.capital == capital + TotalPnl(trades)
    && Queued(r, end.book, blocked, Leaving(r, filled, bars, ts, symbols), start.queue - bars.Keys, end.queue, bars,
              candidates, ts, symbols)
  }

  /** Capital has moved by what the positions that left have earned, up to half a cent each. */
  ghost predicate Earns(r: Rules, filled: Book, bars: Bars, ts: int, n: nat, moved: real) {
    Abs(moved - EarnedBy(r, filled, bars, ts, n)) <= 0.005 * |Leaving(r, filled, bars, ts, n)| as real
  }

  lemma BatchEarns(r: Rules, symbols: nat, start: Start, filled: Book, end: Finish, capital: real,
                   closed: seq<Trade>,
                   bars: Bars, candidates: map<Ticker, Candidate>, ts: int, blocked: bool)
    requires BatchDone(r, symbols, start, filled, end, capital, closed, bars, candidates, ts, blocked)
    ensures Earns(r, filled, bars, ts, symbols, end.capital - capital)
  {
    BatchBooksEarnings(r, filled, bars, ts, symbols);
  }
}
