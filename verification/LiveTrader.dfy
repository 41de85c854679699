/** The live local portfolio cycle: one batch of completed bars at a time, journaled so that a restart rebuilds it. */
module LiveTrader {
  import opened Common
  import opened PaperBroker
  import opened BatchRules

  /** A row of the trades table; its position is its identity. */
  datatype TradeRow = TradeRow(position: Position, open: bool, pnl: real)

  function Pnls(rows: seq<TradeRow>): (r: seq<real>)
    ensures |r| == |rows| && forall i :: 0 <= i < |r| ==> r[i] == rows[i].pnl
  {
    seq(|rows|, i requires 0 <= i < |rows| => rows[i].pnl)
  }

  /** Realized profit over the journal. */
  function Realized(rows: seq<TradeRow>): real { SumR(Pnls(rows)) }

  /** The open rows and the remembered positions are the same. */
  ghost predicate Mirrors(positions: map<Ticker, Position>, rows: seq<TradeRow>) {
    && (forall t :: t in positions ==> Remembered(positions[t], t, rows))
    && (forall i :: 0 <= i < |rows| ==> Journaled(positions, rows[i], i))
  }

  predicate Remembered(p: Position, t: Ticker, rows: seq<TradeRow>) {
    p.ticker == t && p.dbId.Some? && p.dbId.value < |rows| && rows[p.dbId.value] == TradeRow(p, true, 0.0)
  }

  predicate Journaled(positions: map<Ticker, Position>, row: TradeRow, i: nat) {
    row.open ==> row.position.ticker in positions && positions[row.position.ticker].dbId == Some(i)
  }

  /** Capital the positions of some rows were opened with. */
  function Stakes(rows: seq<TradeRow>): real {
    if rows == [] then 0.0 else Stakes(rows[..|rows| - 1]) + rows[|rows| - 1].position.Reserves()
  }

  /** Rows keep what their positions were opened with. */
  predicate SameStakes(before: seq<TradeRow>, after: seq<TradeRow>) {
    |before| == |after| && forall i :: 0 <= i < |before| ==>
      after[i].position.Reserves() == before[i].position.Reserves()
  }

  lemma {:induction false} StakesKept(before: seq<TradeRow>, after: seq<TradeRow>, n: nat)
    requires SameStakes(before, after) && n <= |before|
    ensures Stakes(after[n..]) == Stakes(before[n..])
    decreases |before|
  {
    if n < |before| {
      var last := |before| - 1;
      assert before[n..][..last - n] == before[..last][n..] && after[n..][..last - n] == after[..last][n..];
      StakesKept(before[..last], after[..last], n);
    }
  }

  lemma StakesAppend(rows: seq<TradeRow>, row: TradeRow)
    ensures Stakes(rows + [row]) == Stakes(rows) + row.position.Reserves()
  {
    assert (rows + [row])[..|rows|] == rows;
  }

  lemma SameReserves(p: Position, id: Option<nat>)
    ensures p.(dbId := id).Reserves() == p.Reserves()
  {}

  lemma NewStake(rows: seq<TradeRow>, row: TradeRow)
    ensures Stakes((rows + [row])[|rows|..]) == row.position.Reserves()
  {
    assert (rows + [row])[|rows|..] == [] + [row];
    StakesAppend([], row);
  }

  // --- what each write keeps ---

  lemma OpenedMirrors(positions: map<Ticker, Position>, rows: seq<TradeRow>, p: Position)
    requires Mirrors(positions, rows) && p.ticker !in positions && p.dbId == Some(|rows|)
    ensures Mirrors(positions[p.ticker := p], rows + [TradeRow(p, true, 0.0)])
    ensures Realized(rows + [TradeRow(p, true, 0.0)]) == Realized(rows)
  {
    var rows', more := rows + [TradeRow(p, true, 0.0)], positions[p.ticker := p];
    forall t | t in more ensures Remembered(more[t], t, rows') {
      if t != p.ticker { assert Remembered(positions[t], t, rows); }
    }
    forall i | 0 <= i < |rows'| ensures Journaled(more, rows'[i], i) {
      if i < |rows| { assert Journaled(positions, rows[i], i); }
    }
    SumRPadded(Pnls(rows), Pnls(rows'));
  }

  lemma SavedMirrors(positions: map<Ticker, Position>, rows: seq<TradeRow>, t: Ticker, p: Position)
    requires Mirrors(positions, rows) && t in positions && p.ticker == t && p.dbId == positions[t].dbId
    ensures Remembered(positions[t], t, rows)
    ensures Mirrors(positions[t := p], rows[p.dbId.value := TradeRow(p, true, 0.0)])
    ensures Realized(rows[p.dbId.value := TradeRow(p, true, 0.0)]) == Realized(rows)
  {
    assert Remembered(positions[t], t, rows);
    var id := p.dbId.value;
    var rows', now := rows[id := TradeRow(p, true, 0.0)], positions[t := p];
    forall u | u in now ensures Remembered(now[u], u, rows') {
      if u != t { assert Remembered(positions[u], u, rows); }
    }
    forall i | 0 <= i < |rows'| ensures Journaled(now, rows'[i], i) { assert Journaled(positions, rows[i], i); }
    assert Pnls(rows') == Pnls(rows);
  }

  lemma ClosedMirrors(positions: map<Ticker, Position>, rows: seq<TradeRow>, t: Ticker, pnl: real)
    requires Mirrors(positions, rows) && t in positions
    ensures Remembered(positions[t], t, rows)
    ensures var id := positions[t].dbId.value;
      var rows' := rows[id := TradeRow(rows[id].position, false, pnl)];
      Mirrors(positions - {t}, rows') && Realized(rows') == Realized(rows) + pnl
  {
    assert Remembered(positions[t], t, rows);
    var id := positions[t].dbId.value;
    var rows' := rows[id := TradeRow(rows[id].position, false, pnl)];
    var left := positions - {t};
    forall u | u in left ensures Remembered(left[u], u, rows') { assert Remembered(positions[u], u, rows); }
    forall i | 0 <= i < |rows'| ensures Journaled(left, rows'[i], i) { assert Journaled(positions, rows[i], i); }
    SumRChange(Pnls(rows), Pnls(rows'), id);
  }

  /** The journal determines the positions. */
  lemma MirrorsUnique(a: map<Ticker, Position>, b: map<Ticker, Position>, rows: seq<TradeRow>)
    requires Mirrors(a, rows) && Mirrors(b, rows)
    ensures a == b
  {
    forall t | t in a ensures t in b && b[t] == a[t] {
      assert Remembered(a[t], t, rows) && Journaled(b, rows[a[t].dbId.value], a[t].dbId.value);
      assert Remembered(b[t], t, rows);
    }
    forall t | t in b ensures t in a {
      assert Remembered(b[t], t, rows) && Journaled(a, rows[b[t].dbId.value], b[t].dbId.value);
    }
  }

  function ToLeave(p: Position): Position { p.(pendingExit := Some(SessionClose)) }

  /** All positions but those of `rest` are marked to leave. */
  ghost predicate Marked(before: Book, now: Book, rest: set<Ticker>) {
    now.Keys == before.Keys && forall s :: s in before ==> now[s] == if s in rest then before[s] else ToLeave(before[s])
  }

  predicate AllAt(bars: Bars, ts: int) {
    forall s :: s in bars ==> bars[s].at == ts
  }

  /** The journal is one that some memory mirrors. */
  ghost predicate Sound(rows: seq<TradeRow>) { exists positions :: Mirrors(positions, rows) }

  predicate Increasing(times: seq<int>) {
    forall i, j :: 0 <= i < j < |times| ==> times[i] < times[j]
  }

  class LiveTrader {
    const symbols: nat
    const starting: real
    const rules: Rules
    /** Batches before this time only warm up; live traders have none. */
    const evaluationStart: Option<int>
    var broker: PaperBroker
    /** The journal: trades and pending entries. */
    var rows: seq<TradeRow>
    var pendingRows: map<Ticker, Pending>
    var pending: map<Ticker, Pending>
    var watermark: Option<int>
    var processed: map<Ticker, int>
    ghost var batches: seq<int>

    /** Memory is what the journal rebuilds. */
    ghost predicate Agrees()
      reads this, broker
    {
      && broker.Valid() && broker.policy == rules.policy && broker.positionPct == rules.pct
      && broker.capital == starting + Realized(rows)
      && Mirrors(broker.openPositions, rows)
      && pending == pendingRows
    }

    /** Batch times were processed once each, in order. */
    ghost predicate Ordered()
      reads this`watermark, this`batches
    {
      Increasing(batches) && watermark == if batches == [] then None else Some(batches[|batches| - 1])
    }

    constructor (count: nat, capital: real, config: Rules, from: Option<int>, b: PaperBroker)
      requires b.Valid() && b.capital == capital && b.openPositions == map[]
      requires b.policy == config.policy && b.positionPct == config.pct
      ensures Agrees() && Ordered() && broker == b && rows == [] && symbols == count && starting == capital
        && rules == config
    {
      symbols, starting, rules, evaluationStart := count, capital, config, from;
      broker, rows, pendingRows, pending := b, [], map[], map[];
      watermark, processed, batches := None, map[], [];
    }

    /** What the batch finds. */
    ghost function Opening(): Start
      reads this`broker, this`pending, broker
    {
      Start(broker.openPositions, pending, broker.SizingCapital(), broker.Frozen())
    }

    /** Take the pending entry of a symbol and fill it at this bar's open, if it still may. */
    method FillPending(s: Ticker, bar: Bar, ts: int)
      requires Agrees()
      modifies this`pending, this`pendingRows, this`rows, broker`openPositions
      ensures Agrees() && pending == old(pending) - {s}
      ensures Took(old(rows), old(broker.openPositions), rows, broker.openPositions, broker.SizingCapital(),
                   broker.unavailable > 0, s)
      ensures s !in old(broker.openPositions) ==>
        Turn(rules, old(Got(pending, s)), old(broker.SizingCapital()), old(broker.Frozen()),
             old(broker.openPositions), s, bar, ts, Got(broker.openPositions, s))
    {
      var candidate := Got(pending, s);
      pending := pending - {s};
      pendingRows := pendingRows - {s};
      assert rows[|rows|..] == [];
      var bounds := rules.session(ts);
      var executable := bounds.Some? && ts + 5 < bounds.value.1;
      if candidate.None? || !executable || s in broker.openPositions || broker.blocked { return; }
      var decided, signal := candidate.value.decisionAt, candidate.value.signal;
      if decided / 1440 != ts / 1440 || ts < decided || ts > decided + 5 { return; }
      if rules.flatten && ts + 5 >= bounds.value.1 - 5 { return; }
      Fill(Signal(s, signal.direction, bar.open, signal.stop, signal.target, ts));
    }

    /** Open in memory, then append the journal row and remember its identity. */
    method Fill(fill: Signal)
      requires Agrees() && fill.ticker !in broker.openPositions
      modifies this`rows, broker`openPositions
      ensures Agrees() && |old(rows)| <= |rows| <= |old(rows)| + 1 && rows[..|old(rows)|] == old(rows)
      ensures 0.0 <= Stakes(rows[|old(rows)|..])
      ensures |rows| > |old(rows)| ==> Stakes(rows[|old(rows)|..]) <= old(broker.Available())
      ensures Reserved(broker.openPositions) == Reserved(old(broker.openPositions)) + Stakes(rows[|old(rows)|..])
      ensures !old(broker.Fills(fill)) ==> broker.openPositions == old(broker.openPositions)
      ensures old(broker.Fills(fill)) ==>
        && fill.ticker in broker.openPositions
        && broker.openPositions == old(broker.openPositions)[fill.ticker := broker.openPositions[fill.ticker]]
        && Entered(broker.openPositions[fill.ticker], fill, old(broker.openPositions), old(broker.SizingCapital()),
                   rules)
    {
      assert rows[|rows|..] == [];
      ghost var positions, before := broker.openPositions, rows;
      var filled := broker.OpenPosition(fill);
      if filled.None? { return; }
      JournalEntry(filled.value, positions);
      var p := filled.value.(dbId := Some(|before|));
      ReservedWith(positions, fill.ticker, p);
      NewStake(before, TradeRow(p, true, 0.0));
      SameReserves(filled.value, Some(|before|));
    }

    method JournalEntry(p: Position, ghost positions: map<Ticker, Position>)
      requires broker.Valid() && broker.policy == rules.policy && broker.positionPct == rules.pct
      requires broker.openPositions == positions[p.ticker := p] && p.ticker !in positions
      requires Mirrors(positions, rows) && broker.capital == starting + Realized(rows) && pending == pendingRows
      modifies this`rows, broker`openPositions
      ensures Agrees() && rows == old(rows) + [TradeRow(p.(dbId := Some(|old(rows)|)), true, 0.0)]
      ensures broker.openPositions == positions[p.ticker := p.(dbId := Some(|old(rows)|))]
    {
      var journaled := p.(dbId := Some(|rows|));
      OpenedMirrors(positions, rows, journaled);
      broker.openPositions := broker.openPositions[p.ticker := journaled];
      assert broker.openPositions == positions[p.ticker := journaled];
      rows := rows + [TradeRow(journaled, true, 0.0)];
    }

    /** Entries are filled at the open, before any exit of the same bar can release capital: every pending entry with
        a bar has its turn in symbol order, and all that fill cost no more than was unreserved before. */
    method FillEntries(bars: Bars, ts: int)
      requires Agrees() && Known(bars)
      modifies this`pending, this`pendingRows, this`rows, broker`openPositions
      ensures Agrees() && |old(rows)| <= |rows| && rows[..|old(rows)|] == old(rows)
      ensures pending == old(pending) - bars.Keys
      ensures Stakes(rows[|old(rows)|..]) <= old(broker.Available())
      ensures Opens(rules, old(Opening()), broker.openPositions, bars, ts, symbols)
    {
      ghost var start, before := Opening(), rows;
      assert rows[|rows|..] == [];
      OpensNone(rules, start, bars, ts);
      for s := 0 to symbols
        invariant Filling(start, before, bars, ts, s)
      {
        TakeTurn(start, before, bars, ts, s);
      }
      assert Below(bars, symbols) == bars.Keys;
    }

    /** The first `n` symbols have had their turns since `start`, within the capital it left unreserved. */
    ghost predicate Filling(start: Start, before: seq<TradeRow>, bars: Bars, ts: int, n: nat)
      reads this, broker
    {
      && Agrees() && broker.SizingCapital() == start.sizing && broker.Frozen() == start.frozen
      && Tally(rules, start, before, rows, broker.openPositions, pending, broker.unavailable > 0, bars, ts, n)
    }

    method TakeTurn(ghost start: Start, ghost before: seq<TradeRow>, bars: Bars, ts: int, s: Ticker)
      requires Filling(start, before, bars, ts, s)
      modifies this`pending, this`pendingRows, this`rows, broker`openPositions
      ensures Filling(start, before, bars, ts, s + 1)
    {
      ghost var was, held, queue := rows, broker.openPositions, pending;
      if s in bars { FillPending(s, bars[s], ts); }
      TallyNext(rules, start, before, was, held, queue, rows, broker.openPositions, broker.unavailable > 0, bars, ts,
                s);
    }

    /** Whether a bar reaches the stop or else the target of a position, and the price it then fills at: the level, or
        the open if the bar gapped past it. */
    method Touch(p: Position, bar: Bar) returns (touched: Option<(ExitReason, real)>)
      ensures touched == var trigger := CheckExit(p, bar);
        if trigger.Some? then Some((trigger.value, ExitPrice(p, trigger.value, bar))) else None
    {
      var stopped, reached;
      if p.direction == Long {
        stopped, reached := bar.low <= p.stop, p.target <= bar.high;
      } else {
        stopped, reached := p.stop <= bar.high, bar.low <= p.target;
      }
      if !stopped && !reached { return None; }
      var level := if stopped then p.stop else p.target;
      var lower := (p.direction == Long) == stopped;
      var price := if (lower && level < bar.open) || (!lower && level > bar.open) then level else bar.open;
      touched := Some((if stopped then StopHit else TargetHit, price));
    }

    /** Whether, why and at what price a position leaves at a bar. */
    method Leave(p: Position, bar: Bar, ts: int) returns (leave: Option<(ExitReason, real)>)
      ensures leave == rules.ExitOf(p, bar, ts)
    {
      leave := Touch(p, bar);
      if leave.Some? { return; }
      var bounds, later := rules.session(ts), rules.session(ts + 5);
      var executable := bounds.Some? && ts + 5 < bounds.value.1;
      var due := rules.flatten && later.Some? && later.value.1 <= ts + 10 && ts + 5 < later.value.1;
      if executable && (p.pendingExit.Some? || due) {
        leave := Some((if p.pendingExit.Some? then p.pendingExit.value else SessionClose, bar.close));
      }
    }

    /** Watch one position over one bar: protective exit first, then a due flatten, else save the new count. */
    method WatchPosition(s: Ticker, bar: Bar, ts: int) returns (exited: bool, ok: bool)
      requires Agrees() && s in broker.openPositions
      modifies this`rows, broker`openPositions, broker`capital, broker`closedTrades
      ensures ok ==> Agrees()
      ensures SameStakes(old(rows), rows) && Sound(rows)
      ensures var leave := old(rules.ExitOf(Counted(broker.openPositions[s]), bar, ts));
        (exited <==> leave.Some?) && (ok <==> leave.Some? ==> leave.value.1 > 0.0)
        && (ok ==> AfterLeave(old(Now({})), s, leave, ts))
    {
      hide Rules.ExitOf, Closing, Mirrors, Realized;
      var p := broker.openPositions[s];
      p := p.(observed := p.observed + 1);
      assert Sound(rows);
      SavedMirrors(broker.openPositions, rows, s, p);
      ghost var saved, positions := rows[p.dbId.value := TradeRow(p, true, 0.0)], broker.openPositions;
      broker.openPositions := broker.openPositions[s := p];
      var leave := Leave(p, bar, ts);
      if leave.Some? {
        exited := true;
        ok := CloseTrade(s, p, leave.value.1, leave.value.0, ts + 5, saved);
        assert positions[s := p] - {s} == positions - {s};
        return;
      }
      rows := rows[p.dbId.value := TradeRow(p, true, 0.0)];
      exited, ok := false, true;
    }

    /** Close in memory and in the journal; `saved` is the journal with this position's latest count. */
    method CloseTrade(s: Ticker, p: Position, price: real, reason: ExitReason, exitAt: int,
                      ghost saved: seq<TradeRow>)
      returns (ok: bool)
      requires broker.Valid() && broker.policy == rules.policy && broker.positionPct == rules.pct
      requires s in broker.openPositions && broker.openPositions[s] == p
      requires Mirrors(broker.openPositions, saved) && broker.capital == starting + Realized(saved)
        && pending == pendingRows
      requires p.dbId.Some? && p.dbId.value < |rows| && rows[p.dbId.value].position.Reserves() == p.Reserves()
      requires saved == rows[p.dbId.value := TradeRow(p, true, 0.0)]
      modifies this`rows, broker`openPositions, broker`capital, broker`closedTrades
      ensures ok ==> Agrees() && s !in broker.openPositions
      ensures SameStakes(old(rows), rows)
      ensures ok <==> price > 0.0
      ensures !ok ==> rows == old(rows)
      ensures ok ==>
        var trade := Closing(p, rules.policy, price, reason, exitAt);
        && broker.openPositions == old(broker.openPositions) - {s}
        && broker.capital == old(broker.capital) + trade.pnl
        && broker.closedTrades == old(broker.closedTrades) + [trade]
    {
      ghost var positions := broker.openPositions;
      var trade := broker.ClosePosition(s, price, reason, exitAt);
      if trade.None? { return false; }
      ClosedMirrors(positions, saved, s, trade.value.pnl);
      rows := rows[p.dbId.value := TradeRow(p, false, trade.value.pnl)];
      assert rows == saved[p.dbId.value := TradeRow(saved[p.dbId.value].position, false, trade.value.pnl)];
      ok := true;
    }

    ghost function Now(exited: set<Ticker>): Till
      reads this`broker, broker`openPositions, broker`capital, broker`closedTrades
    {
      Till(broker.openPositions, broker.capital, broker.closedTrades, exited)
    }

    /** The position left as told, or was counted. */
    ghost predicate AfterLeave(was: Till, s: Ticker, leave: Option<(ExitReason, real)>, ts: int)
      requires s in was.book
      reads this`broker, broker`openPositions, broker`capital, broker`closedTrades
    {
      if leave.None? then
        && broker.openPositions == was.book[s := Counted(was.book[s])]
        && broker.capital == was.capital && broker.closedTrades == was.closed
      else
        var trade := ExitTrade(rules, was.book[s], leave.value, ts);
        && broker.openPositions == was.book - {s}
        && broker.capital == was.capital + trade.pnl && broker.closedTrades == was.closed + [trade]
    }

    /** Every open position with a bar is watched over it, in symbol order. */
    method WatchPositions(bars: Bars, ts: int) returns (exited: set<Ticker>, ok: bool)
      requires Agrees()
      modifies this`rows, broker`openPositions, broker`capital, broker`closedTrades
      ensures SameStakes(old(rows), rows) && Sound(rows)
      ensures ok <==> Sellable(rules, old(broker.openPositions), bars, ts, symbols)
      ensures ok ==> Agrees() && Progress(rules, old(Now({})), Now(exited), bars, ts, symbols)
    {
      exited, ok := {}, true;
      ghost var start := Now({});
      ProgressNone(rules, start, bars, ts);
      for s := 0 to symbols
        invariant Agrees() && SameStakes(old(rows), rows)
        invariant Progress(rules, start, Now(exited), bars, ts, s) && Sellable(rules, start.book, bars, ts, s)
      {
        exited, ok := WatchSymbol(start, exited, bars, ts, s);
        if !ok {
          NotSellable(start.book, bars, ts, s);
          return;
        }
      }
      ok := true;
    }

    method WatchSymbol(ghost start: Till, before: set<Ticker>, bars: Bars, ts: int, s: Ticker)
      returns (exited: set<Ticker>, ok: bool)
      requires Agrees() && Progress(rules, start, Now(before), bars, ts, s) && Sellable(rules, start.book, bars, ts, s)
      modifies this`rows, broker`openPositions, broker`capital, broker`closedTrades
      ensures SameStakes(old(rows), rows) && Sound(rows)
      ensures ok <==> Sellable(rules, start.book, bars, ts, s + 1)
      ensures ok ==> Agrees() && Progress(rules, start, Now(exited), bars, ts, s + 1)
    {
      exited, ok := before, true;
      assert Sound(rows);
      if s in bars && s in broker.openPositions {
        ProgressNext(rules, start, Now(before), bars, ts, s);
        var gone;
        gone, ok := WatchPosition(s, bars[s], ts);
        if gone { exited := before + {s}; }
      } else {
        ProgressSkip(rules, start, Now(before), bars, ts, s);
      }
    }

    lemma NotSellable(positions: Book, bars: Bars, ts: int, s: Ticker)
      requires s < symbols && !Sellable(rules, positions, bars, ts, s + 1)
      ensures !Sellable(rules, positions, bars, ts, symbols)
    {}

    /** Accepted proposals become pending, in memory and journal alike. */
    method QueueEntries(bars: Bars, candidates: map<Ticker, Candidate>, ts: int, exited: set<Ticker>)
      requires Agrees()
      modifies this`pending, this`pendingRows
      ensures Agrees()
      ensures Queued(rules, broker.openPositions, broker.blocked, exited, old(pending), pending, bars, candidates, ts,
                     symbols)
    {
      for s := 0 to symbols
        invariant pending == pendingRows
        invariant Queued(rules, broker.openPositions, broker.blocked, exited, old(pending), pending, bars, candidates,
                         ts, s)
      {
        if s in bars && s in candidates {
          var candidate, bounds := candidates[s], rules.session(ts);
          if candidate.skip || candidate.signal.direction == None || !candidate.gateAccepts { continue; }
          if bounds.None? || bounds.value.1 <= ts + 5 { continue; }
          if s in broker.openPositions || s in exited || broker.blocked { continue; }
          if rules.flatten && bounds.value.1 - 10 <= ts + 5 { continue; }
          var p := Pending(candidate.signal, ts + 5);
          pending := pending[s := p];
          pendingRows := pendingRows[s := p];
        }
      }
    }

    /** Bars their symbol has not seen yet. */
    ghost function Fresh(bars: Bars): Bars
      reads this`processed
    {
      map s | s in bars && (s !in processed || bars[s].at > processed[s]) :: bars[s]
    }

    /** Only known symbols have bars. */
    predicate Known(bars: Bars) { forall s :: s in bars ==> s < symbols }

    /** What is remembered of the symbols' last bars once those of `seen` at `ts` are processed. */
    ghost predicate Stamped(before: map<Ticker, int>, seen: set<Ticker>, ts: int)
      reads this`processed
    {
      && processed.Keys == before.Keys + seen
      && forall s :: s in processed ==> processed[s] == if s in seen then ts else before[s]
    }

    predicate Evaluates(ts: int) { evaluationStart.None? || ts >= evaluationStart.value }

    /** The batch is admitted: new bars of one time, in regular hours, past the watermark. */
    ghost predicate Admits(bars: Bars, ts: int)
      reads this`processed, this`watermark
    {
      && Fresh(bars) != map[] && AllAt(Fresh(bars), ts)
      && rules.InRegularHours(ts) && (watermark.None? || ts > watermark.value)
    }

    /** Decide about a batch and move the watermark; `ok` false is the error of bars of several times. */
    method Admit(bars: Bars) returns (done: bool, ok: bool, ts: int, bars': Bars)
      requires Ordered()
      modifies this`watermark, this`processed, this`batches
      ensures Ordered() && (done <==> exists t :: old(Admits(bars, t)))
      ensures done ==> ok && old(Admits(bars, ts)) && batches == old(batches) + [ts] && watermark == Some(ts)
      ensures bars' == old(Fresh(bars))
      ensures done ==> Stamped(old(processed), bars'.Keys, ts) && Fresh(bars) == map[]
      ensures !done ==> batches == old(batches) && watermark == old(watermark) && processed == old(processed)
      ensures ok <==> old(Fresh(bars)) == map[] || exists t :: AllAt(old(Fresh(bars)), t)
    {
      bars' := map s | s in bars && (s in processed ==> processed[s] < bars[s].at) :: bars[s];
      ts := 0;
      if bars' == map[] { return false, true, ts, bars'; }
      var first :| first in bars'.Keys;
      ts := bars'[first].at;
      assert forall t :: AllAt(bars', t) ==> t == ts;
      if exists s :: s in bars'.Keys && bars'[s].at != ts { return false, false, ts, bars'; }
      assert AllAt(bars', ts);
      var bounds := rules.session(ts);
      if bounds.None? || ts < bounds.value.0 || bounds.value.1 <= ts || (watermark.Some? && ts <= watermark.value) {
        return false, true, ts, bars';
      }
      assert Admits(bars, ts);
      watermark := Some(ts);
      batches := batches + [ts];
      processed := map s | s in processed.Keys + bars'.Keys :: if s in bars' then ts else processed[s];
      done, ok := true, true;
    }

    /** One batch of bars. Admitted are new bars that share a start time past the watermark; others change nothing,
        and bars of several times are an error. After every batch that completes, memory is exactly what the
        journal would rebuild, and what the batch opens costs no more than was unreserved when it began.
        `filled` is the book between the fills at the open and the exits. */
    method ProcessBatch(bars: Bars, candidates: map<Ticker, Candidate>)
      returns (done: bool, ok: bool, ts: int, ghost filled: Book)
      requires Agrees() && Ordered() && Known(bars)
      modifies this`pending, this`pendingRows, this`rows, this`watermark, this`processed, this`batches
      modifies broker`openPositions, broker`capital, broker`closedTrades
      ensures Ordered() && Sound(rows) && (ok ==> Agrees())
      ensures done <==> exists t :: old(Admits(bars, t))
      ensures done ==> old(Admits(bars, ts)) && batches == old(batches) + [ts] && watermark == Some(ts)
      ensures done ==> Stamped(old(processed), old(Fresh(bars)).Keys, ts) && Fresh(bars) == map[]
      ensures !done ==> batches == old(batches) && watermark == old(watermark) && processed == old(processed)
      ensures !done ==> (ok <==> old(Fresh(bars)) == map[] || exists t :: AllAt(old(Fresh(bars)), t))
      ensures !done || !Evaluates(ts) ==> rows == old(rows) && End() == old(End())
      ensures |old(rows)| <= |rows| && Stakes(rows[|old(rows)|..]) <= old(broker.Available())
      ensures done && Evaluates(ts) ==>
        && Opens(rules, old(Opening()), filled, old(Fresh(bars)), ts, symbols)
        && (ok <==> Sellable(rules, filled, old(Fresh(bars)), ts, symbols))
      ensures done && ok && Evaluates(ts) ==>
        BatchDone(rules, symbols, old(Opening()), filled, End(), old(broker.capital), old(broker.closedTrades),
                  old(Fresh(bars)), candidates, ts, old(broker.blocked))
      ensures done && ok && Evaluates(ts) ==>
        Earns(rules, filled, old(Fresh(bars)), ts, symbols, broker.capital - old(broker.capital))
    {
      hide BatchDone, Earns, Opens, Sellable, Mirrors, Realized;
      ghost var start, capital, closed, blocked := Opening(), broker.capital, broker.closedTrades, broker.blocked;
      filled := map[];
      assert rows[|rows|..] == [] && Sound(rows);
      var bars';
      done, ok, ts, bars' := Admit(bars);
      if done && (evaluationStart.None? || evaluationStart.value <= ts) {
        ok, filled := RunBatch(bars', candidates, ts);
        if ok { BatchEarns(rules, symbols, start, filled, End(), capital, closed, bars', candidates, ts, blocked); }
      }
    }

    /** What a batch leaves. */
    ghost function End(): Finish
      reads this`broker, this`pending, broker
    {
      Finish(broker.openPositions, pending, broker.capital, broker.closedTrades)
    }

    /** Opens, then exits, then new candidates. */
    method RunBatch(bars: Bars, candidates: map<Ticker, Candidate>, ts: int) returns (ok: bool, ghost filled: Book)
      requires Agrees() && Known(bars)
      modifies this`pending, this`pendingRows, this`rows
      modifies broker`openPositions, broker`capital, broker`closedTrades
      ensures Sound(rows) && (ok ==> Agrees())
      ensures |old(rows)| <= |rows| && Stakes(rows[|old(rows)|..]) <= old(broker.Available())
      ensures Opens(rules, old(Opening()), filled, bars, ts, symbols)
        && (ok <==> Sellable(rules, filled, bars, ts, symbols))
      ensures ok ==>
        BatchDone(rules, symbols, old(Opening()), filled, End(), old(broker.capital), old(broker.closedTrades),
                  bars, candidates, ts, old(broker.blocked))
    {
      FillEntries(bars, ts);
      ghost var grown := rows;
      filled := broker.openPositions;
      var exited;
      exited, ok := WatchPositions(bars, ts);
      StakesKept(grown, rows, |old(rows)|);
      if ok { QueueEntries(bars, candidates, ts, exited); }
    }

    /** The heartbeat's local part: near the session's end every open position is marked to leave at the next
        observed close, in memory and journal alike. */
    method MarkSessionClose(ts: int)
      requires Agrees()
      modifies this`rows, broker`openPositions
      ensures Agrees() && SameStakes(old(rows), rows)
      ensures !(rules.flatten && rules.FlattenDue(ts)) ==>
        rows == old(rows) && broker.openPositions == old(broker.openPositions)
      ensures rules.flatten && rules.FlattenDue(ts) ==> Marked(old(broker.openPositions), broker.openPositions, {})
    {
      hide Mirrors, Realized;
      var bounds := rules.session(ts);
      if !rules.flatten || bounds.None? || ts < bounds.value.1 - 5 || bounds.value.1 <= ts { return; }
      ghost var positions := broker.openPositions;
      var rest := broker.openPositions.Keys;
      while rest != {}
        invariant Agrees() && SameStakes(old(rows), rows) && rest <= positions.Keys
        invariant Marked(positions, broker.openPositions, rest)
        decreases |rest|
      {
        var s :| s in rest;
        rest := rest - {s};
        MarkToLeave(s);
      }
    }

    method MarkToLeave(s: Ticker)
      requires Agrees() && s in broker.openPositions
      modifies this`rows, broker`openPositions
      ensures Agrees() && SameStakes(old(rows), rows)
      ensures broker.openPositions == old(broker.openPositions)[s := ToLeave(old(broker.openPositions)[s])]
    {
      var p := broker.openPositions[s].(pendingExit := Some(SessionClose));
      SavedMirrors(broker.openPositions, rows, s, p);
      broker.openPositions := broker.openPositions[s := p];
      rows := rows[p.dbId.value := TradeRow(p, true, 0.0)];
    }

    /** Rebuild memory from the journal, after a restart or a failed batch. Where memory already agreed with the
        journal, the rebuilt capital, positions and pending entries are exactly the ones it had. */
    method Rebuild()
      requires Sound(rows) && broker.policy.Valid() && broker.policy == rules.policy && broker.positionPct == rules.pct
      modifies this`broker, this`pending
      ensures Agrees() && fresh(broker) && !broker.blocked && rows == old(rows) && pendingRows == old(pendingRows)
      ensures old(Agrees()) ==>
        broker.capital == old(broker.capital) && broker.openPositions == old(broker.openPositions)
          && pending == old(pending)
    {
      var realized := SumPnls();
      var rebuilt := new PaperBroker(starting + realized, broker.positionPct, broker.policy);
      var restored := LoadOpenPositions();
      if Agrees() { MirrorsUnique(restored, broker.openPositions, rows); }
      assert forall t :: t in restored ==> Remembered(restored[t], t, rows);
      rebuilt.openPositions := restored;
      broker := rebuilt;
      pending := pendingRows;
    }

    method SumPnls() returns (total: real)
      ensures total == Realized(rows)
    {
      total := 0.0;
      for i := 0 to |rows|
        invariant total == SumR(Pnls(rows)[..i])
      {
        assert Pnls(rows)[..i + 1][..i] == Pnls(rows)[..i];
        total := total + rows[i].pnl;
      }
      assert Pnls(rows)[..|rows|] == Pnls(rows);
    }

    /** The open rows by ticker; a second open row of one ticker would stop the trader, and never occurs. */
    method LoadOpenPositions() returns (positions: map<Ticker, Position>)
      requires Sound(rows)
      ensures Mirrors(positions, rows)
    {
      positions := map[];
      ghost var live :| Mirrors(live, rows);
      for i := 0 to |rows|
        invariant forall t :: t in positions ==> Remembered(positions[t], t, rows) && positions[t].dbId.value < i
        invariant forall k :: 0 <= k < i ==> Journaled(positions, rows[k], k)
      {
        if rows[i].open {
          var p := rows[i].position;
          OpenRow(live, rows, i);
          if p.ticker in positions {
            OpenRow(live, rows, positions[p.ticker].dbId.value);
            assert false;
          }
          positions := positions[p.ticker := p];
        }
      }
    }
  }

  /** An open row is its ticker's remembered position. */
  lemma OpenRow(positions: map<Ticker, Position>, rows: seq<TradeRow>, i: nat)
    requires Mirrors(positions, rows) && i < |rows| && rows[i].open
    ensures var p := rows[i].position;
      p.dbId == Some(i) && p.ticker in positions && positions[p.ticker] == p && rows[i] == TradeRow(p, true, 0.0)
  {
    assert Journaled(positions, rows[i], i);
    assert Remembered(positions[rows[i].position.ticker], rows[i].position.ticker, rows);
  }

  /** The rows added hold what the positions reserve beyond the start, within what was unreserved then. */
  ghost predicate Within(start: Start, before: seq<TradeRow>, rows: seq<TradeRow>, book: Book, unknown: bool) {
    && |before| <= |rows| && rows[..|before|] == before
    && 0.0 <= Stakes(rows[|before|..]) <= Unreserved(start.sizing, start.book, unknown)
    && Reserved(book) == Reserved(start.book) + Stakes(rows[|before|..])
  }

  lemma OneFewer(queue: map<Ticker, Pending>, gone: set<Ticker>, s: Ticker)
    ensures (queue - gone) - {s} == queue - (gone + {s})
    ensures s !in gone ==> Got(queue - gone, s) == Got(queue, s)
  {}

  function Unreserved(sizing: real, book: Book, unknown: bool): real {
    if unknown then 0.0 else Max0(sizing - Reserved(book))
  }

  /** The first `n` symbols with bars have had their turns, each consuming its pending entry. */
  ghost predicate Tally(r: Rules, start: Start, before: seq<TradeRow>, rows: seq<TradeRow>, book: Book,
                        queue: map<Ticker, Pending>, unknown: bool, bars: Bars, ts: int, n: nat)
  {
    && Opens(r, start, book, bars, ts, n) && queue == start.queue - Below(bars, n)
    && Within(start, before, rows, book, unknown)
  }

  lemma TallyNext(r: Rules, start: Start, before: seq<TradeRow>, was: seq<TradeRow>, held: Book,
                  queue: map<Ticker, Pending>,
                  rows: seq<TradeRow>, book: Book, unknown: bool, bars: Bars, ts: int, s: Ticker)
    requires Tally(r, start, before, was, held, queue, unknown, bars, ts, s)
    requires if s in bars then Took(was, held, rows, book, start.sizing, unknown, s) else rows == was && book == held
    requires s in bars && s !in held ==>
      Turn(r, Got(queue, s), start.sizing, start.frozen, held, s, bars[s], ts, Got(book, s))
    ensures Tally(r, start, before, rows, book, if s in bars then queue - {s} else queue, unknown, bars, ts, s + 1)
  {
    BelowNext(bars, s);
    OneFewer(start.queue, Below(bars, s), s);
    if s in bars {
      WithinNext(start, before, was, rows, held, book, unknown);
      OpensNext(r, start, held, book, bars, ts, s);
    } else {
      OpensSkip(r, start, book, bars, ts, s);
    }
  }

  /** At most one row was added, for a new position of the symbol and within what was unreserved. */
  ghost predicate Took(was: seq<TradeRow>, held: Book, rows: seq<TradeRow>, book: Book, sizing: real, unknown: bool,
                       s: Ticker)
  {
    && |was| <= |rows| <= |was| + 1 && rows[..|was|] == was
    && 0.0 <= Stakes(rows[|was|..]) && Reserved(book) == Reserved(held) + Stakes(rows[|was|..])
    && (|rows| > |was| ==> Stakes(rows[|was|..]) <= Unreserved(sizing, held, unknown))
    && (book == held || (s !in held && s in book && book == held[s := book[s]]))
  }

  lemma WithinNext(start: Start, before: seq<TradeRow>, was: seq<TradeRow>, rows: seq<TradeRow>, held: Book,
                   book: Book, unknown: bool)
    requires Within(start, before, was, held, unknown) && |was| <= |rows| <= |was| + 1 && rows[..|was|] == was
    requires 0.0 <= Stakes(rows[|was|..]) && Reserved(book) == Reserved(held) + Stakes(rows[|was|..])
    requires |rows| > |was| ==> Stakes(rows[|was|..]) <= Unreserved(start.sizing, held, unknown)
    ensures Within(start, before, rows, book, unknown)
  {
    StakesJoin(was, rows, |before|);
    assert rows[..|before|] == was[..|before|];
    if |rows| == |was| { assert rows[|was|..] == []; }
  }

  lemma StakesJoin(before: seq<TradeRow>, after: seq<TradeRow>, n: nat)
    requires n <= |before| <= |after| <= |before| + 1 && after[..|before|] == before
    ensures Stakes(after[n..]) == Stakes(before[n..]) + Stakes(after[|before|..])
  {
    if |after| > |before| {
      assert after[n..] == before[n..] + [after[|before|]] && after[|before|..] == [] + [after[|before|]];
      StakesAppend(before[n..], after[|before|]);
      StakesAppend([], after[|before|]);
    } else {
      assert after == before && after[|before|..] == [];
    }
  }
}
