/** Local simulated fills: admission and sizing under a capital cap, exits, and the accounting overlay. Dollars. */
module PaperBroker {
  import opened Common
  import opened Ledger

  /** Symbols are numbered in alphabetical order. */
  type Ticker = nat

  datatype FillPolicy = FillPolicy(spreadBps: real, slippageBps: real, feePerShare: real) {
    predicate Valid() { spreadBps >= 0.0 && slippageBps >= 0.0 && feePerShare >= 0.0 }

    /** Modeled cost of one share at a reference price. */
    function UnitCost(reference: real): real {
      reference * (spreadBps / 2.0 + slippageBps) / 10000.0 + feePerShare
    }

    function Cost(reference: real, shares: int): real {
      shares as real * UnitCost(reference)
    }
  }

  datatype Signal = Signal(
    ticker: Ticker, direction: Option<Direction>, entry: real, stop: real, target: real, entryAt: int)

  datatype ExitReason = StopHit | TargetHit | SessionClose

  datatype Position = Position(
    ticker: Ticker, direction: Direction, entry: real, stop: real, target: real,
    shares: int, entryCost: real, entryAt: int, observed: nat, pendingExit: Option<ExitReason>, dbId: Option<nat>)
  {
    /** Capital the position reserves. */
    function Reserves(): real { entry * shares as real + entryCost }
  }

  datatype Trade = Trade(
    position: Position, exitPrice: real, gross: real, costs: real, pnl: real, reason: ExitReason, exitAt: int)

  predicate Ordered(direction: Direction, stop: real, entry: real, target: real) {
    if direction.Long? then stop < entry < target else target < entry < stop
  }

  predicate Tradable(s: Signal) {
    && s.direction.Some? && s.entry > 0.0 && s.stop > 0.0 && s.target > 0.0
    && Ordered(s.direction.value, s.stop, s.entry, s.target)
  }

  /** Whole shares the budget buys, costs included. */
  function SharesFor(budget: real, unit: real): int
    requires unit > 0.0
  {
    (budget / unit).Floor
  }

  /** The shares bought never cost more than the budget, and less than one more unit is left over. */
  lemma SharesFitBudget(budget: real, unit: real)
    requires unit > 0.0
    ensures 0.0 <= budget - SharesFor(budget, unit) as real * unit < unit
  {
    Quotient(budget, unit);
    WholePart(budget / unit, SharesFor(budget, unit) as real, budget, unit);
  }

  lemma WholePart(q: real, n: real, budget: real, unit: real)
    requires unit > 0.0 && q * unit == budget && n <= q < n + 1.0
    ensures 0.0 <= budget - n * unit < unit
  {
    var left := Leftover(q - n, q, n, unit);
    assert budget - n * unit == left;
  }

  lemma Quotient(budget: real, unit: real)
    requires unit > 0.0
    ensures (budget / unit) * unit == budget
  {}

  /** `rest` of a unit is less than one unit. */
  lemma Leftover(rest: real, q: real, n: real, unit: real) returns (left: real)
    requires rest == q - n && 0.0 <= rest < 1.0 && unit > 0.0
    ensures 0.0 <= left < unit && left == q * unit - n * unit
  {
    left := rest * unit;
    PartOfUnit(rest, unit);
    Distribute(rest, n, unit);
    assert rest + n == q;
  }

  lemma PartOfUnit(x: real, unit: real)
    requires 0.0 <= x < 1.0 && unit > 0.0
    ensures 0.0 <= x * unit < unit
  {
    ScaleUp0(x, unit);
    ScalePositive(1.0 - x, unit);
    assert (1.0 - x) * unit == unit - x * unit;
  }

  lemma Distribute(a: real, b: real, unit: real)
    ensures (a + b) * unit == a * unit + b * unit
  {}

  lemma ScaleUp0(a: real, b: real)
    requires a >= 0.0 && b >= 0.0
    ensures a * b >= 0.0
  {}

  lemma ScalePositive(a: real, b: real)
    requires a > 0.0 && b > 0.0
    ensures a * b > 0.0
  {}

  /** A position of `n` shares at `entry` with its modeled cost reserves `n` times the all-in unit price. */
  lemma ReservesByUnit(entry: real, unit: real, n: real)
    ensures entry * n + n * unit == n * (entry + unit)
  {}

  /** The modeled cost: half the spread and the slippage, in hundredths of a percent of the notional, and the fee of
      every share. */
  lemma CostIs(policy: FillPolicy, reference: real, shares: int)
    ensures policy.Cost(reference, shares) * 20000.0 ==
      reference * shares as real * (policy.spreadBps + 2.0 * policy.slippageBps)
        + 20000.0 * (shares as real * policy.feePerShare)
  {
    var n, bps := shares as real, policy.spreadBps / 2.0 + policy.slippageBps;
    assert reference * bps / 10000.0 * 10000.0 == reference * bps;
    Spread(n, reference * bps / 10000.0, policy.feePerShare);
    Reorder(n, reference, bps);
    Reorder2(reference * n, bps, policy.spreadBps, policy.slippageBps);
  }

  lemma Spread(n: real, perShare: real, fee: real)
    ensures n * (perShare + fee) * 20000.0 == 2.0 * (n * (perShare * 10000.0)) + 20000.0 * (n * fee)
  {}

  lemma Reorder(n: real, reference: real, bps: real)
    ensures n * (reference * bps) == reference * n * bps
  {}

  lemma Reorder2(notional: real, bps: real, spread: real, slippage: real)
    requires bps == spread / 2.0 + slippage
    ensures 2.0 * (notional * bps) == notional * (spread + 2.0 * slippage)
  {
    assert 2.0 * bps == spread + 2.0 * slippage;
  }

  lemma UnitCostNonNegative(policy: FillPolicy, reference: real)
    requires policy.Valid() && reference > 0.0
    ensures policy.UnitCost(reference) >= 0.0
  {
    UnitNonNegative(reference, policy.spreadBps / 2.0 + policy.slippageBps, policy.feePerShare);
  }

  /** Shares bought within a budget reserve no more than it. */
  lemma ReservesWithin(p: Position, budget: real, unit: real)
    requires p.entry > 0.0 && unit >= 0.0 && p.shares >= 0 && p.shares == SharesFor(budget, p.entry + unit)
    requires p.entryCost == p.shares as real * unit
    ensures 0.0 <= p.Reserves() <= budget
  {
    SharesFitBudget(budget, p.entry + unit);
    ReservesByUnit(p.entry, unit, p.shares as real);
    ScaleUp0(p.shares as real, p.entry + unit);
  }

  lemma UnitNonNegative(reference: real, bps: real, fee: real)
    requires reference > 0.0 && bps >= 0.0 && fee >= 0.0
    ensures reference * bps / 10000.0 + fee >= 0.0
  {
    ScaleUp0(reference, bps);
  }

  // --- reservations ---

  function Smallest(tickers: set<Ticker>): (t: Ticker)
    requires tickers != {}
    ensures t in tickers && forall k :: k in tickers ==> t <= k
  {
    SmallestExists(tickers);
    var t :| t in tickers && forall k :: k in tickers ==> t <= k;
    t
  }

  lemma {:induction false} SmallestExists(tickers: set<Ticker>)
    requires tickers != {}
    ensures exists t :: t in tickers && forall k :: k in tickers ==> t <= k
  {
    var x :| x in tickers;
    var rest := tickers - {x};
    if rest == {} {
      assert tickers == {x};
    } else {
      SmallestExists(rest);
      var y :| y in rest && forall k :: k in rest ==> y <= k;
      var least := if x < y then x else y;
      assert forall k :: k in tickers ==> k == x || k in rest;
      assert least in tickers && forall k :: k in tickers ==> least <= k;
    }
  }

  /** Gross notional and entry costs of all open positions. */
  function Reserved(positions: map<Ticker, Position>): real
    decreases |positions|
  {
    if positions.Keys == {} then 0.0
    else
      var t := Smallest(positions.Keys);
      assert t in positions.Keys && (positions - {t}).Keys == positions.Keys - {t};
      assert |positions - {t}| < |positions| by { KeysShrink(positions, t); }
      positions[t].Reserves() + Reserved(positions - {t})
  }

  lemma KeysShrink(positions: map<Ticker, Position>, t: Ticker)
    requires t in positions
    ensures |positions - {t}| < |positions|
  {
    assert positions == (positions - {t})[t := positions[t]];
  }

  /** Any position can be taken out of the sum first. */
  lemma {:induction false} ReservedWithout(positions: map<Ticker, Position>, t: Ticker)
    requires t in positions
    ensures Reserved(positions) == positions[t].Reserves() + Reserved(positions - {t})
    decreases |positions|
  {
    var least := Smallest(positions.Keys);
    if least != t {
      var rest := positions - {least};
      KeysShrink(positions, least);
      ReservedWithout(rest, t);
      KeysShrink(positions, t);
      LeastStays(positions, t);
      assert rest - {t} == (positions - {t}) - {least};
    }
  }

  lemma LeastStays(positions: map<Ticker, Position>, t: Ticker)
    requires t in positions && t != Smallest(positions.Keys)
    ensures (positions - {t}).Keys != {} && Smallest((positions - {t}).Keys) == Smallest(positions.Keys)
  {
    var least := Smallest(positions.Keys);
    assert least in (positions - {t}).Keys;
  }

  lemma ReservedWith(positions: map<Ticker, Position>, t: Ticker, p: Position)
    requires t !in positions
    ensures Reserved(positions[t := p]) == Reserved(positions) + p.Reserves()
  {
    ReservedWithout(positions[t := p], t);
    assert positions[t := p] - {t} == positions;
  }

  // --- exits ---

  datatype Bar = Bar(open: real, high: real, low: real, close: real, at: int)

  /** Stop and target of a position against one bar's range; the stop wins when both are touched. */
  function CheckExit(p: Position, bar: Bar): Option<ExitReason> {
    if p.direction.Long? then
      if bar.low <= p.stop then Some(StopHit) else if bar.high >= p.target then Some(TargetHit) else None
    else
      if bar.high >= p.stop then Some(StopHit) else if bar.low <= p.target then Some(TargetHit) else None
  }

  /** The level, or the open when the bar gapped past it. */
  function ExitPrice(p: Position, reason: ExitReason, bar: Bar): real {
    var level := if reason.StopHit? then p.stop else p.target;
    var lower := p.direction.Long? == reason.StopHit?;
    if lower then MinR(level, bar.open) else if level >= bar.open then level else bar.open
  }

  /** A protective exit fills inside the touching bar's range, a stop never better and a target never worse than
      its level, and a stop wins whenever it is touched. */
  lemma ExitsAreCausal(p: Position, bar: Bar)
    requires bar.low <= bar.open <= bar.high
    ensures var reason := CheckExit(p, bar);
      && (reason.Some? ==>
        reason.value != SessionClose
        && var price := ExitPrice(p, reason.value, bar);
           bar.low <= price <= bar.high
           && p.direction.SignedAmount(price - (if reason.value.StopHit? then p.stop else p.target))
              * (if reason.value.StopHit? then -1.0 else 1.0) >= 0.0)
      && (bar.low <= p.stop <= bar.high ==> reason == Some(StopHit))
  {}

  /** A position is left alone exactly as long as the whole bar lies strictly between its two levels. Otherwise it
      leaves at the stop unless the bar stays on the winning side of it, and at the level that was reached, or at
      the open if that is already beyond it. */
  lemma ExitsAreTouches(p: Position, bar: Bar)
    requires bar.low <= bar.open <= bar.high && Ordered(p.direction, p.stop, p.entry, p.target)
    ensures var reason := CheckExit(p, bar);
      && (reason.None? <==> MinR(p.stop, p.target) < bar.low && bar.high < MaxR(p.stop, p.target))
      && (reason == Some(StopHit) <==>
        p.direction.SignedAmount(bar.low - p.stop) <= 0.0 || p.direction.SignedAmount(bar.high - p.stop) <= 0.0)
      && (reason == Some(TargetHit) ==>
        p.direction.SignedAmount(bar.low - p.target) >= 0.0 || p.direction.SignedAmount(bar.high - p.target) >= 0.0)
    ensures ExitPrice(p, StopHit, bar) == if p.direction.SignedAmount(bar.open - p.stop) < 0.0 then bar.open else p.stop
    ensures ExitPrice(p, TargetHit, bar) ==
      if p.direction.SignedAmount(bar.open - p.target) > 0.0 then bar.open else p.target
  {}

  // --- admission ---

  /** What a new position may cost: a share of the sizing capital, within what no open position reserves. */
  function BudgetOf(sizing: real, pct: real, positions: map<Ticker, Position>): real {
    MinR(sizing * pct, Max0(sizing - Reserved(positions)))
  }

  /** The shares bought are the most that fit: `n` of them cost no more than the share `pct` of the sizing capital and,
      with what open positions reserve, no more than all of it, exactly for the `n` up to that number. */
  lemma SharesAreMost(sizing: real, pct: real, positions: map<Ticker, Position>, unit: real, n: int)
    requires unit > 0.0 && n >= 1
    ensures n <= SharesFor(BudgetOf(sizing, pct, positions), unit) <==>
      n as real * unit <= sizing * pct && Reserved(positions) + n as real * unit <= sizing
  {
    var budget, cost := BudgetOf(sizing, pct, positions), n as real * unit;
    SharesFitBudget(budget, unit);
    var bought := SharesFor(budget, unit);
    ScalePositive(n as real, unit);
    if n <= bought {
      ScaleUp0((bought - n) as real, unit);
      Distribute((bought - n) as real, n as real, unit);
    } else {
      ScaleUp0((n - bought - 1) as real, unit);
      Distribute((n - bought - 1) as real, bought as real + 1.0, unit);
      Distribute(bought as real, 1.0, unit);
    }
    assert n <= bought <==> cost <= budget;
  }

  /** A tradable signal without a position buys at least one whole share within the budget. */
  predicate Admitted(s: Signal, positions: map<Ticker, Position>, sizing: real, pct: real, policy: FillPolicy) {
    && Tradable(s) && s.ticker !in positions
    && s.entry + policy.UnitCost(s.entry) > 0.0
    && SharesFor(BudgetOf(sizing, pct, positions), s.entry + policy.UnitCost(s.entry)) >= 1
  }

  class PaperBroker {
    var capital: real
    const positionPct: real
    const policy: FillPolicy
    var openPositions: map<Ticker, Position>
    var closedTrades: seq<Trade>
    var blocked: bool
    /** Accounting overlay in cents, apart from trade capital. */
    var overlay: Amounts
    var unavailable: nat

    ghost predicate Valid()
      reads this`openPositions
    {
      policy.Valid() && forall t :: t in openPositions ==> openPositions[t].ticker == t
    }

    constructor (startingCapital: real, pct: real, fillPolicy: FillPolicy)
      requires fillPolicy.Valid()
      ensures Valid() && capital == startingCapital && openPositions == map[] && closedTrades == [] && !blocked
      ensures overlay == ZERO && unavailable == 0 && policy == fillPolicy && positionPct == pct
    {
      capital, positionPct, policy := startingCapital, pct, fillPolicy;
      openPositions, closedTrades, blocked := map[], [], false;
      overlay, unavailable := ZERO, 0;
    }

    /** Settled accounting cash funds the portfolio; known obligations reserve capital at once. */
    function SizingCapital(): real
      reads this`capital, this`overlay
    {
      capital + (overlay.cash - overlay.payable - overlay.borrow - overlay.repayment) / 100.0
    }

    /** Capital no open position reserves. */
    function Available(): real
      reads this`capital, this`overlay, this`unavailable, this`openPositions
    {
      if unavailable > 0 then 0.0 else Max0(SizingCapital() - Reserved(openPositions))
    }

    /** New allocations are frozen. */
    predicate Frozen()
      reads this`blocked, this`unavailable
    {
      blocked || unavailable > 0
    }

    /** Whether a signal is filled. */
    predicate Fills(s: Signal)
      requires policy.Valid()
      reads this
    {
      !Frozen() && Admitted(s, openPositions, SizingCapital(), positionPct, policy)
    }

    /** The whole shares the budget buys at a price, and the cost of each. */
    method Size(entry: real) returns (shares: int, unit: real)
      requires policy.Valid() && entry > 0.0
      ensures unit == policy.UnitCost(entry) >= 0.0
      ensures shares == SharesFor(BudgetOf(SizingCapital(), positionPct, openPositions), entry + unit)
    {
      UnitCostNonNegative(policy, entry);
      var sizing := capital + (overlay.cash - overlay.payable - overlay.borrow - overlay.repayment) / 100.0;
      var share, free := sizing * positionPct, sizing - Reserved(openPositions);
      var available := if free > 0.0 then free else 0.0;
      var budget := if share <= available then share else available;
      assert budget == BudgetOf(SizingCapital(), positionPct, openPositions);
      unit := entry * (policy.spreadBps / 2.0 + policy.slippageBps) / 10000.0 + policy.feePerShare;
      assert unit == policy.UnitCost(entry);
      shares := (budget / (entry + unit)).Floor;
    }

    /** Fill an admitted entry in whole shares the budget covers; anything else changes nothing. */
    method OpenPosition(s: Signal) returns (filled: Option<Position>)
      requires Valid()
      modifies this`openPositions
      ensures Valid() && (filled.Some? <==> old(Fills(s)))
      ensures filled.None? ==> openPositions == old(openPositions)
      ensures filled.Some? ==>
        var p := filled.value;
        && openPositions == old(openPositions)[s.ticker := p]
        && p.ticker == s.ticker && Some(p.direction) == s.direction && p.entry == s.entry && p.stop == s.stop
        && p.target == s.target
        && p.shares == old(SharesFor(BudgetOf(SizingCapital(), positionPct, openPositions),
                                     s.entry + policy.UnitCost(s.entry)))
        && p.shares >= 1 && p.entryCost == policy.Cost(p.entry, p.shares)
        && p.entryAt == s.entryAt && p.dbId.None? && p.pendingExit.None? && p.observed == 0
        && 0.0 <= p.Reserves() <= old(Available())
        && Reserved(openPositions) == Reserved(old(openPositions)) + p.Reserves()
    {
      hide SharesFor, Reserved, FillPolicy.UnitCost;
      if blocked || s.direction.None? || s.ticker in openPositions { return None; }
      if s.entry <= 0.0 || s.stop <= 0.0 || s.target <= 0.0 { return None; }
      var ordered := if s.direction.value == Long then s.stop < s.entry && s.entry < s.target
                     else s.target < s.entry && s.entry < s.stop;
      if !ordered { return None; }
      if unavailable > 0 { return None; }
      var shares, unit := Size(s.entry);
      if shares < 1 { return None; }
      var cost := shares as real * unit;
      var p := Position(s.ticker, s.direction.value, s.entry, s.stop, s.target, shares, cost, s.entryAt, 0, None, None);
      ReservesWithin(p, BudgetOf(SizingCapital(), positionPct, openPositions), unit);
      ReservedWith(openPositions, s.ticker, p);
      openPositions := openPositions[s.ticker := p];
      filled := Some(p);
    }

    /** Close at an observed price; None is a ValueError. */
    method ClosePosition(ticker: Ticker, price: real, reason: ExitReason, exitAt: int) returns (closed: Option<Trade>)
      requires Valid() && ticker in openPositions
      modifies this`openPositions, this`capital, this`closedTrades
      ensures Valid() && (closed.Some? <==> price > 0.0)
      ensures closed.None? ==>
        capital == old(capital) && openPositions == old(openPositions) && closedTrades == old(closedTrades)
      ensures closed.Some? ==>
        && closed.value == Closing(old(openPositions)[ticker], policy, price, reason, exitAt)
        && capital == old(capital) + closed.value.pnl
        && openPositions == old(openPositions) - {ticker}
        && closedTrades == old(closedTrades) + [closed.value]
      ensures closed.Some? ==> Abs(capital - old(capital) - Earned(old(openPositions)[ticker], policy, price)) <= 0.005
    {
      var p := openPositions[ticker];
      if price <= 0.0 { return None; }
      var gross := (if p.direction.Long? then price - p.entry else p.entry - price) * p.shares as real;
      var costs := p.entryCost
        + p.shares as real * (price * (policy.spreadBps / 2.0 + policy.slippageBps) / 10000.0 + policy.feePerShare);
      ClosingIs(p, policy, price, reason, exitAt, gross, costs);
      ResultIsEarned(p, policy, price, reason, exitAt);
      var trade := Trade(p, price, RoundEven2(gross), RoundEven2(costs), RoundEven2(gross - costs), reason, exitAt);
      capital := capital + trade.pnl;
      openPositions := openPositions - {ticker};
      closedTrades := closedTrades + [trade];
      closed := Some(trade);
    }

    /** Apply one posting the ledger inserted, account by account; false is a ValueError, raised at the
        first account that would go negative, with the accounts before it already written. */
    method ApplyAccountingPosting(p: Posting) returns (ok: bool)
      modifies this`overlay, this`unavailable, this`blocked
      ensures ok <==> Applied(Overlay(old(overlay), old(unavailable)), p).Ok?
      ensures ok ==> Overlay(overlay, unavailable) == Applied(Overlay(old(overlay), old(unavailable)), p).value
      ensures blocked == (old(blocked) || p.unavailable)
      ensures !ok ==> unavailable == old(unavailable) && overlay == Refused(old(overlay), p.amounts)
      ensures ok ==>
        SizingCapital() - old(SizingCapital())
          == (if p.unavailable then 0.0
              else (p.amounts.cash - p.amounts.payable - p.amounts.borrow - p.amounts.repayment) / 100.0)
    {
      if p.unavailable {
        unavailable, blocked := unavailable + 1, true;
        return true;
      }
      var d := p.amounts;
      overlay := overlay.(cash := overlay.cash + d.cash);
      if overlay.receivable + d.receivable < 0.0 { return false; }
      overlay := overlay.(receivable := overlay.receivable + d.receivable);
      if overlay.payable + d.payable < 0.0 { return false; }
      overlay := overlay.(payable := overlay.payable + d.payable);
      if overlay.borrow + d.borrow < 0.0 { return false; }
      overlay := overlay.(borrow := overlay.borrow + d.borrow);
      if overlay.refund + d.refund < 0.0 { return false; }
      overlay := overlay.(refund := overlay.refund + d.refund);
      if overlay.repayment + d.repayment < 0.0 { return false; }
      overlay := overlay.(repayment := overlay.repayment + d.repayment);
      ok := true;
    }

    /** Rebuild the overlay from a ledger summary; false is a ValueError, with the accounts before the
        negative one already replaced. */
    method RestoreAccountingState(balances: Amounts, count: nat) returns (ok: bool)
      modifies this`overlay, this`unavailable, this`blocked
      ensures ok <==> Restored(balances, count).Ok?
      ensures ok ==>
        Overlay(overlay, unavailable) == Restored(balances, count).value && blocked == (old(blocked) || count > 0)
      ensures !ok ==>
        overlay == balances.Over(old(overlay), balances.FirstNegative())
        && unavailable == old(unavailable) && blocked == old(blocked)
    {
      overlay := overlay.(cash := balances.cash);
      if balances.receivable < 0.0 { return false; }
      overlay := overlay.(receivable := balances.receivable);
      if balances.payable < 0.0 { return false; }
      overlay := overlay.(payable := balances.payable);
      if balances.borrow < 0.0 { return false; }
      overlay := overlay.(borrow := balances.borrow);
      if balances.refund < 0.0 { return false; }
      overlay := overlay.(refund := balances.refund);
      if balances.repayment < 0.0 { return false; }
      overlay := overlay.(repayment := balances.repayment);
      unavailable := count;
      if count > 0 { blocked := true; }
      ok := true;
    }
  }

  function GrossOf(p: Position, price: real): real { p.direction.SignedAmount(price - p.entry) * p.shares as real }

  function CostsOf(p: Position, policy: FillPolicy, price: real): real { p.entryCost + policy.Cost(price, p.shares) }

  /** The trade closing `p` leaves behind. */
  function Closing(p: Position, policy: FillPolicy, price: real, reason: ExitReason, exitAt: int): Trade {
    var gross, costs := GrossOf(p, price), CostsOf(p, policy, price);
    Trade(p, price, RoundEven2(gross), RoundEven2(costs), RoundEven2(gross - costs), reason, exitAt)
  }

  lemma ClosingIs(p: Position, policy: FillPolicy, price: real, reason: ExitReason, exitAt: int, gross: real,
                  costs: real)
    requires gross == (if p.direction.Long? then price - p.entry else p.entry - price) * p.shares as real
    requires costs == p.entryCost
      + p.shares as real * (price * (policy.spreadBps / 2.0 + policy.slippageBps) / 10000.0 + policy.feePerShare)
    ensures Closing(p, policy, price, reason, exitAt)
      == Trade(p, price, RoundEven2(gross), RoundEven2(costs), RoundEven2(gross - costs), reason, exitAt)
  {
    hide RoundEven2;
    assert p.direction.SignedAmount(price - p.entry) == if p.direction.Long? then price - p.entry else p.entry - price;
    assert GrossOf(p, price) == gross;
    assert CostsOf(p, policy, price) == costs;
  }

  /** What a position has earned when it is sold at a price: a LONG what the price rose, a SHORT what it fell, for every
      share, less both costs. */
  function Earned(p: Position, policy: FillPolicy, price: real): real {
    (if p.direction.Long? then p.shares as real * price - p.shares as real * p.entry
     else p.shares as real * p.entry - p.shares as real * price) - p.entryCost - policy.Cost(price, p.shares)
  }

  /** The booked result is what was earned, to the nearest cent. */
  lemma ResultIsEarned(p: Position, policy: FillPolicy, price: real, reason: ExitReason, exitAt: int)
    ensures var trade := Closing(p, policy, price, reason, exitAt);
      && Abs(trade.pnl - Earned(p, policy, price)) <= 0.005
      && Abs(trade.gross - trade.costs - trade.pnl) <= 0.015
  {
    hide GrossOf, CostsOf, Earned, RoundEven2;
    EarnedIsNet(p, policy, price);
    NearCents(GrossOf(p, price), CostsOf(p, policy, price));
  }

  lemma EarnedIsNet(p: Position, policy: FillPolicy, price: real)
    ensures GrossOf(p, price) - CostsOf(p, policy, price) == Earned(p, policy, price)
  {
    GrossIs(p, price);
    hide GrossOf, FillPolicy.Cost;
  }

  lemma NearCents(gross: real, costs: real)
    ensures Abs(RoundEven2(gross - costs) - (gross - costs)) <= 0.005
    ensures Abs(RoundEven2(gross) - RoundEven2(costs) - RoundEven2(gross - costs)) <= 0.015
  {
    hide RoundEven2;
    var g, c, r := RoundEven2(gross), RoundEven2(costs), RoundEven2(gross - costs);
    assert Abs(g - gross) <= 0.005 && Abs(c - costs) <= 0.005 && Abs(r - (gross - costs)) <= 0.005;
  }

  lemma GrossIs(p: Position, price: real)
    ensures var n := p.shares as real;
      GrossOf(p, price) == if p.direction.Long? then n * price - n * p.entry else n * p.entry - n * price
  {
    Multiplied(p.shares as real, price, p.entry);
    Multiplied(p.shares as real, p.entry, price);
    assert -(price - p.entry) == p.entry - price;
  }

  lemma Multiplied(n: real, a: real, b: real)
    ensures (a - b) * n == n * a - n * b
  {}

  /** Without costs a LONG and a SHORT of the same shares at the same prices book opposite results. */
  lemma OppositesCancel(p: Position, q: Position, policy: FillPolicy, price: real, reason: ExitReason, exitAt: int)
    requires p.direction.Long? && q.direction.Short? && p.shares == q.shares && p.entry == q.entry
    requires p.entryCost == 0.0 && q.entryCost == 0.0
    requires policy.spreadBps == 0.0 && policy.slippageBps == 0.0 && policy.feePerShare == 0.0
    ensures Closing(p, policy, price, reason, exitAt).pnl + Closing(q, policy, price, reason, exitAt).pnl == 0.0
  {
    FreeOfCost(policy, price, p.shares);
    Opposite(price - p.entry, p.shares as real);
    assert GrossOf(q, price) == -GrossOf(p, price);
    hide GrossOf, RoundEven2, FillPolicy.Cost;
    assert CostsOf(p, policy, price) == 0.0 && CostsOf(q, policy, price) == 0.0;
    RoundEven2Negates(GrossOf(p, price));
  }

  lemma Opposite(x: real, n: real)
    ensures (-x) * n == -(x * n)
  {}

  lemma FreeOfCost(policy: FillPolicy, price: real, shares: int)
    requires policy.spreadBps == 0.0 && policy.slippageBps == 0.0 && policy.feePerShare == 0.0
    ensures policy.Cost(price, shares) == 0.0
  {
    assert policy.UnitCost(price) == price * 0.0 / 10000.0 + 0.0;
    assert policy.UnitCost(price) == 0.0;
  }

  // --- the overlay against the ledger ---

  datatype Overlay = Overlay(amounts: Amounts, unavailable: nat)

  /** One inserted posting on the overlay: unavailable ones are counted, the others must keep every account sound. */
  function Applied(o: Overlay, p: Posting): Result<Overlay> {
    if p.unavailable then Ok(o.(unavailable := o.unavailable + 1))
    else if o.amounts.Plus(p.amounts).Sound() then Ok(o.(amounts := o.amounts.Plus(p.amounts)))
    else Err
  }

  /** The accounts a refused posting leaves behind. */
  function Refused(was: Amounts, delta: Amounts): Amounts {
    was.Plus(delta).Over(was, was.Plus(delta).FirstNegative())
  }

  /** A refused posting leaves the overlay alone exactly when it moves no account before the one that fails. */
  lemma RefusalIsCleanExactly(was: Amounts, delta: Amounts)
    requires was.Sound() && !was.Plus(delta).Sound()
    ensures var n := was.Plus(delta).FirstNegative();
      Refused(was, delta) == was <==>
        delta.cash == 0.0 && (n > 1 ==> delta.receivable == 0.0) && (n > 2 ==> delta.payable == 0.0)
        && (n > 3 ==> delta.borrow == 0.0) && (n > 4 ==> delta.refund == 0.0)
  {}

  function Restored(balances: Amounts, count: nat): Result<Overlay> {
    if balances.Sound() then Ok(Overlay(balances, count)) else Err
  }

  /** The overlay after the ledger's rows in order, on top of `gaps` known coverage gaps. */
  function Running(rows: seq<Posting>, gaps: nat): Result<Overlay> {
    if rows == [] then Ok(Overlay(ZERO, gaps))
    else
      var front := Running(rows[..|rows| - 1], gaps);
      if front.Err? then Err else Applied(front.value, rows[|rows| - 1])
  }

  /** What the ledger sums over postings the overlay skips. */
  function SkippedBalances(rows: seq<Posting>): Amounts {
    if rows == [] then ZERO
    else
      var front, last := SkippedBalances(rows[..|rows| - 1]), rows[|rows| - 1];
      if last.unavailable then front.Plus(last.amounts) else front
  }

  lemma {:induction false} RunningIsUnskipped(rows: seq<Posting>, gaps: nat)
    requires Running(rows, gaps).Ok?
    ensures AddUp(Running(rows, gaps).value.amounts, SkippedBalances(rows), Balances(rows))
  {
    if rows == [] {
    } else {
      RunningIsUnskipped(rows[..|rows| - 1], gaps);
      var front, last := rows[..|rows| - 1], rows[|rows| - 1];
      AppliedAdds(Running(front, gaps).value, SkippedBalances(front), Balances(front), last);
    }
  }

  /** A posting moves the overlay or is skipped, and the ledger sums it either way. */
  lemma AppliedAdds(before: Overlay, skipped: Amounts, balances: Amounts, p: Posting)
    requires AddUp(before.amounts, skipped, balances) && Applied(before, p).Ok?
    ensures var more := if p.unavailable then skipped.Plus(p.amounts) else skipped;
      AddUp(Applied(before, p).value.amounts, more, balances.Plus(p.amounts))
  {}

  lemma {:induction false} RunningIsSound(rows: seq<Posting>, gaps: nat)
    requires Running(rows, gaps).Ok?
    ensures Running(rows, gaps).value.amounts.Sound()
    ensures Running(rows, gaps).value.unavailable == UnavailableCount(rows) + gaps
  {
    if rows == [] {
    } else {
      RunningIsSound(rows[..|rows| - 1], gaps);
    }
  }

  /** The broker's running overlay equals the one restored from the ledger summary exactly when the postings
      marked unavailable carry amounts that sum to zero in every account. */
  lemma {:induction false} OverlayAgreesExactly(rows: seq<Posting>, gaps: nat)
    requires Running(rows, gaps).Ok?
    ensures Restored(Balances(rows), UnavailableCount(rows) + gaps) == Running(rows, gaps)
      <==> SkippedBalances(rows) == ZERO
  {
    hide Running, SkippedBalances, Balances, UnavailableCount;
    RunningIsUnskipped(rows, gaps);
    RunningIsSound(rows, gaps);
    SkippedDecides(Running(rows, gaps), SkippedBalances(rows), Balances(rows), UnavailableCount(rows) + gaps);
  }

  lemma SkippedDecides(running: Result<Overlay>, skipped: Amounts, balances: Amounts, count: nat)
    requires running.Ok? && running.value.unavailable == count
    requires AddUp(running.value.amounts, skipped, balances) && running.value.amounts.Sound()
    ensures Restored(balances, count) == running <==> skipped == ZERO
  {}
}
