/** Two independent valuations of a trade list at a series of marks, and the drawdown of a curve. Exact dollars. */
module Valuation {
  import opened Common

  datatype Trade = Trade(
    ticker: nat, direction: Direction, shares: real, entry: real, entryCost: real, entryAt: int,
    exitAt: Option<int>, exitPrice: Option<real>, pnl: Option<real>, costs: Option<real>)

  /** Forward-filled marks: prices[ticker][k] at time times[k]; None is not priced yet. */
  datatype Marks = Marks(times: seq<int>, prices: seq<seq<Option<real>>>) {
    predicate Covers(trades: seq<Trade>) {
      forall t :: 0 <= t < |trades| ==> trades[t].ticker < |prices| && |prices[trades[t].ticker]| == |times|
    }
  }

  predicate Entered(t: Trade, at: int) { at >= t.entryAt }

  predicate Closed(t: Trade, at: int) { t.exitAt.Some? && at >= t.exitAt.value }

  predicate Active(t: Trade, at: int) { Entered(t, at) && !Closed(t, at) }

  /** A closed trade carries its exit price and saved result. */
  predicate Complete(t: Trade) { t.exitAt.Some? ==> t.exitPrice.Some? && t.pnl.Some? }

  predicate Priced(t: Trade, m: Marks, k: nat)
    requires k < |m.times| && m.Covers([t])
  {
    assert [t][0] == t;
    Active(t, m.times[k]) ==> m.prices[t.ticker][k].Some?
  }

  predicate Valued(t: Trade, m: Marks)
    requires m.Covers([t])
  {
    Complete(t) && forall k :: 0 <= k < |m.times| ==> Priced(t, m, k)
  }

  /** Principal of the trade at a price, signed by side. */
  function Principal(t: Trade, price: real): real { t.direction.SignedAmount(price * t.shares) }

  /** What the marked-equity loop adds for one trade at one mark. */
  function MarkedValue(t: Trade, at: int, price: Option<real>): real {
    (if Active(t, at) && price.Some? then t.direction.SignedAmount((price.value - t.entry) * t.shares) - t.entryCost
     else 0.0)
    + if Closed(t, at) && t.pnl.Some? then t.pnl.value else 0.0
  }

  function CostsOf(t: Trade): real { if t.costs.Some? then t.costs.value else t.entryCost }

  /** What the cash, market-value and bridge arrays hold for one trade at one mark. */
  function CashValue(t: Trade, at: int): real {
    (if Entered(t, at) then -(Principal(t, t.entry) + t.entryCost) else 0.0)
    + if Closed(t, at) && t.exitPrice.Some? then Principal(t, t.exitPrice.value) - (CostsOf(t) - t.entryCost) else 0.0
  }

  function MarketValue(t: Trade, at: int, price: Option<real>): real {
    if Active(t, at) && price.Some? then Principal(t, price.value) else 0.0
  }

  function Bridge(t: Trade, at: int): real {
    if Closed(t, at) && t.exitPrice.Some? && t.pnl.Some? then
      t.pnl.value - (t.direction.SignedAmount((t.exitPrice.value - t.entry) * t.shares) - CostsOf(t))
    else 0.0
  }

  function PriceAt(t: Trade, m: Marks, k: nat): Option<real> {
    if t.ticker < |m.prices| && k < |m.prices[t.ticker]| then m.prices[t.ticker][k] else None
  }

  function MarkedSum(trades: seq<Trade>, m: Marks, k: nat): real
    requires k < |m.times|
  {
    if trades == [] then 0.0
    else
      var last := trades[|trades| - 1];
      MarkedSum(trades[..|trades| - 1], m, k) + MarkedValue(last, m.times[k], PriceAt(last, m, k))
  }

  function CashSum(trades: seq<Trade>, m: Marks, k: nat): real
    requires k < |m.times|
  {
    if trades == [] then 0.0
    else
      var last := trades[|trades| - 1];
      CashSum(trades[..|trades| - 1], m, k)
        + CashValue(last, m.times[k]) + MarketValue(last, m.times[k], PriceAt(last, m, k)) + Bridge(last, m.times[k])
  }

  // --- the loops ---

  /** Add one trade to the equity array; false is a position without a valuation price. */
  method AddMarked(equity: array<real>, t: Trade, m: Marks) returns (ok: bool)
    requires equity.Length == |m.times| && m.Covers([t])
    modifies equity
    ensures ok <==> Valued(t, m)
    ensures ok ==> forall k :: 0 <= k < equity.Length ==>
      equity[k] == old(equity[k]) + MarkedValue(t, m.times[k], PriceAt(t, m, k))
  {
    assert [t][0] == t;
    if t.exitAt.Some? && (t.exitPrice.None? || t.pnl.None?) { return false; }
    for k := 0 to equity.Length
      invariant forall i :: 0 <= i < k ==> Priced(t, m, i)
      invariant forall i :: 0 <= i < equity.Length ==>
        equity[i] == old(equity[i]) + if i < k then MarkedValue(t, m.times[i], PriceAt(t, m, i)) else 0.0
    {
      var at, price := m.times[k], m.prices[t.ticker][k];
      if t.entryAt <= at && (t.exitAt.None? || at < t.exitAt.value) {
        if price.None? {
          assert !Priced(t, m, k);
          return false;
        }
        var gain := (price.value - t.entry) * t.shares;
        equity[k] := equity[k] + (if t.direction == Long then gain else -gain) - t.entryCost;
      }
      if t.exitAt.Some? && t.exitAt.value <= at { equity[k] := equity[k] + t.pnl.value; }
    }
    ok := true;
  }

  predicate AllValued(trades: seq<Trade>, m: Marks)
    requires m.Covers(trades)
  {
    forall t :: 0 <= t < |trades| ==> ValuedAt(trades, m, t)
  }

  predicate ValuedAt(trades: seq<Trade>, m: Marks, t: nat)
    requires m.Covers(trades) && t < |trades|
  {
    Valued(trades[t], m)
  }

  method MarkedEquity(trades: seq<Trade>, m: Marks, capital: real) returns (equity: array<real>, ok: bool)
    requires m.Covers(trades)
    ensures fresh(equity) && equity.Length == |m.times| && (ok <==> AllValued(trades, m))
    ensures ok ==> forall k :: 0 <= k < equity.Length ==> equity[k] == capital + MarkedSum(trades, m, k)
  {
    equity := new real[|m.times|](_ => capital);
    for i := 0 to |trades|
      invariant forall t :: 0 <= t < i ==> ValuedAt(trades, m, t)
      invariant forall k :: 0 <= k < equity.Length ==> equity[k] == capital + MarkedSum(trades[..i], m, k)
    {
      assert trades[..i + 1][..i] == trades[..i];
      ok := AddMarked(equity, trades[i], m);
      if !ok { assert !ValuedAt(trades, m, i); return; }
    }
    assert trades[..|trades|] == trades;
    ok := true;
  }

  method SignedValue(t: Trade, price: real) returns (value: real)
    ensures value == Principal(t, price)
  {
    value := price * t.shares;
    if t.direction == Short { value := -value; }
  }

  /** What one trade adds to the three arrays at a mark; `missing` if it is held and not priced. */
  method Flows(t: Trade, at: int, price: Option<real>)
    returns (missing: bool, cash: real, market: real, bridge: real)
    requires Complete(t)
    ensures missing <==> Active(t, at) && price.None?
    ensures !missing ==> cash == CashValue(t, at) && market == MarketValue(t, at, price) && bridge == Bridge(t, at)
  {
    missing, cash, market, bridge := false, 0.0, 0.0, 0.0;
    var costs := if t.costs.None? then t.entryCost else t.costs.value;
    var entered, closed := t.entryAt <= at, t.exitAt.Some? && t.exitAt.value <= at;
    if entered {
      var paid := SignedValue(t, t.entry);
      cash := cash - paid - t.entryCost;
    }
    if entered && !closed {
      if price.None? { return true, 0.0, 0.0, 0.0; }
      market := SignedValue(t, price.value);
    }
    if closed {
      var proceeds := SignedValue(t, t.exitPrice.value);
      cash := cash + proceeds - (costs - t.entryCost);
      var gain := SignedValue(t, t.exitPrice.value - t.entry);
      bridge := t.pnl.value - (gain - costs);
    }
  }

  /** Add one trade to the three arrays; false is a missing price or an incomplete closed trade. */
  method AddCash(cash: array<real>, market: array<real>, bridge: array<real>, t: Trade, m: Marks) returns (ok: bool)
    requires cash.Length == market.Length == bridge.Length == |m.times| && m.Covers([t])
    requires cash != market && market != bridge && cash != bridge
    modifies cash, market, bridge
    ensures ok <==> Valued(t, m)
    ensures ok ==> forall k :: 0 <= k < cash.Length ==>
      && cash[k] == old(cash[k]) + CashValue(t, m.times[k])
      && market[k] == old(market[k]) + MarketValue(t, m.times[k], PriceAt(t, m, k))
      && bridge[k] == old(bridge[k]) + Bridge(t, m.times[k])
  {
    assert [t][0] == t;
    if t.exitAt.Some? && (t.exitPrice.None? || t.pnl.None?) { return false; }
    hide CashValue, MarketValue, Bridge;
    for k := 0 to cash.Length
      invariant forall i :: 0 <= i < k ==> Priced(t, m, i)
      invariant forall i :: 0 <= i < cash.Length ==>
        cash[i] == old(cash[i]) + if i < k then CashValue(t, m.times[i]) else 0.0
      invariant forall i :: 0 <= i < cash.Length ==>
        market[i] == old(market[i]) + if i < k then MarketValue(t, m.times[i], PriceAt(t, m, i)) else 0.0
      invariant forall i :: 0 <= i < cash.Length ==>
        bridge[i] == old(bridge[i]) + if i < k then Bridge(t, m.times[i]) else 0.0
    {
      var at, price := m.times[k], m.prices[t.ticker][k];
      var missing, paid, held, bridged := Flows(t, at, price);
      if missing {
        assert !Priced(t, m, k);
        return false;
      }
      cash[k], market[k], bridge[k] := cash[k] + paid, market[k] + held, bridge[k] + bridged;
    }
    ok := true;
  }

  method CashPrincipalEquity(trades: seq<Trade>, m: Marks, capital: real) returns (equity: array<real>, ok: bool)
    requires m.Covers(trades)
    ensures fresh(equity) && equity.Length == |m.times| && (ok <==> AllValued(trades, m))
    ensures ok ==> forall k :: 0 <= k < equity.Length ==> equity[k] == capital + CashSum(trades, m, k)
  {
    var n := |m.times|;
    equity := new real[n](_ => 0.0);
    var cash, market, bridge := new real[n](_ => capital), new real[n](_ => 0.0), new real[n](_ => 0.0);
    for i := 0 to |trades|
      invariant forall t :: 0 <= t < i ==> ValuedAt(trades, m, t)
      invariant forall k :: 0 <= k < n ==> cash[k] + market[k] + bridge[k] == capital + CashSum(trades[..i], m, k)
    {
      assert trades[..i + 1][..i] == trades[..i];
      ok := AddCash(cash, market, bridge, trades[i], m);
      if !ok { assert !ValuedAt(trades, m, i); return; }
    }
    assert trades[..|trades|] == trades;
    for k := 0 to n
      invariant forall i :: 0 <= i < k ==> equity[i] == capital + CashSum(trades, m, i)
      invariant forall i :: 0 <= i < n ==> cash[i] + market[i] + bridge[i] == capital + CashSum(trades, m, i)
    {
      equity[k] := cash[k] + market[k] + bridge[k];
    }
    ok := true;
  }

  // --- the two valuations ---

  lemma Spread(a: real, b: real, shares: real)
    ensures (a - b) * shares == a * shares - b * shares
  {}

  /** Entry principal and cost of a trade that a mark sees closed before it was entered. */
  function Backwards(t: Trade, at: int): real {
    if Closed(t, at) && !Entered(t, at) then Principal(t, t.entry) + t.entryCost else 0.0
  }

  /** At every mark the two valuations of one trade differ by its entry outlay exactly while it is closed but not
      yet entered, and by nothing otherwise, whether or not its costs are known. */
  lemma OneTradeAgrees(t: Trade, at: int, price: Option<real>)
    requires Complete(t) && (Active(t, at) ==> price.Some?)
    ensures CashValue(t, at) + MarketValue(t, at, price) + Bridge(t, at) == MarkedValue(t, at, price) + Backwards(t, at)
  {
    if price.Some? { Spread(price.value, t.entry, t.shares); }
    if t.exitPrice.Some? { Spread(t.exitPrice.value, t.entry, t.shares); }
  }

  function BackwardsSum(trades: seq<Trade>, at: int): real {
    if trades == [] then 0.0 else BackwardsSum(trades[..|trades| - 1], at) + Backwards(trades[|trades| - 1], at)
  }

  lemma {:induction false} ValuationsDifferBy(trades: seq<Trade>, m: Marks, k: nat)
    requires m.Covers(trades) && AllValued(trades, m) && k < |m.times|
    ensures CashSum(trades, m, k) == MarkedSum(trades, m, k) + BackwardsSum(trades, m.times[k])
  {
    if trades == [] {
    } else {
      var front, last := trades[..|trades| - 1], trades[|trades| - 1];
      forall t | 0 <= t < |front| ensures ValuedAt(front, m, t) { assert ValuedAt(trades, m, t); }
      ValuationsDifferBy(front, m, k);
      assert ValuedAt(trades, m, |trades| - 1) && Priced(last, m, k);
      OneTradeAgrees(last, m.times[k], PriceAt(last, m, k));
    }
  }

  /** For every trade list the marked-equity loop equals cash plus market value plus rounding bridge at a mark exactly
      when the entry outlays of trades closed before they were entered cancel there. */
  lemma ValuationsAgreeExactly(trades: seq<Trade>, m: Marks, k: nat)
    requires m.Covers(trades) && AllValued(trades, m) && k < |m.times|
    ensures CashSum(trades, m, k) == MarkedSum(trades, m, k) <==> BackwardsSum(trades, m.times[k]) == 0.0
  {
    ValuationsDifferBy(trades, m, k);
  }

  /** In particular they agree at every mark when no exit precedes its entry. */
  lemma {:induction false} ForwardTradesAgree(trades: seq<Trade>, m: Marks, k: nat)
    requires m.Covers(trades) && AllValued(trades, m) && k < |m.times|
    requires forall t :: 0 <= t < |trades| && trades[t].exitAt.Some? ==> trades[t].exitAt.value >= trades[t].entryAt
    ensures CashSum(trades, m, k) == MarkedSum(trades, m, k)
  {
    ValuationsDifferBy(trades, m, k);
    NothingBackwards(trades, m.times[k]);
  }

  lemma {:induction false} NothingBackwards(trades: seq<Trade>, at: int)
    requires forall t :: 0 <= t < |trades| && trades[t].exitAt.Some? ==> trades[t].exitAt.value >= trades[t].entryAt
    ensures BackwardsSum(trades, at) == 0.0
  {
    if trades == [] {
    } else {
      NothingBackwards(trades[..|trades| - 1], at);
    }
  }

  // --- drawdown ---

  /** The realized-equity curve: starting capital, then one point per closed trade. */
  function Curve(start: real, pnls: seq<real>): (c: seq<real>)
    ensures |c| == |pnls| + 1 && c[0] == start
  {
    if pnls == [] then [start]
    else
      var front := Curve(start, pnls[..|pnls| - 1]);
      front + [front[|front| - 1] + pnls[|pnls| - 1]]
  }

  /** The running peak. */
  function Peak(curve: seq<real>, j: nat): real
    requires j < |curve|
  {
    if j == 0 then curve[0]
    else
      var before := Peak(curve, j - 1);
      if curve[j] > before then curve[j] else before
  }

  lemma {:induction false} PeakIsHighest(curve: seq<real>, j: nat) returns (top: nat)
    requires j < |curve|
    ensures top <= j && curve[top] == Peak(curve, j)
    ensures forall i :: 0 <= i <= j ==> curve[i] <= Peak(curve, j)
  {
    if j == 0 {
      top := 0;
    } else {
      top := PeakIsHighest(curve, j - 1);
      if curve[j] > curve[top] { top := j; }
    }
  }

  /** The decline at `j` as a part of the running peak; nothing while the peak is not positive. */
  function ShareAt(curve: seq<real>, j: nat): real
    requires j < |curve|
  {
    PartOf(Peak(curve, j), curve[j])
  }

  function PartOf(peak: real, equity: real): real {
    if peak > 0.0 then (peak - equity) / peak else 0.0
  }

  /** `d` is the largest decline from an earlier to a later one of the first `n` points. */
  ghost predicate LargestDrop(curve: seq<real>, n: nat, d: real)
    requires n <= |curve|
  {
    && (forall i, j :: 0 <= i <= j < n ==> Drop(curve, i, j) <= d)
    && exists i, j :: 0 <= i <= j < n && Drop(curve, i, j) == d
  }

  function Drop(curve: seq<real>, i: nat, j: nat): real
    requires i < |curve| && j < |curve|
  {
    curve[i] - curve[j]
  }

  /** `p` is the largest of the first `n` parts, and at least zero. */
  ghost predicate LargestShare(curve: seq<real>, n: nat, p: real)
    requires n <= |curve|
  {
    && p >= 0.0
    && (forall j :: 0 <= j < n ==> ShareAt(curve, j) <= p)
    && (p == 0.0 || exists j :: 0 <= j < n && ShareAt(curve, j) == p)
  }

  function Larger(a: real, b: real): real { if b > a then b else a }

  lemma DropGrows(curve: seq<real>, n: nat, d: real)
    requires 0 < n < |curve| && LargestDrop(curve, n, d)
    ensures LargestDrop(curve, n + 1, Larger(d, Peak(curve, n) - curve[n]))
  {
    hide Peak;
    var drop := Peak(curve, n) - curve[n];
    var top := PeakIsHighest(curve, n);
    if drop > d {
      assert Drop(curve, top, n) == drop;
    } else {
      var i, j :| 0 <= i <= j < n && Drop(curve, i, j) == d;
      assert Drop(curve, i, j) == Larger(d, drop);
    }
  }

  lemma ShareGrows(curve: seq<real>, n: nat, p: real)
    requires 0 < n < |curve| && LargestShare(curve, n, p)
    ensures LargestShare(curve, n + 1, Larger(p, ShareAt(curve, n)))
  {
    if ShareAt(curve, n) <= p && p != 0.0 {
      var j :| 0 <= j < n && ShareAt(curve, j) == p;
      assert ShareAt(curve, j) == Larger(p, ShareAt(curve, n));
    }
  }

  ghost predicate Deepest(curve: seq<real>, n: nat, most: real, share: real)
    requires n <= |curve|
  {
    LargestDrop(curve, n, most) && LargestShare(curve, n, share)
  }

  lemma DeepestGrows(curve: seq<real>, n: nat, most: real, share: real)
    requires 0 < n < |curve| && Deepest(curve, n, most, share)
    ensures Deepest(curve, n + 1, Larger(most, Peak(curve, n) - curve[n]),
                    Larger(share, PartOf(Peak(curve, n), curve[n])))
  {
    DropGrows(curve, n, most);
    ShareGrows(curve, n, share);
  }

  /** One pass with a running peak finds the largest decline over all earlier-later pairs, and its largest share of
      the peak. */
  method MaxDrawdown(pnls: seq<real>, start: real) returns (rounded: real, share: real, ghost drop: real)
    ensures LargestDrop(Curve(start, pnls), |pnls| + 1, drop) && rounded == RoundEven2(drop)
    ensures LargestShare(Curve(start, pnls), |pnls| + 1, share)
  {
    var most;
    CurveFollows(start, pnls);
    most, share := Declines(pnls, start, Curve(start, pnls));
    drop := most;
    rounded := RoundEven2(most);
  }

  /** Each point adds one result to the point before. */
  ghost predicate Follows(curve: seq<real>, start: real, pnls: seq<real>) {
    |curve| == |pnls| + 1 && curve[0] == start && forall i :: 0 <= i < |pnls| ==> curve[i + 1] == curve[i] + pnls[i]
  }

  method Declines(pnls: seq<real>, start: real, ghost curve: seq<real>) returns (most: real, share: real)
    requires Follows(curve, start, pnls)
    ensures LargestDrop(curve, |curve|, most) && LargestShare(curve, |curve|, share)
  {
    var equity, peak := start, start;
    most, share := 0.0, 0.0;
    FirstPoint(curve);
    for i := 0 to |pnls|
      invariant equity == curve[i] && peak == Peak(curve, i)
      invariant Deepest(curve, i + 1, most, share)
    {
      equity := equity + pnls[i];
      if equity > peak { peak := equity; }
      assert peak == Peak(curve, i + 1);
      DeepestGrows(curve, i + 1, most, share);
      most, share := Deeper(peak, equity, most, share);
    }
  }

  /** Take one point of the curve into account. */
  method Deeper(peak: real, equity: real, most: real, share: real) returns (most': real, share': real)
    requires share >= 0.0
    ensures most' == Larger(most, peak - equity) && share' == Larger(share, PartOf(peak, equity))
  {
    most', share' := most, share;
    var down := peak - equity;
    if down > most { most' := down; }
    if peak > 0.0 && down / peak > share { share' := down / peak; }
  }

  lemma FirstPoint(curve: seq<real>)
    requires curve != []
    ensures LargestDrop(curve, 1, 0.0) && LargestShare(curve, 1, 0.0)
  {
    assert Drop(curve, 0, 0) == 0.0;
    FlatPart(Peak(curve, 0));
    assert ShareAt(curve, 0) == 0.0;
  }

  lemma FlatPart(x: real)
    ensures PartOf(x, x) == 0.0
  {
    if x > 0.0 { assert (x - x) / x == 0.0; }
  }

  lemma {:induction false} CurveFollows(start: real, pnls: seq<real>)
    ensures Follows(Curve(start, pnls), start, pnls)
  {
    if pnls == [] {
    } else {
      CurveFollows(start, pnls[..|pnls| - 1]);
    }
  }

  lemma SmallerShare(a: real, b: real, low: real)
    requires 0.0 < a <= b && low >= 0.0
    ensures (a - low) / a <= (b - low) / b
  {
    WithoutPart(a, low);
    WithoutPart(b, low);
    Divides(low, a, b);
  }

  lemma WithoutPart(a: real, low: real)
    requires a > 0.0
    ensures (a - low) / a == 1.0 - low / a
  {
    Quotient(low, a);
    Quotient(a - low, a);
    SameProduct((a - low) / a, 1.0 - low / a, a);
  }

  lemma Quotient(x: real, a: real)
    requires a > 0.0
    ensures (x / a) * a == x
  {}

  lemma SameProduct(x: real, y: real, a: real)
    requires a > 0.0 && x * a == y * a
    ensures x == y
  {
    if x < y { Scale(x, y, a); }
    if y < x { Scale(y, x, a); }
  }

  lemma Divides(low: real, a: real, b: real)
    requires 0.0 < a <= b && low >= 0.0
    ensures low / b <= low / a
  {
    assert low / a * a == low && low / b * b == low;
    if low / b > low / a { Scale(low / a, low / b, b); Scale0(low / a, a, b); }
  }

  lemma Scale(x: real, y: real, b: real)
    requires x < y && b > 0.0
    ensures x * b < y * b
  {}

  lemma Scale0(x: real, a: real, b: real)
    requires x >= 0.0 && a <= b
    ensures x * a <= x * b
  {}

  lemma LargerLoss(a: real, b: real, low: real)
    requires 0.0 < a <= b && low <= 0.0
    ensures (b - low) / b <= (a - low) / a
  {
    WithoutPart(a, low);
    WithoutPart(b, low);
    Divides(-low, a, b);
    Negated(low, a);
    Negated(low, b);
  }

  lemma Negated(x: real, a: real)
    requires a > 0.0
    ensures (-x) / a == -(x / a)
  {
    Quotient(x, a);
    Quotient(-x, a);
    SameProduct((-x) / a, -(x / a), a);
  }

  /** The smallest positive equity up to a point. */
  function Least(curve: seq<real>, j: nat): (r: Option<real>)
    requires j < |curve|
    ensures r.Some? ==> r.value > 0.0 && exists i :: 0 <= i <= j && curve[i] == r.value
    ensures forall i :: 0 <= i <= j && curve[i] > 0.0 ==> r.Some? && r.value <= curve[i]
  {
    var before := if j == 0 then None else Least(curve, j - 1);
    if curve[j] > 0.0 && (before.None? || curve[j] < before.value) then Some(curve[j]) else before
  }

  /** `p` is the largest part lost from an earlier positive to a later equity, over all pairs, and at least zero. */
  ghost predicate LargestPairwise(curve: seq<real>, p: real) {
    && (forall i, j :: 0 <= i <= j < |curve| ==> Loss(curve, i, j) <= p)
    && (p == 0.0 || exists i, j :: 0 <= i <= j < |curve| && Loss(curve, i, j) == p)
  }

  function Loss(curve: seq<real>, i: nat, j: nat): real
    requires i < |curve| && j < |curve|
  {
    PartOf(curve[i], curve[j])
  }

  /** Below zero no more is lost of the smallest positive equity so far than `p`. */
  predicate BoundedBelowZero(curve: seq<real>, p: real) {
    forall j :: 0 <= j < |curve| && curve[j] < 0.0 && Least(curve, j).Some? ==>
      PartOf(Least(curve, j).value, curve[j]) <= p
  }

  /** The one pass share is the largest over all earlier-later pairs exactly when it also bounds, at every point below
      zero, the loss against the smallest positive equity before it; so it is while equity is not negative. */
  lemma ShareIsPairwise(curve: seq<real>, p: real)
    requires LargestShare(curve, |curve|, p)
    ensures LargestPairwise(curve, p) <==> BoundedBelowZero(curve, p)
  {
    if BoundedBelowZero(curve, p) {
      forall i, j | 0 <= i <= j < |curve| ensures Loss(curve, i, j) <= p { PairIsBounded(curve, p, i, j); }
      ShareIsALoss(curve, p);
    }
    if LargestPairwise(curve, p) {
      forall j | 0 <= j < |curve| && curve[j] < 0.0 && Least(curve, j).Some?
        ensures PartOf(Least(curve, j).value, curve[j]) <= p
      {
        var i :| 0 <= i <= j && curve[i] == Least(curve, j).value;
        assert Loss(curve, i, j) <= p;
      }
    }
  }

  lemma PairIsBounded(curve: seq<real>, p: real, i: nat, j: nat)
    requires LargestShare(curve, |curve|, p) && BoundedBelowZero(curve, p) && i <= j < |curve|
    ensures Loss(curve, i, j) <= p
  {
    if curve[i] > 0.0 {
      if curve[j] >= 0.0 {
        var top := PeakIsHighest(curve, j);
        SmallerShare(curve[i], Peak(curve, j), curve[j]);
        assert ShareAt(curve, j) <= p;
      } else {
        LargerLoss(Least(curve, j).value, curve[i], curve[j]);
      }
    }
  }

  /** The share is a loss from some point to a later one, if it is not zero. */
  lemma ShareIsALoss(curve: seq<real>, p: real)
    requires LargestShare(curve, |curve|, p)
    ensures p == 0.0 || exists i, j :: 0 <= i <= j < |curve| && Loss(curve, i, j) == p
  {
    if p != 0.0 {
      var j :| 0 <= j < |curve| && ShareAt(curve, j) == p;
      var top := PeakIsHighest(curve, j);
      assert Loss(curve, top, j) == p;
    }
  }

  /** Once equity has been below zero the share can understate: from 1 to -1 all of twice the equity was lost, but
      the one pass reports three halves of the later peak. */
  lemma ShareCanUnderstate(share: real)
    requires LargestShare([1.0, 2.0, -1.0], 3, share)
    ensures share == 1.5 && Loss([1.0, 2.0, -1.0], 0, 2) == 2.0
  {
    var curve := [1.0, 2.0, -1.0];
    assert Peak(curve, 0) == 1.0 && Peak(curve, 1) == 2.0 && Peak(curve, 2) == 2.0;
    assert ShareAt(curve, 0) == 0.0 && ShareAt(curve, 1) == 0.0 && ShareAt(curve, 2) == 1.5;
  }
}
