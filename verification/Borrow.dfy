/** Borrow charges: cumulative cent rounding over days, carried across reporting windows. Amounts are cents. */
module Borrow {
  import opened Common
  import opened Cents
  import opened Settlements

  datatype Interval = Interval(
    id: string, quantity: real, basePrice: real, annualRate: Option<real>, denominator: real,
    days: nat, knowledgeAt: Option<int>, currency: Option<string>)
  {
    predicate Valid() {
      quantity >= 0.0 && basePrice >= 0.0 && denominator > 0.0 && (annualRate.Some? ==> annualRate.value >= 0.0)
    }

    function Daily(): real
      requires denominator != 0.0 && annualRate.Some?
    {
      quantity * basePrice * annualRate.value / denominator
    }
  }

  datatype Reason =
    | RateNotKnownAtDecision | MissingBorrowRate | MissingCurrency
    | ConflictingSettlement | MissingSettlementAmount | MissingSettlementCurrency | CurrencyMismatch

  datatype Charge =
    | Unknown(reason: Reason)
    | Known(exactFee: real, roundedTarget: int, postings: seq<int>, postedFee: int,
            settled: real, cashDelta: real, expense: int, payable: real, refund: real)

  /** What one piece of a charge period takes over from the piece before it. */
  datatype Carry = Carry(exact: real, rounded: real, settled: real)

  /** Opening balances of a reporting window. */
  datatype Opening = Opening(window: Window, payable: real, refund: real)

  const FRESH := Carry(0.0, 0.0, 0.0)

  // --- the rounding accumulator ---

  /** The exact total after `days` more days. */
  function Total(exact: real, daily: real, days: nat): real {
    if days == 0 then exact else Total(exact, daily, days - 1) + daily
  }

  /** The posting of each day: what moves the rounded total from the day before to this day. */
  function Postings(exact: real, target: int, daily: real, days: nat): seq<int> {
    if days == 0 then []
    else
      Postings(exact, target, daily, days - 1)
        + [RoundCents(Total(exact, daily, days)) - RoundedAfter(exact, target, daily, days - 1)]
  }

  /** The rounded total after `days` more days. */
  function RoundedAfter(exact: real, target: int, daily: real, days: nat): int {
    if days == 0 then target else RoundCents(Total(exact, daily, days))
  }

  lemma {:induction false} PostingsSum(exact: real, target: int, daily: real, days: nat)
    ensures |Postings(exact, target, daily, days)| == days
    ensures Sum(Postings(exact, target, daily, days)) == RoundedAfter(exact, target, daily, days) - target
  {
    if days == 0 {
    } else {
      PostingsSum(exact, target, daily, days - 1);
      SumAppend(Postings(exact, target, daily, days - 1),
                RoundCents(Total(exact, daily, days)) - RoundedAfter(exact, target, daily, days - 1));
    }
  }

  lemma {:induction false} TotalSplits(exact: real, daily: real, a: nat, b: nat)
    ensures Total(exact, daily, a + b) == Total(Total(exact, daily, a), daily, b)
  {
    if b == 0 {
    } else {
      TotalSplits(exact, daily, a, b - 1);
    }
  }

  /** Posting `a` days and then `b` more, carrying both totals, posts exactly what the uncut period posts. */
  lemma {:induction false} PostingsSplit(exact: real, target: int, daily: real, a: nat, b: nat)
    ensures Postings(exact, target, daily, a + b) ==
      Postings(exact, target, daily, a)
        + Postings(Total(exact, daily, a), RoundedAfter(exact, target, daily, a), daily, b)
    ensures RoundedAfter(exact, target, daily, a + b)
      == RoundedAfter(Total(exact, daily, a), RoundedAfter(exact, target, daily, a), daily, b)
  {
    TotalSplits(exact, daily, a, b);
    if b == 0 {
    } else {
      PostingsSplit(exact, target, daily, a, b - 1);
      TotalSplits(exact, daily, a, b - 1);
    }
  }

  /** After any number of days the posted total is within half a cent of the exact fee. */
  lemma {:induction false} PrefixWithinHalfCent(exact: real, target: int, daily: real, days: nat, k: nat)
    requires k <= days && Abs(target as real - exact) <= 0.5
    ensures k <= |Postings(exact, target, daily, days)|
    ensures Abs((target + Sum(Postings(exact, target, daily, days)[..k])) as real - Total(exact, daily, k)) <= 0.5
  {
    hide RoundCents, Postings;
    PostingsSplit(exact, target, daily, k, days - k);
    PostingsSum(exact, target, daily, k);
    PostingsSum(exact, target, daily, days);
    assert k + (days - k) == days;
    assert Postings(exact, target, daily, days)[..k] == Postings(exact, target, daily, k);
    RoundingIsNearest(Total(exact, daily, k), 0);
  }

  // --- the calculation ---

  function Relevant(settlements: seq<Settlement>, id: string, decision: Option<int>,
                    window: Option<Window>): seq<Settlement>
  {
    if settlements == [] then []
    else
      var front := Relevant(settlements[..|settlements| - 1], id, decision, window);
      var last := settlements[|settlements| - 1];
      if last.key == id && KnownBy(last.knowledgeAt, decision)
        && (window.Some? ==> window.value.Contains(last.occurredAt))
      then front + [last] else front
  }

  /** Why the relevant settlements cannot be summed, if they cannot. */
  function SettlementProblem(relevant: seq<Settlement>, currency: Option<string>): Option<Reason> {
    if !Consistent(relevant) then Some(ConflictingSettlement)
    else if exists i :: 0 <= i < |relevant| && relevant[i].amount.None? then Some(MissingSettlementAmount)
    else if exists i :: 0 <= i < |relevant| && relevant[i].currency.None? then Some(MissingSettlementCurrency)
    else if exists i :: 0 <= i < |relevant| && relevant[i].currency != currency then Some(CurrencyMismatch)
    else None
  }

  function RateProblem(interval: Interval, decision: Option<int>): Option<Reason> {
    if !KnownBy(interval.knowledgeAt, decision) then Some(RateNotKnownAtDecision)
    else if interval.annualRate.None? then Some(MissingBorrowRate)
    else if interval.currency.None? || interval.currency.value == "" then Some(MissingCurrency)
    else None
  }

  /** The signed balance owed after the piece: without a window from the totals, with one from the opening balances. */
  function Balance(carry: Carry, opening: Option<Opening>, rounded: int, net: real): real {
    match opening
    case None => rounded as real - (carry.settled + net)
    case Some(o) => o.payable - o.refund + (rounded - RoundCents(carry.rounded)) as real - net
  }

  /** The known charge of a piece with something to charge. */
  function Charged(daily: real, days: nat, carry: Carry, opening: Option<Opening>, net: real): Charge
    requires days > 0
  {
    var target := RoundCents(carry.rounded);
    var rounded := RoundCents(Total(carry.exact, daily, days));
    var balance := Balance(carry, opening, rounded, net);
    var postings := Postings(carry.exact, target, daily, days);
    Known(Total(carry.exact, daily, days) - carry.exact, rounded, postings, Sum(postings),
          carry.settled + net, -net, rounded - target, Max0(balance), Max0(-balance))
  }

  function CalculatedBorrow(interval: Interval, settlements: seq<Settlement>, opening: Option<Opening>,
                            decision: Option<int>, carry: Carry): Charge
    requires interval.Valid()
  {
    if interval.quantity == 0.0 || interval.days == 0 then
      Known(0.0, 0, seq(interval.days, _ => 0), 0, 0.0, 0.0, 0, 0.0, 0.0)
    else if RateProblem(interval, decision).Some? then Unknown(RateProblem(interval, decision).value)
    else
      var relevant := Relevant(settlements, interval.id, decision,
                               if opening.Some? then Some(opening.value.window) else None);
      if SettlementProblem(relevant, interval.currency).Some?
      then Unknown(SettlementProblem(relevant, interval.currency).value)
      else Charged(interval.Daily(), interval.days, carry, opening, Net(relevant))
  }

  /** One pass over the days: every posting rounds the running total. */
  method PostDays(exact: real, target: int, daily: real, days: nat)
    returns (postings: seq<int>, posted: int, total: real)
    ensures postings == Postings(exact, target, daily, days) && total == Total(exact, daily, days)
    ensures posted == Sum(postings)
  {
    postings, posted, total := [], 0, exact;
    var prior := target;
    for i := 0 to days
      invariant postings == Postings(exact, target, daily, i) && total == Total(exact, daily, i)
      invariant prior == RoundedAfter(exact, target, daily, i) && posted == prior - target
    {
      total := total + daily;
      var rounded := RoundCents(total);
      postings, posted := postings + [rounded - prior], posted + rounded - prior;
      prior := rounded;
    }
    PostingsSum(exact, target, daily, days);
  }

  method SelectRelevant(settlements: seq<Settlement>, id: string, decision: Option<int>, window: Option<Window>)
    returns (relevant: seq<Settlement>)
    ensures relevant == Relevant(settlements, id, decision, window)
  {
    relevant := [];
    for i := 0 to |settlements|
      invariant relevant == Relevant(settlements[..i], id, decision, window)
    {
      var s := settlements[i];
      assert settlements[..i + 1][..i] == settlements[..i];
      if s.key != id { continue; }
      if decision.Some? && (s.knowledgeAt.None? || decision.value < s.knowledgeAt.value) { continue; }
      if window.Some? && (s.occurredAt <= window.value.start || window.value.end < s.occurredAt) { continue; }
      relevant := relevant + [s];
    }
    assert settlements[..|settlements|] == settlements;
  }

  /** Net cash of the relevant settlements, or why it is unknown. */
  method SettleCharges(relevant: seq<Settlement>, currency: Option<string>) returns (net: real, problem: Option<Reason>)
    ensures problem == SettlementProblem(relevant, currency) && (problem.None? ==> net == Net(relevant))
  {
    var unique, ok := Dedupe(relevant);
    if !ok { return 0.0, Some(ConflictingSettlement); }
    var unpriced, unnamed, foreign;
    net, unpriced, unnamed, foreign := Scan(unique, currency);
    NetIsUniqueSum(relevant);
    UniqueHasAll(relevant);
    SameProblems(unique, relevant, currency);
    problem :=
      if unpriced then Some(MissingSettlementAmount) else if unnamed then Some(MissingSettlementCurrency)
      else if foreign then Some(CurrencyMismatch) else None;
  }

  method CalculateBorrow(interval: Interval, settlements: seq<Settlement>, opening: Option<Opening>,
                         decision: Option<int>, carry: Carry) returns (charge: Charge)
    requires interval.Valid()
    ensures charge == CalculatedBorrow(interval, settlements, opening, decision, carry)
  {
    if interval.quantity == 0.0 || interval.days == 0 {
      return Known(0.0, 0, seq(interval.days, _ => 0), 0, 0.0, 0.0, 0, 0.0, 0.0);
    }
    if decision.Some? && (interval.knowledgeAt.None? || decision.value < interval.knowledgeAt.value) {
      return Unknown(RateNotKnownAtDecision);
    }
    if interval.annualRate.None? { return Unknown(MissingBorrowRate); }
    if interval.currency == None || interval.currency == Some("") { return Unknown(MissingCurrency); }
    var relevant := SelectRelevant(settlements, interval.id, decision,
                                   if opening.Some? then Some(opening.value.window) else None);
    var net, problem := SettleCharges(relevant, interval.currency);
    if problem.Some? { return Unknown(problem.value); }
    var daily := FeePerDay(interval);
    charge := ChargeDays(daily, interval.days, carry, opening, net);
  }

  method FeePerDay(interval: Interval) returns (daily: real)
    requires interval.denominator != 0.0 && interval.annualRate.Some?
    ensures daily == interval.Daily()
  {
    var notional := interval.quantity * interval.basePrice;
    daily := notional * interval.annualRate.value / interval.denominator;
  }

  method ChargeDays(daily: real, days: nat, carry: Carry, opening: Option<Opening>, net: real) returns (charge: Charge)
    requires days > 0
    ensures charge == Charged(daily, days, carry, opening, net)
  {
    var target := RoundCents(carry.rounded);
    var postings, posted, total := PostDays(carry.exact, target, daily, days);
    var rounded := RoundCents(total);
    var balance := if opening.None? then rounded as real - (carry.settled + net)
                   else opening.value.payable - opening.value.refund + (rounded - target) as real - net;
    charge := Known(total - carry.exact, rounded, postings, posted, carry.settled + net, -net,
                    rounded - target, Max0(balance), Max0(-balance));
  }

  // --- what the calculation promises ---

  lemma {:induction false} TotalIsDays(exact: real, daily: real, days: nat)
    ensures Total(exact, daily, days) == exact + days as real * daily
  {
    if days == 0 {
    } else {
      TotalIsDays(exact, daily, days - 1);
      assert (days - 1) as real * daily + daily == days as real * daily;
    }
  }

  /** What a period costs: a day is the denominator's share of quantity times price times annual rate, so a year of
      as many days costs exactly that; what is posted is the rounded running total. */
  lemma FeeIsDaysOfRate(interval: Interval, settlements: seq<Settlement>, opening: Option<Opening>,
                        decision: Option<int>, carry: Carry)
    requires interval.Valid() && interval.days > 0 && interval.quantity > 0.0
    requires CalculatedBorrow(interval, settlements, opening, decision, carry).Known?
    ensures interval.annualRate.Some?
    ensures var c := CalculatedBorrow(interval, settlements, opening, decision, carry);
      var yearly := interval.quantity * interval.basePrice * interval.annualRate.value;
      && c.exactFee * interval.denominator == interval.days as real * yearly
      && (interval.days as real == interval.denominator ==> c.exactFee == yearly)
      && c.roundedTarget == RoundCents(carry.exact + c.exactFee)
  {
    hide CalculatedBorrow, Interval.Daily, Total, RoundCents;
    KnownIsTotal(interval, settlements, opening, decision, carry);
    TotalIsDays(carry.exact, interval.Daily(), interval.days);
    DailyIsShare(interval);
    Reordered(interval.days as real, interval.Daily(), interval.denominator);
  }

  lemma DailyIsShare(interval: Interval)
    requires interval.denominator > 0.0 && interval.annualRate.Some?
    ensures interval.Daily() * interval.denominator
      == interval.quantity * interval.basePrice * interval.annualRate.value
  {}

  lemma KnownIsTotal(interval: Interval, settlements: seq<Settlement>, opening: Option<Opening>,
                     decision: Option<int>, carry: Carry)
    requires interval.Valid() && interval.days > 0 && interval.quantity > 0.0
    requires CalculatedBorrow(interval, settlements, opening, decision, carry).Known?
    ensures interval.annualRate.Some?
    ensures var c := CalculatedBorrow(interval, settlements, opening, decision, carry);
      var total := Total(carry.exact, interval.Daily(), interval.days);
      c.exactFee == total - carry.exact && c.roundedTarget == RoundCents(total)
  {
    hide RoundCents, SettlementProblem, Relevant, Total, KnownBy, Interval.Daily;
  }

  lemma Reordered(x: real, y: real, z: real)
    ensures x * y * z == x * (y * z)
  {}

  /** The posted fee is the expense, and the books end where the rounded total says. */
  lemma PostedFeeIsExpense(interval: Interval, settlements: seq<Settlement>, opening: Option<Opening>,
                           decision: Option<int>, carry: Carry)
    requires interval.Valid() && interval.days > 0 && interval.quantity > 0.0
    ensures var c := CalculatedBorrow(interval, settlements, opening, decision, carry);
      c.Known? ==>
        c.postedFee == c.expense == c.roundedTarget - RoundCents(carry.rounded)
        && Abs(c.roundedTarget as real - (carry.exact + c.exactFee)) <= 0.5
  {
    if RateProblem(interval, decision).None? {
      var daily := interval.Daily();
      PostingsSum(carry.exact, RoundCents(carry.rounded), daily, interval.days);
      RoundingIsNearest(Total(carry.exact, daily, interval.days), 0);
    }
  }

  /** The windowed balance is the unwindowed one exactly when the opening balances are what was rounded less what
      was settled before the window. */
  lemma WindowedAgrees(carry: Carry, opening: Opening, rounded: int, net: real)
    ensures Balance(carry, Some(opening), rounded, net) == Balance(carry, None, rounded, net)
      <==> opening.payable - opening.refund == RoundCents(carry.rounded) as real - carry.settled
  {}

  /** One piece of a cut period: its days and its reporting window. */
  datatype Piece = Piece(days: nat, window: Window)

  /** The books after some pieces. */
  datatype Books = Books(postings: seq<int>, carry: Carry, payable: real, refund: real)

  function ChargePiece(interval: Interval, settlements: seq<Settlement>, decision: Option<int>, books: Books,
                       piece: Piece): Charge
    requires interval.Valid()
  {
    CalculatedBorrow(interval.(days := piece.days), settlements,
                     Some(Opening(piece.window, books.payable, books.refund)), decision, books.carry)
  }

  /** Charge one piece on top of the books; None if it is unknown. */
  function Continue(interval: Interval, settlements: seq<Settlement>, decision: Option<int>, books: Books,
                    piece: Piece): Option<Books>
    requires interval.Valid()
  {
    match ChargePiece(interval, settlements, decision, books, piece)
    case Unknown(_) => None
    case Known(exactFee, rounded, postings, _, settled, _, _, payable, refund) =>
      Some(Books(books.postings + postings, Carry(books.carry.exact + exactFee, rounded as real, settled), payable,
                 refund))
  }

  function ContinueAll(interval: Interval, settlements: seq<Settlement>, decision: Option<int>, books: Books,
                       pieces: seq<Piece>): Option<Books>
    requires interval.Valid()
  {
    if pieces == [] then Some(books)
    else
      var front := ContinueAll(interval, settlements, decision, books, pieces[..|pieces| - 1]);
      if front.None? then None else Continue(interval, settlements, decision, front.value, pieces[|pieces| - 1])
  }

  /** Non-empty pieces whose windows follow one another. */
  predicate Consecutive(pieces: seq<Piece>) {
    && (forall i :: 0 <= i < |pieces| ==> pieces[i].days > 0 && pieces[i].window.start <= pieces[i].window.end)
    && (forall i :: 0 < i < |pieces| ==> pieces[i].window.start == pieces[i - 1].window.end)
  }

  /** All pieces as one. */
  function Whole(pieces: seq<Piece>): (whole: Piece)
    requires pieces != []
  {
    if |pieces| == 1 then pieces[0]
    else
      var front, last := Whole(pieces[..|pieces| - 1]), pieces[|pieces| - 1];
      Piece(front.days + last.days, Window(front.window.start, last.window.end))
  }

  lemma {:induction false} RelevantIsWindowed(settlements: seq<Settlement>, id: string, decision: Option<int>,
                                              w: Window)
    ensures Relevant(settlements, id, decision, Some(w)) == InWindow(Relevant(settlements, id, decision, None), w)
  {
    if settlements == [] {
    } else {
      var front, last := settlements[..|settlements| - 1], settlements[|settlements| - 1];
      RelevantIsWindowed(front, id, decision, w);
      var before := Relevant(front, id, decision, None);
      assert (before + [last])[..|before|] == before;
    }
  }

  lemma {:induction false} InWindowTwice(settlements: seq<Settlement>, outer: Window, inner: Window)
    requires outer.start <= inner.start && inner.end <= outer.end
    ensures InWindow(InWindow(settlements, outer), inner) == InWindow(settlements, inner)
  {
    if settlements == [] {
    } else {
      var front, last := settlements[..|settlements| - 1], settlements[|settlements| - 1];
      InWindowTwice(front, outer, inner);
      var before := InWindow(front, outer);
      assert (before + [last])[..|before|] == before;
    }
  }

  /** The settlements of a window can be summed. */
  predicate Fine(all: seq<Settlement>, w: Window, currency: Option<string>) {
    SettlementProblem(InWindow(all, w), currency).None?
  }

  /** Complete, and in the currency of the charge. */
  predicate Proper(s: Settlement, currency: Option<string>) {
    s.amount.Some? && s.currency.Some? && s.currency == currency
  }

  lemma FineIs(all: seq<Settlement>, w: Window, currency: Option<string>)
    ensures Fine(all, w, currency) <==>
      && Consistent(InWindow(all, w))
      && forall s :: s in InWindow(all, w) ==> Proper(s, currency)
  {
    var relevant := InWindow(all, w);
    if Fine(all, w, currency) {
      forall s | s in relevant ensures Proper(s, currency) {
        var i :| 0 <= i < |relevant| && relevant[i] == s;
      }
    } else if Consistent(relevant) && forall s :: s in relevant ==> Proper(s, currency) {
      forall i | 0 <= i < |relevant| ensures Proper(relevant[i], currency) { assert relevant[i] in relevant; }
    }
  }

  /** A window inside a fine one is fine. */
  lemma InnerWindowIsFine(all: seq<Settlement>, outer: Window, inner: Window, currency: Option<string>)
    requires outer.start <= inner.start && inner.end <= outer.end && Fine(all, outer, currency)
    ensures Fine(all, inner, currency)
  {
    InWindowTwice(all, outer, inner);
    FineIs(all, outer, currency);
    FineIs(all, inner, currency);
    WindowKeepsConsistency(InWindow(all, outer), inner);
  }

  /** Net cash of a window splits at any cut when the window is unproblematic. */
  lemma NetSplits(all: seq<Settlement>, start: int, cut: int, end: int, currency: Option<string>)
    requires start <= cut <= end && Fine(all, Window(start, end), currency)
    ensures Net(InWindow(all, Window(start, end)))
      == Net(InWindow(all, Window(start, cut))) + Net(InWindow(all, Window(cut, end)))
  {
    var whole := InWindow(all, Window(start, end));
    WindowsSplitNet(whole, start, cut, end);
    InWindowTwice(all, Window(start, end), Window(start, end));
    InWindowTwice(all, Window(start, end), Window(start, cut));
    InWindowTwice(all, Window(start, end), Window(cut, end));
  }

  lemma ChargedAdvances(daily: real, books: Books, piece: Piece, net: real)
    requires piece.days > 0
    ensures var c := Charged(daily, piece.days, books.carry, Some(Opening(piece.window, books.payable, books.refund)),
                             net);
      Books(books.postings + c.postings, Carry(books.carry.exact + c.exactFee, c.roundedTarget as real, c.settled),
            c.payable, c.refund)
        == Advance(daily, books, piece.days, net)
  {}

  /** The books after one piece, spelled out. */
  lemma ContinueIs(interval: Interval, settlements: seq<Settlement>, decision: Option<int>, books: Books, piece: Piece,
                   daily: real)
    requires interval.Valid() && interval.quantity > 0.0 && RateProblem(interval, decision).None? && piece.days > 0
    requires daily == interval.Daily()
    ensures var all := Relevant(settlements, interval.id, decision, None);
      Continue(interval, settlements, decision, books, piece) ==
        if Fine(all, piece.window, interval.currency)
        then Some(Advance(daily, books, piece.days, Net(InWindow(all, piece.window)))) else None
  {
    RelevantIsWindowed(settlements, interval.id, decision, piece.window);
    var all := Relevant(settlements, interval.id, decision, None);
    var net, part := Net(InWindow(all, piece.window)), interval.(days := piece.days);
    assert part.Daily() == daily && part.quantity > 0.0 && RateProblem(part, decision).None?;
    assert Relevant(settlements, part.id, decision, Some(piece.window)) == InWindow(all, piece.window);
    if Fine(all, piece.window, interval.currency) {
      assert ChargePiece(interval, settlements, decision, books, piece)
        == Charged(daily, piece.days, books.carry, Some(Opening(piece.window, books.payable, books.refund)), net);
      ChargedAdvances(daily, books, piece, net);
    }
  }

  function Advance(daily: real, books: Books, days: nat, net: real): Books {
    var target, rounded := RoundCents(books.carry.rounded), RoundCents(Total(books.carry.exact, daily, days));
    var balance := books.payable - books.refund + (rounded - target) as real - net;
    Books(books.postings + Postings(books.carry.exact, target, daily, days),
          Carry(Total(books.carry.exact, daily, days), rounded as real, books.carry.settled + net),
          Max0(balance), Max0(-balance))
  }

  lemma AdvanceTwice(daily: real, books: Books, a: nat, b: nat, netA: real, netB: real)
    requires a > 0 && b > 0
    ensures Advance(daily, Advance(daily, books, a, netA), b, netB) == Advance(daily, books, a + b, netA + netB)
  {
    var mid := Advance(daily, books, a, netA);
    var target := RoundCents(books.carry.rounded);
    PostingsSplit(books.carry.exact, target, daily, a, b);
    TotalSplits(books.carry.exact, daily, a, b);
    RoundingIsNearest(0.0, RoundCents(Total(books.carry.exact, daily, a)));
    assert books.postings
      + (Postings(books.carry.exact, target, daily, a)
         + Postings(mid.carry.exact, RoundCents(mid.carry.rounded), daily, b))
      == mid.postings + Postings(mid.carry.exact, RoundCents(mid.carry.rounded), daily, b);
  }

  /** The books after some pieces, for a daily fee and the settlements that count. */
  function AdvanceAll(daily: real, all: seq<Settlement>, books: Books, pieces: seq<Piece>): Books {
    if pieces == [] then books
    else
      var last := pieces[|pieces| - 1];
      Advance(daily, AdvanceAll(daily, all, books, pieces[..|pieces| - 1]), last.days, Net(InWindow(all, last.window)))
  }

  lemma {:induction false} WholeEnds(pieces: seq<Piece>)
    requires pieces != [] && Consecutive(pieces)
    ensures Whole(pieces).window.start <= Whole(pieces).window.end == pieces[|pieces| - 1].window.end
    ensures Whole(pieces).days > 0
  {
    if |pieces| == 1 {
    } else {
      WholeEnds(pieces[..|pieces| - 1]);
    }
  }

  lemma {:induction false} AdvanceAllIsWhole(daily: real, all: seq<Settlement>, books: Books, pieces: seq<Piece>,
                                             currency: Option<string>)
    requires pieces != [] && Consecutive(pieces) && Fine(all, Whole(pieces).window, currency)
    ensures AdvanceAll(daily, all, books, pieces)
      == Advance(daily, books, Whole(pieces).days, Net(InWindow(all, Whole(pieces).window)))
    decreases |pieces|
  {
    if |pieces| == 1 {
      assert pieces[..0] == [];
    } else {
      FrontIsFine(all, pieces, currency);
      AdvanceAllIsWhole(daily, all, books, pieces[..|pieces| - 1], currency);
      LastAdvance(daily, all, books, pieces, Whole(pieces[..|pieces| - 1]).days,
                  Net(InWindow(all, Whole(pieces[..|pieces| - 1]).window)));
    }
  }

  /** All but the last piece are fine with the whole, and the last adds its own net. */
  lemma FrontIsFine(all: seq<Settlement>, pieces: seq<Piece>, currency: Option<string>)
    requires |pieces| > 1 && Consecutive(pieces) && Fine(all, Whole(pieces).window, currency)
    ensures var front, last := pieces[..|pieces| - 1], pieces[|pieces| - 1];
      && Consecutive(front) && Fine(all, Whole(front).window, currency)
      && Whole(front).days > 0 && Whole(pieces).days == Whole(front).days + last.days
      && Net(InWindow(all, Whole(pieces).window))
         == Net(InWindow(all, Whole(front).window)) + Net(InWindow(all, last.window))
  {
    var front, last, whole := pieces[..|pieces| - 1], pieces[|pieces| - 1], Whole(pieces);
    WholeEnds(front);
    InnerWindowIsFine(all, whole.window, Whole(front).window, currency);
    NetSplits(all, whole.window.start, last.window.start, whole.window.end, currency);
  }

  lemma LastAdvance(daily: real, all: seq<Settlement>, books: Books, pieces: seq<Piece>, days: nat, net: real)
    requires pieces != [] && days > 0 && pieces[|pieces| - 1].days > 0
    requires AdvanceAll(daily, all, books, pieces[..|pieces| - 1]) == Advance(daily, books, days, net)
    ensures var last := pieces[|pieces| - 1];
      AdvanceAll(daily, all, books, pieces)
        == Advance(daily, books, days + last.days, net + Net(InWindow(all, last.window)))
  {
    var last := pieces[|pieces| - 1];
    AdvanceTwice(daily, books, days, last.days, net, Net(InWindow(all, last.window)));
  }

  predicate AllFine(all: seq<Settlement>, pieces: seq<Piece>, currency: Option<string>) {
    forall i :: 0 <= i < |pieces| ==> Fine(all, pieces[i].window, currency)
  }

  /** A cut period is charged exactly if all its pieces are fine. */
  lemma {:induction false} ContinueAllIs(interval: Interval, settlements: seq<Settlement>, decision: Option<int>,
                                         books: Books, pieces: seq<Piece>, daily: real)
    requires interval.Valid() && interval.quantity > 0.0 && RateProblem(interval, decision).None?
    requires daily == interval.Daily() && Consecutive(pieces)
    ensures var all := Relevant(settlements, interval.id, decision, None);
      ContinueAll(interval, settlements, decision, books, pieces) ==
        if AllFine(all, pieces, interval.currency) then Some(AdvanceAll(daily, all, books, pieces)) else None
    decreases |pieces|
  {
    if pieces == [] {
    } else {
      var all := Relevant(settlements, interval.id, decision, None);
      var front, last := pieces[..|pieces| - 1], pieces[|pieces| - 1];
      ContinueAllIs(interval, settlements, decision, books, front, daily);
      FineNext(all, pieces, interval.currency);
      if AllFine(all, front, interval.currency) {
        ContinueIs(interval, settlements, decision, AdvanceAll(daily, all, books, front), last, daily);
      }
    }
  }

  lemma FineNext(all: seq<Settlement>, pieces: seq<Piece>, currency: Option<string>)
    requires pieces != []
    ensures AllFine(all, pieces, currency) <==>
      && AllFine(all, pieces[..|pieces| - 1], currency)
      && Fine(all, pieces[|pieces| - 1].window, currency)
  {
    var front := pieces[..|pieces| - 1];
    if AllFine(all, front, currency) && Fine(all, pieces[|pieces| - 1].window, currency) {
      forall i | 0 <= i < |pieces| ensures Fine(all, pieces[i].window, currency) {
        if i < |front| { assert front[i] == pieces[i]; }
      }
    }
  }

  /** Whatever falls in the whole period falls in one of its pieces, and the other way round. */
  lemma {:induction false} WholeIsPieces(all: seq<Settlement>, pieces: seq<Piece>, s: Settlement)
    requires pieces != [] && Consecutive(pieces)
    ensures s in InWindow(all, Whole(pieces).window) <==>
      exists i :: 0 <= i < |pieces| && s in InWindow(all, pieces[i].window)
    decreases |pieces|
  {
    forall w: Window ensures s in InWindow(all, w) <==> s in all && w.Contains(s.occurredAt) { InWindowAre(all, w, s); }
    if |pieces| == 1 {
    } else {
      var front, last := pieces[..|pieces| - 1], pieces[|pieces| - 1];
      WholeEnds(front);
      WholeEnds(pieces);
      WholeIsPieces(all, front, s);
      if s in InWindow(all, Whole(front).window) {
        var i :| 0 <= i < |front| && s in InWindow(all, front[i].window);
        assert s in InWindow(all, pieces[i].window);
      }
      if i :| 0 <= i < |pieces| && s in InWindow(all, pieces[i].window) {
        if i < |front| { assert s in InWindow(all, front[i].window); }
      }
    }
  }

  /** The whole period is fine exactly if all its pieces are and no payment id has different records anywhere in it. */
  lemma WholeIsFine(all: seq<Settlement>, pieces: seq<Piece>, currency: Option<string>)
    requires pieces != [] && Consecutive(pieces)
    ensures Fine(all, Whole(pieces).window, currency) <==>
      AllFine(all, pieces, currency) && Consistent(InWindow(all, Whole(pieces).window))
  {
    var whole := Whole(pieces).window;
    FineIs(all, whole, currency);
    if Fine(all, whole, currency) {
      forall i | 0 <= i < |pieces| ensures Fine(all, pieces[i].window, currency) {
        PieceIsInside(pieces, i);
        InnerWindowIsFine(all, whole, pieces[i].window, currency);
      }
    } else if AllFine(all, pieces, currency) {
      forall s | s in InWindow(all, whole) ensures Proper(s, currency) {
        WholeIsPieces(all, pieces, s);
        var i :| 0 <= i < |pieces| && s in InWindow(all, pieces[i].window);
        FineIs(all, pieces[i].window, currency);
      }
    }
  }

  lemma {:induction false} PieceIsInside(pieces: seq<Piece>, i: nat)
    requires i < |pieces| && Consecutive(pieces)
    ensures Whole(pieces).window.start <= pieces[i].window.start && pieces[i].window.end <= Whole(pieces).window.end
    decreases |pieces|
  {
    if |pieces| == 1 {
    } else {
      var front := pieces[..|pieces| - 1];
      WholeEnds(front);
      WholeEnds(pieces);
      if i < |front| { PieceIsInside(front, i); }
    }
  }

  /** Nothing to charge: zeros are posted and the balances forgotten, however the period is cut. */
  lemma {:induction false} NothingToCut(interval: Interval, settlements: seq<Settlement>, decision: Option<int>,
                                        books: Books, pieces: seq<Piece>)
    requires interval.Valid() && interval.quantity == 0.0 && pieces != [] && Consecutive(pieces)
    ensures ContinueAll(interval, settlements, decision, books, pieces)
      == Continue(interval, settlements, decision, books, Whole(pieces))
    decreases |pieces|
  {
    if |pieces| == 1 {
      assert pieces[..0] == [];
    } else {
      var front, last := pieces[..|pieces| - 1], pieces[|pieces| - 1];
      NothingToCut(interval, settlements, decision, books, front);
      assert books.postings + seq(Whole(front).days, _ => 0) + seq(last.days, _ => 0)
        == books.postings + seq(Whole(pieces).days, _ => 0);
    }
  }

  /** Without a usable rate no piece is charged. */
  lemma NoRateNoCharge(interval: Interval, settlements: seq<Settlement>, decision: Option<int>, books: Books,
                       pieces: seq<Piece>)
    requires interval.Valid() && interval.quantity > 0.0 && RateProblem(interval, decision).Some?
    requires pieces != [] && Consecutive(pieces)
    ensures ContinueAll(interval, settlements, decision, books, pieces).None?
    ensures Continue(interval, settlements, decision, books, Whole(pieces)).None?
  {
    WholeEnds(pieces);
    var last := pieces[|pieces| - 1];
    assert RateProblem(interval.(days := last.days), decision).Some?;
    assert RateProblem(interval.(days := Whole(pieces).days), decision).Some?;
  }

  /** When cutting a charge period changes something: there is a charge to cut, every piece can be charged, and two
      different records of one payment id fall in the period. Only the uncut period sees that conflict. */
  predicate ConflictCutAway(interval: Interval, settlements: seq<Settlement>, decision: Option<int>, pieces: seq<Piece>)
    requires pieces != []
  {
    var all := Relevant(settlements, interval.id, decision, None);
    && interval.quantity > 0.0 && RateProblem(interval, decision).None?
    && AllFine(all, pieces, interval.currency) && !Consistent(InWindow(all, Whole(pieces).window))
  }

  /** Cutting a charge period into any consecutive non-empty pieces, carrying the exact and rounded totals and the
      closing balances, ends with the same postings, totals, payable and refund as the uncut period, or is unknown
      as that is, exactly when no conflict is cut away. */
  lemma CutsChangeNothing(interval: Interval, settlements: seq<Settlement>, decision: Option<int>, books: Books,
                          pieces: seq<Piece>)
    requires interval.Valid() && pieces != [] && Consecutive(pieces)
    ensures ContinueAll(interval, settlements, decision, books, pieces)
      == Continue(interval, settlements, decision, books, Whole(pieces))
      <==> !ConflictCutAway(interval, settlements, decision, pieces)
  {
    var all := Relevant(settlements, interval.id, decision, None);
    if interval.quantity == 0.0 {
      NothingToCut(interval, settlements, decision, books, pieces);
    } else if RateProblem(interval, decision).Some? {
      NoRateNoCharge(interval, settlements, decision, books, pieces);
    } else {
      var daily := interval.Daily();
      WholeEnds(pieces);
      WholeIsFine(all, pieces, interval.currency);
      ContinueAllIs(interval, settlements, decision, books, pieces, daily);
      ContinueIs(interval, settlements, decision, books, Whole(pieces), daily);
      if Fine(all, Whole(pieces).window, interval.currency) {
        AdvanceAllIsWhole(daily, all, books, pieces, interval.currency);
      }
    }
  }

  /** The books an unwindowed charge ends with; None if it is unknown. */
  function Ended(charge: Charge): Option<Books> {
    match charge
    case Unknown(_) => None
    case Known(exactFee, rounded, postings, _, settled, _, _, payable, refund) =>
      Some(Books(postings, Carry(exactFee, rounded as real, settled), payable, refund))
  }

  const UNUSED := Books([], FRESH, 0.0, 0.0)

  lemma NothingBefore(postings: seq<int>)
    ensures UNUSED.postings + postings == postings
  {}

  /** One piece on unused books is the charge without a window, if the piece's window misses no settlement. */
  lemma UnusedIsUnwindowed(interval: Interval, settlements: seq<Settlement>, decision: Option<int>, piece: Piece)
    requires interval.Valid() && piece.days > 0
    requires forall s :: s in Relevant(settlements, interval.id, decision, None) ==> piece.window.Contains(s.occurredAt)
    ensures Continue(interval, settlements, decision, UNUSED, piece)
      == Ended(CalculatedBorrow(interval.(days := piece.days), settlements, None, decision, FRESH))
  {
    var all, part := Relevant(settlements, interval.id, decision, None), interval.(days := piece.days);
    RelevantIsWindowed(settlements, interval.id, decision, piece.window);
    AllInWindow(all, piece.window);
    if part.quantity == 0.0 {
      NothingBefore(seq(part.days, _ => 0));
    } else if RateProblem(part, decision).None? && SettlementProblem(all, part.currency).None? {
      ChargedUnwindowed(part.Daily(), piece, Net(all));
    }
  }

  lemma ChargedUnwindowed(daily: real, piece: Piece, net: real)
    requires piece.days > 0
    ensures var c := Charged(daily, piece.days, FRESH, Some(Opening(piece.window, 0.0, 0.0)), net);
      && Ended(c) == Ended(Charged(daily, piece.days, FRESH, None, net))
      && Books(UNUSED.postings + c.postings, Carry(UNUSED.carry.exact + c.exactFee, c.roundedTarget as real, c.settled),
               c.payable, c.refund) == Ended(c).value
  {
    RoundingIsNearest(0.0, 0);
    assert RoundCents(FRESH.rounded) == 0;
    NothingBefore(Postings(0.0, 0, daily, piece.days));
    WindowedAgrees(FRESH, Opening(piece.window, 0.0, 0.0), RoundCents(Total(0.0, daily, piece.days)), net);
  }

  /** From unused books any cut of a period that holds all the settlements ends exactly where the charge without any
      window ends, unless a conflict is cut away. */
  lemma CutsEndUnwindowed(interval: Interval, settlements: seq<Settlement>, decision: Option<int>, pieces: seq<Piece>)
    requires interval.Valid() && pieces != [] && Consecutive(pieces)
    requires forall s :: s in Relevant(settlements, interval.id, decision, None) ==>
      Whole(pieces).window.Contains(s.occurredAt)
    ensures ContinueAll(interval, settlements, decision, UNUSED, pieces)
      == Ended(CalculatedBorrow(interval.(days := Whole(pieces).days), settlements, None, decision, FRESH))
      <==> !ConflictCutAway(interval, settlements, decision, pieces)
  {
    WholeEnds(pieces);
    CutsChangeNothing(interval, settlements, decision, UNUSED, pieces);
    UnusedIsUnwindowed(interval, settlements, decision, Whole(pieces));
  }

  // --- a conflict that is cut away ---

  const LOAN := Interval("loan", 100.0, 3600.0, Some(0.1), 360.0, 2, None, Some("USD"))
  const PAID := Settlement("payment", "loan", Some(100.0), 1, true, None, None, Some("USD"))
  const PAID_AGAIN := PAID.(amount := Some(200.0), occurredAt := 2)
  const BOTH := [] + [PAID] + [PAID_AGAIN]
  const DAYS := [Piece(1, Window(0, 1)), Piece(1, Window(1, 2))]

  /** One payment id, 100 cents on the first day and 200 on the second: the two days together are in conflict and not
      charged; cut into single days both amounts are counted. */
  lemma CutCountsBothRecords()
    ensures LOAN.Valid() && Consecutive(DAYS) && ConflictCutAway(LOAN, BOTH, None, DAYS)
    ensures Continue(LOAN, BOTH, None, UNUSED, Whole(DAYS)).None?
    ensures var cut := ContinueAll(LOAN, BOTH, None, UNUSED, DAYS); cut.Some? && cut.value.carry.settled == 300.0
  {
    BothSelected();
    DaysTogether();
    OnlyTogether();
    ContinueAllIs(LOAN, BOTH, None, UNUSED, DAYS, LOAN.Daily());
    ContinueIs(LOAN, BOTH, None, UNUSED, Whole(DAYS), LOAN.Daily());
    SettledTwice(LOAN.Daily());
  }

  lemma OnlyTogether()
    ensures Fine(BOTH, Window(0, 1), LOAN.currency) && Fine(BOTH, Window(1, 2), LOAN.currency)
    ensures !Consistent(BOTH) && !Fine(BOTH, Window(0, 2), LOAN.currency)
  {
    BothSelected();
    assert BOTH[0].paymentId == BOTH[1].paymentId && BOTH[0] != BOTH[1];
    FineIs(BOTH, Window(0, 1), LOAN.currency);
    FineIs(BOTH, Window(1, 2), LOAN.currency);
  }

  lemma DaysTogether()
    ensures Consecutive(DAYS) && Whole(DAYS) == Piece(2, Window(0, 2)) && DAYS[..1] == [DAYS[0]] && DAYS[..1][..0] == []
  {
    assert DAYS[..1] == [DAYS[0]];
  }

  lemma BothSelected()
    ensures Relevant(BOTH, LOAN.id, None, None) == BOTH && InWindow(BOTH, Window(0, 2)) == BOTH
    ensures InWindow(BOTH, Window(0, 1)) == [] + [PAID] && InWindow(BOTH, Window(1, 2)) == [] + [PAID_AGAIN]
  {
    SelectNext([], PAID, Window(0, 1));
    SelectNext([], PAID, Window(1, 2));
    SelectNext([], PAID, Window(0, 2));
    SelectNext([] + [PAID], PAID_AGAIN, Window(0, 1));
    SelectNext([] + [PAID], PAID_AGAIN, Window(1, 2));
    SelectNext([] + [PAID], PAID_AGAIN, Window(0, 2));
  }

  lemma SelectNext(front: seq<Settlement>, s: Settlement, w: Window)
    ensures InWindow(front + [s], w) ==
      if w.Contains(s.occurredAt) then InWindow(front, w) + [s] else InWindow(front, w)
    ensures s.key == LOAN.id ==>
      Relevant(front + [s], LOAN.id, None, None) == Relevant(front, LOAN.id, None, None) + [s]
  {
    assert (front + [s])[..|front|] == front;
  }

  lemma SettledTwice(daily: real)
    ensures AdvanceAll(daily, BOTH, UNUSED, DAYS).carry.settled == 300.0
  {
    DaysTogether();
    BothSelected();
    NetOfOne(PAID);
    NetOfOne(PAID_AGAIN);
    assert AdvanceAll(daily, BOTH, UNUSED, DAYS[..1][..0]) == UNUSED;
    assert AdvanceAll(daily, BOTH, UNUSED, DAYS[..1]) == Advance(daily, UNUSED, 1, 100.0);
  }

  lemma NetOfOne(s: Settlement)
    ensures Net([] + [s]) == Signed(s)
  {
    assert ([] + [s])[..0] == [];
  }

  /** The condition on pieces is needed: an empty piece forgets every opening balance. */
  lemma EmptyPieceForgets(interval: Interval, settlements: seq<Settlement>, decision: Option<int>, books: Books,
                          window: Window)
    requires interval.Valid()
    ensures Continue(interval, settlements, decision, books, Piece(0, window)).Some?
    ensures Continue(interval, settlements, decision, books, Piece(0, window)) == Some(books)
      <==> books.payable == 0.0 && books.refund == 0.0 && books.carry.rounded == 0.0 && books.carry.settled == 0.0
  {
    assert books.postings + seq(0, _ => 0) == books.postings;
  }
}
