/** Distribution results posted as differences through the idempotent ledger: what the ledger then shows. */
module DistributionLedger {
  import opened Common
  import opened Settlements
  import opened Revisions
  import opened Distributions
  import Ledger

  /** What the posting adapter is given: a result, whose it is, when it takes effect, how its amounts
      are written, and whatever else the payload says. */
  datatype Fact = Fact(result: DistributionResult, actionId: string, revisionId: string, at: int, written: string,
                       evidence: nat)

  predicate AllKnown(facts: seq<Fact>) { forall i :: 0 <= i < |facts| ==> facts[i].result.Known? }

  const ACCRUAL: string := "distribution_accrual"
  const SETTLEMENT: string := "distribution_settlement"

  function Allocation(actionId: string, side: Side): string {
    actionId + if side.LongSide? then ":LONG" else ":SHORT"
  }

  /** The only member. */
  ghost function Only(payments: set<string>): (p: string)
    requires |payments| == 1
    ensures p in payments
  {
    var p :| p in payments;
    p
  }

  /** The payment a posting is for: the result's one payment, if cash moved. */
  ghost function PaymentOf(r: DistributionResult, prior: DistributionResult): Option<string>
    requires r.Known? && prior.Known? && |r.payments| <= 1
  {
    if |r.payments| == 1 && r.settled != prior.settled then Some(Only(r.payments)) else None
  }

  /** The differences between a result and its predecessor. */
  function Difference(r: DistributionResult, prior: DistributionResult, side: Side): Ledger.Amounts
    requires r.Known? && prior.Known?
  {
    var settled := r.settled - prior.settled;
    Ledger.Amounts(if side.LongSide? then settled else -settled, r.receivable - prior.receivable,
                   r.payable - prior.payable, 0.0, r.refund - prior.refund, r.repayment - prior.repayment)
  }

  predicate Identified(payment: Option<string>) { payment.Some? && payment.value != "" }

  /** The adapter from a result and its predecessor to a posting; None is its ValueError. */
  ghost function ResultPosting(f: Fact, prior: DistributionResult, side: Side): Option<Ledger.Posting>
    requires f.result.Known? && prior.Known?
  {
    if |f.result.payments| > 1 then None
    else
      var payment := PaymentOf(f.result, prior);
      Some(Ledger.Posting(None, if Identified(payment) then SETTLEMENT else ACCRUAL, f.at, Some(f.actionId),
                          Some(f.revisionId), Some(Allocation(f.actionId, side)), None, None, payment, false,
                          Difference(f.result, prior, side), f.written, f.evidence))
  }

  function Last(facts: seq<Fact>): DistributionResult {
    if facts == [] then NOTHING else facts[|facts| - 1].result
  }

  /** The postings of successive results; None if the adapter refused one. */
  ghost function Stream(facts: seq<Fact>, side: Side): Option<seq<Ledger.Posting>>
    requires AllKnown(facts)
  {
    if facts == [] then Some([])
    else
      var front := facts[..|facts| - 1];
      var before, posting := Stream(front, side), ResultPosting(facts[|facts| - 1], Last(front), side);
      if before.None? || posting.None? then None else Some(before.value + [posting.value])
  }

  lemma PostingIsMove(rows: seq<Ledger.Posting>, f: Fact, prior: DistributionResult, side: Side)
    requires f.result.Known? && prior.Known? && ResultPosting(f, prior, side).Some?
    ensures Ledger.Worth(Ledger.Balances(rows + [ResultPosting(f, prior, side).value])) ==
      Ledger.Worth(Ledger.Balances(rows)) + Equity(f.result, side) - Equity(prior, side)
  {
    var more := rows + [ResultPosting(f, prior, side).value];
    assert more[..|rows|] == rows;
  }

  /** One more result: refused, or one more posting. */
  lemma StreamNext(facts: seq<Fact>, f: Fact, side: Side)
    requires AllKnown(facts) && f.result.Known?
    ensures AllKnown(facts + [f]) && Last(facts + [f]) == f.result
    ensures Stream(facts + [f], side) ==
      if Stream(facts, side).None? || ResultPosting(f, Last(facts), side).None? then None
      else Some(Stream(facts, side).value + [ResultPosting(f, Last(facts), side).value])
  {
    assert (facts + [f])[..|facts|] == facts;
  }

  /** The adapter refuses exactly when some result counts several payments. */
  lemma {:induction false} RefusedExactly(facts: seq<Fact>, side: Side)
    requires AllKnown(facts)
    ensures Stream(facts, side).Some? <==> forall i :: 0 <= i < |facts| ==> |facts[i].result.payments| <= 1
  {
    if facts == [] {
    } else {
      var front, last := facts[..|facts| - 1], facts[|facts| - 1];
      LastSplits(facts);
      RefusedExactly(front, side);
      RefusedOne(last, Last(front), side);
      hide ResultPosting, Stream;
      StreamNext(front, last, side);
      assert forall i :: 0 <= i < |front| ==> facts[i] == front[i];
    }
  }

  lemma RefusedOne(f: Fact, prior: DistributionResult, side: Side)
    requires f.result.Known? && prior.Known?
    ensures ResultPosting(f, prior, side).Some? <==> |f.result.payments| <= 1
  {}

  /** The postings telescope. */
  lemma {:induction false} StreamTelescopes(facts: seq<Fact>, side: Side)
    requires AllKnown(facts) && Stream(facts, side).Some?
    ensures Ledger.Worth(Ledger.Balances(Stream(facts, side).value)) == Equity(Last(facts), side)
  {
    if facts == [] {
    } else {
      var front, last := facts[..|facts| - 1], facts[|facts| - 1];
      assert facts == front + [last];
      StreamNext(front, last, side);
      StreamTelescopes(front, side);
      TelescopeStep(Stream(front, side).value, last, Last(front), side);
    }
  }

  lemma TelescopeStep(rows: seq<Ledger.Posting>, f: Fact, prior: DistributionResult, side: Side)
    requires f.result.Known? && prior.Known? && ResultPosting(f, prior, side).Some?
    requires Ledger.Worth(Ledger.Balances(rows)) == Equity(prior, side)
    ensures Ledger.Worth(Ledger.Balances(rows + [ResultPosting(f, prior, side).value])) == Equity(f.result, side)
  {
    PostingIsMove(rows, f, prior, side);
  }

  /** The two sides of an action never post under one key, unless both move cash for the same payment. */
  lemma SidesNeverCollide(f: Fact, g: Fact, prior: DistributionResult, prior': DistributionResult)
    requires f.result.Known? && g.result.Known? && prior.Known? && prior'.Known?
    requires ResultPosting(f, prior, LongSide).Some? && ResultPosting(g, prior', ShortSide).Some?
    ensures var p, q := ResultPosting(f, prior, LongSide).value, ResultPosting(g, prior', ShortSide).value;
      && p.allocation == Some(f.actionId + ":LONG") && q.allocation == Some(g.actionId + ":SHORT")
      && (Ledger.KeyOf(p) == Ledger.KeyOf(q) <==> Identified(p.payment) && p.payment == q.payment)
  {
    assert f.actionId == g.actionId ==> |f.actionId + ":LONG"| != |g.actionId + ":SHORT"|;
  }

  /** Two results of one side post under one key exactly when both move cash for the same payment, or neither names a
      payment and action, revision and occurrence are the same. */
  lemma KeysCollideExactly(f: Fact, g: Fact, prior: DistributionResult, prior': DistributionResult, side: Side)
    requires f.result.Known? && g.result.Known? && prior.Known? && prior'.Known?
    requires ResultPosting(f, prior, side).Some? && ResultPosting(g, prior', side).Some?
    ensures var p, q := ResultPosting(f, prior, side).value, ResultPosting(g, prior', side).value;
      Ledger.KeyOf(p) == Ledger.KeyOf(q) <==>
        if Identified(p.payment) then q.payment == p.payment
        else !Identified(q.payment) && f.actionId == g.actionId && f.revisionId == g.revisionId && f.at == g.at
  {
    assert ACCRUAL[|ACCRUAL| - 7..] == "accrual";
    assert Ledger.EndsWith(ACCRUAL, "accrual");
  }

  // --- settlement is never second income ---

  /** What one moment knew about an action. */
  datatype View = View(holdings: seq<Holding>, action: Action, settlements: seq<Settlement>, at: int, written: string,
                       evidence: nat)

  function FactOf(v: View, side: Side): Fact {
    Fact(Distribution(v.holdings, v.action, side, v.settlements, None), v.action.actionId,
         v.action.revisionId, v.at, v.written, v.evidence)
  }

  function Facts(views: seq<View>, side: Side): (r: seq<Fact>)
    ensures |r| == |views| && forall i :: 0 <= i < |r| ==> r[i] == FactOf(views[i], side)
  {
    seq(|views|, i requires 0 <= i < |views| => FactOf(views[i], side))
  }

  // --- which results the ledger leaves out, read off the results ---

  ghost predicate Accepted(facts: seq<Fact>) {
    AllKnown(facts) && forall i :: 0 <= i < |facts| ==> |facts[i].result.payments| <= 1
  }

  /** The result before the n-th. */
  function Prior(facts: seq<Fact>, n: nat): DistributionResult
    requires n < |facts|
  {
    if n == 0 then NOTHING else facts[n - 1].result
  }

  /** The payment the n-th result moves cash for. */
  ghost function Paid(facts: seq<Fact>, n: nat): Option<string>
    requires n < |facts| && Accepted(facts)
  {
    PaymentOf(facts[n].result, Prior(facts, n))
  }

  /** Both results move cash for one payment, or neither is identified by one and action, revision and time agree. */
  ghost predicate SameClaim(facts: seq<Fact>, i: nat, j: nat)
    requires i < |facts| && j < |facts| && Accepted(facts)
  {
    || (Paid(facts, j).Some? && Paid(facts, i) == Paid(facts, j))
    || (!Identified(Paid(facts, i)) && !Identified(Paid(facts, j)) && facts[i].actionId == facts[j].actionId
        && facts[i].revisionId == facts[j].revisionId && facts[i].at == facts[j].at)
  }

  /** An earlier result with the same claim was posted. */
  ghost predicate Overtaken(facts: seq<Fact>, j: nat)
    requires j < |facts| && Accepted(facts)
    decreases j
  {
    exists i :: 0 <= i < j && SameClaim(facts, i, j) && !Overtaken(facts, i)
  }

  /** The equity the overtaken results would have moved. */
  ghost function OvertakenMoves(facts: seq<Fact>, side: Side, n: nat): real
    requires n <= |facts| && Accepted(facts)
  {
    if n == 0 then 0.0
    else
      OvertakenMoves(facts, side, n - 1)
        + if Overtaken(facts, n - 1) then Equity(facts[n - 1].result, side) - Equity(Prior(facts, n - 1), side) else 0.0
  }

  /** With proper payment ids claims carry over, so any earlier result with the same claim will do. */
  lemma {:induction false} NamedPaymentsDecide(facts: seq<Fact>, j: nat)
    requires j < |facts| && Accepted(facts) && forall i :: 0 <= i < |facts| ==> "" !in facts[i].result.payments
    ensures Overtaken(facts, j) <==> exists i :: 0 <= i < j && SameClaim(facts, i, j)
    decreases j
  {
    if exists i :: 0 <= i < j && SameClaim(facts, i, j) {
      var i :| 0 <= i < j && SameClaim(facts, i, j);
      if Overtaken(facts, i) {
        var k :| 0 <= k < i && SameClaim(facts, k, i) && !Overtaken(facts, k);
        ClaimsCarryOver(facts, k, i, j);
      }
    }
  }

  lemma ClaimsCarryOver(facts: seq<Fact>, i: nat, j: nat, k: nat)
    requires i < |facts| && j < |facts| && k < |facts| && Accepted(facts)
    requires "" !in facts[j].result.payments && SameClaim(facts, i, j) && SameClaim(facts, j, k)
    ensures SameClaim(facts, i, k)
  {}

  /** The stream has one posting per result. */
  ghost predicate Posts(facts: seq<Fact>, side: Side, stream: seq<Ledger.Posting>)
    requires Accepted(facts)
  {
    |stream| == |facts| && forall n :: 0 <= n < |facts| ==> PostsAt(facts, side, stream, n)
  }

  ghost predicate PostsAt(facts: seq<Fact>, side: Side, stream: seq<Ledger.Posting>, n: nat)
    requires Accepted(facts) && n < |facts| == |stream|
  {
    ResultPosting(facts[n], Prior(facts, n), side) == Some(stream[n])
  }

  lemma {:induction false} StreamPosts(facts: seq<Fact>, side: Side)
    requires Accepted(facts)
    ensures Stream(facts, side).Some? && Posts(facts, side, Stream(facts, side).value)
  {
    if facts == [] {
    } else {
      var front, last := facts[..|facts| - 1], facts[|facts| - 1];
      StreamPosts(front, side);
      PostsMore(front, last, side, Stream(front, side).value);
      LastSplits(facts);
    }
  }

  lemma PostsMore(facts: seq<Fact>, f: Fact, side: Side, stream: seq<Ledger.Posting>)
    requires Accepted(facts) && Posts(facts, side, stream) && f.result.Known? && |f.result.payments| <= 1
    ensures ResultPosting(f, Last(facts), side).Some? && Accepted(facts + [f])
    ensures Posts(facts + [f], side, stream + [ResultPosting(f, Last(facts), side).value])
  {
    var more, longer := facts + [f], stream + [ResultPosting(f, Last(facts), side).value];
    forall n | 0 <= n < |more| ensures PostsAt(more, side, longer, n) {
      if n < |facts| { assert PostsAt(facts, side, stream, n) && Prior(more, n) == Prior(facts, n); }
    }
  }

  lemma ClaimIsSame(facts: seq<Fact>, side: Side, stream: seq<Ledger.Posting>, i: nat, j: nat)
    requires Accepted(facts) && i < |facts| == |stream| && j < |facts|
    requires PostsAt(facts, side, stream, i) && PostsAt(facts, side, stream, j)
    ensures SameClaim(facts, i, j) <==> Ledger.Same(stream[i], stream[j])
  {
    KeysCollideExactly(facts[i], facts[j], Prior(facts, i), Prior(facts, j), side);
  }

  /** A result is overtaken exactly when its posting is covered. */
  lemma {:induction false} OvertakenIsCovered(facts: seq<Fact>, side: Side, stream: seq<Ledger.Posting>, j: nat)
    requires Accepted(facts) && Posts(facts, side, stream) && j < |facts|
    ensures Overtaken(facts, j) <==> Ledger.Covered(stream, j)
    decreases j
  {
    assert PostsAt(facts, side, stream, j);
    forall i | 0 <= i < j
      ensures SameClaim(facts, i, j) <==> Ledger.Same(stream[i], stream[j])
      ensures Overtaken(facts, i) <==> Ledger.Covered(stream, i)
    {
      assert PostsAt(facts, side, stream, i);
      ClaimIsSame(facts, side, stream, i, j);
      OvertakenIsCovered(facts, side, stream, i);
    }
  }

  lemma {:induction false} MovesAreCovered(facts: seq<Fact>, side: Side, stream: seq<Ledger.Posting>, n: nat)
    requires Accepted(facts) && Posts(facts, side, stream) && n <= |facts|
    ensures Ledger.Worth(Ledger.CoveredAmounts(stream, n)) == OvertakenMoves(facts, side, n)
  {
    if n == 0 {
    } else {
      MovesAreCovered(facts, side, stream, n - 1);
      OvertakenIsCovered(facts, side, stream, n - 1);
      assert PostsAt(facts, side, stream, n - 1);
      MoveIsWorth(facts[n - 1], Prior(facts, n - 1), side);
      WorthOfPlus(Ledger.CoveredAmounts(stream, n - 1), stream[n - 1].amounts);
    }
  }

  lemma WorthOfPlus(a: Ledger.Amounts, b: Ledger.Amounts)
    ensures Ledger.Worth(a.Plus(b)) == Ledger.Worth(a) + Ledger.Worth(b)
  {}

  lemma MoveIsWorth(f: Fact, prior: DistributionResult, side: Side)
    requires f.result.Known? && prior.Known? && ResultPosting(f, prior, side).Some?
    ensures Ledger.Worth(ResultPosting(f, prior, side).value.amounts) == Equity(f.result, side) - Equity(prior, side)
  {}

  /** The ledger ends at the equity of the last result exactly when the moves of the overtaken results cancel. */
  lemma OvertakenDecide(facts: seq<Fact>, side: Side)
    requires Accepted(facts)
    ensures Stream(facts, side).Some?
    ensures Ledger.Worth(Ledger.Balances(Ledger.RecordAll(Stream(facts, side).value).rows)) == Equity(Last(facts), side)
      <==> OvertakenMoves(facts, side, |facts|) == 0.0
  {
    StreamPosts(facts, side);
    var stream := Stream(facts, side).value;
    StreamTelescopes(facts, side);
    MovesAreCovered(facts, side, stream, |facts|);
    CoveredDecide(stream, Equity(Last(facts), side));
  }

  /** What is missing on the books is what was covered. */
  lemma {:induction false} CoveredDecide(stream: seq<Ledger.Posting>, target: real)
    requires Ledger.Worth(Ledger.Balances(stream)) == target
    ensures Ledger.Worth(Ledger.Balances(Ledger.RecordAll(stream).rows)) == target
      <==> Ledger.Worth(Ledger.CoveredAmounts(stream, |stream|)) == 0.0
  {
    hide Ledger.Balances, Ledger.RecordAll, Ledger.CoveredAmounts;
    Ledger.CoveredAreMissing(stream);
    WorthAdds(Ledger.Balances(Ledger.RecordAll(stream).rows), Ledger.CoveredAmounts(stream, |stream|),
              Ledger.Balances(stream));
  }

  /** However an action was revised, cancelled, paid and refunded along the way, for long and short alike, the ledger
      ends at the signed target of the last result exactly when the equity moves of the overtaken results cancel:
      a settlement only moves cash. */
  lemma {:induction false} SettlementIsNeverSecondIncome(views: seq<View>, side: Side)
    requires views != [] && Accepted(Facts(views, side))
    ensures var facts := Facts(views, side);
      && Stream(facts, side).Some?
      && (Ledger.Worth(Ledger.Balances(Ledger.RecordAll(Stream(facts, side).value).rows))
          == SignedTarget(Last(facts), side)
          <==> OvertakenMoves(facts, side, |facts|) == 0.0)
  {
    LastIsTarget(views, side);
    OvertakenDecide(Facts(views, side), side);
  }

  lemma LastIsTarget(views: seq<View>, side: Side)
    requires views != [] && AllKnown(Facts(views, side))
    ensures Equity(Last(Facts(views, side)), side) == SignedTarget(Last(Facts(views, side)), side)
  {
    var v := views[|views| - 1];
    EquityIsTarget(v.holdings, v.action, side, v.settlements);
  }

  lemma WorthAdds(a: Ledger.Amounts, b: Ledger.Amounts, c: Ledger.Amounts)
    requires Ledger.AddUp(a, b, c)
    ensures Ledger.Worth(a) + Ledger.Worth(b) == Ledger.Worth(c)
  {}

  /** With no repeated key and no repeated payment nothing is dropped. */
  lemma DistinctPostingsShowTarget(views: seq<View>, side: Side)
    requires views != [] && AllKnown(Facts(views, side)) && Stream(Facts(views, side), side).Some?
    requires var stream := Stream(Facts(views, side), side).value;
      Ledger.KeysUnique(stream) && Ledger.PaymentsUnique(stream)
    ensures var stream := Stream(Facts(views, side), side).value;
      Ledger.Worth(Ledger.Balances(Ledger.RecordAll(stream).rows)) == SignedTarget(Last(Facts(views, side)), side)
  {
    LastIsTarget(views, side);
    StreamTelescopes(Facts(views, side), side);
    Ledger.RecordedInFullExactly(Stream(Facts(views, side), side).value);
  }

  /** Of two postings for one payment only the first is recorded. */
  lemma OnlyFirstRecorded(p: Ledger.Posting, q: Ledger.Posting)
    requires p.logicalKey.None? && Identified(p.payment) && q.payment == p.payment
    ensures Ledger.RecordAll([] + [p] + [q]).rows == [p]
  {
    var stream := [] + [p] + [q];
    assert stream[..1] == [] + [p];
    Ledger.PaymentsAreNotRepeated(stream, 0, 1);
    Ledger.RecordedNext([], p);
    Ledger.RecordedNext([] + [p], q);
    assert Ledger.Match([], p).None?;
  }

  /** A payment whose amount is corrected later is not posted again: the ledger keeps the first cash for it, and the
      equity of the result before the correction. */
  lemma CorrectedPaymentIsDropped(f: Fact, g: Fact, side: Side)
    requires f.result.Known? && g.result.Known? && |f.result.payments| == 1 && g.result.payments == f.result.payments
    requires Only(f.result.payments) != "" && f.result.settled != 0.0 && g.result.settled != f.result.settled
    ensures AllKnown([] + [f] + [g]) && Stream([] + [f] + [g], side).Some?
    ensures var rows := Ledger.RecordAll(Stream([] + [f] + [g], side).value).rows;
      && |rows| == 1 && rows[0].amounts.cash == (if side.LongSide? then f.result.settled else -f.result.settled)
      && Ledger.Worth(Ledger.Balances(rows)) == Equity(f.result, side)
  {
    var p, q := ResultPosting(f, NOTHING, side).value, ResultPosting(g, f.result, side).value;
    StreamNext([], f, side);
    assert Stream([] + [f], side) == Some([] + [p]);
    StreamTelescopes([] + [f], side);
    StreamNext([] + [f], g, side);
    assert Stream([] + [f] + [g], side) == Some([] + [p] + [q]);
    OnlyFirstRecorded(p, q);
  }
}
