/** What the journal knows about the broker in every reachable state, whatever the broker does. */
module OrderTruth {
  import opened Common
  import opened OrderJournal
  import opened OrderProtocol

  /** The order can never fill any further: it was never sent and never will be, or the broker finished it. */
  ghost predicate Dead(w: World, i: nat)
    requires Shaped(w) && i < |w.j.orders|
  {
    var r := w.remote[i];
    r.done || (r.sends == 0 && !w.j.orders[i].state.PendingSubmission? && w.sending != Some(i))
  }

  ghost predicate OwnRowTrue(w: World, i: nat)
    requires Shaped(w) && i < |w.j.orders|
  {
    var o, r := w.j.orders[i], w.remote[i];
    && r.sends <= 1 && (r.placed ==> r.sends == 1) && (r.done || r.filled > 0 ==> r.placed)
    && o.applied <= r.filled <= o.requested && r.LegsFilled() <= r.filled
    && (o.state.PendingSubmission? ==> r.sends == 0)
    && (w.sending == Some(i) ==> r.sends == 0 && o.state.Unresolved?)
    && (o.state.Terminal() ==> Dead(w, i) && o.applied == r.filled)
  }

  ghost predicate LegRowTrue(w: World, i: nat)
    requires Shaped(w) && i < |w.j.orders| && w.j.orders[i].IsLeg()
  {
    assert RowLinked(w.j, i);
    var o := w.j.orders[i];
    var leg := w.remote[o.parent.value.order].Leg(o.parent.value.kind);
    o.applied <= leg.filled && (o.state.Terminal() ==> leg.done && o.applied == leg.filled)
  }

  /** The journal never runs ahead of the broker, and what it calls terminal is final there. */
  ghost predicate Truth(w: World)
    requires Shaped(w)
  {
    forall i :: 0 <= i < |w.j.orders| ==> if w.j.orders[i].IsLeg() then LegRowTrue(w, i) else OwnRowTrue(w, i)
  }

  /** Order `i` belongs to a campaign that is over: fully observed, with no open trade. */
  ghost predicate Retired(w: World, i: nat)
    requires Shaped(w) && i < |w.j.orders|
  {
    assert RowLinked(w.j, i);
    var o := w.j.orders[i];
    && Dead(w, i) && o.applied == w.remote[i].filled
    && (o.IsEntry() && o.tradeId.Some? ==> !w.j.trades[o.tradeId.value].open)
  }

  /** `e` is an entry of the ticker own order `i` trades. */
  ghost predicate Precedes(w: World, i: nat, e: nat)
    requires i < |w.j.orders| && e < |w.j.orders|
  {
    !w.j.orders[i].IsLeg() && w.j.orders[e].IsEntry() && w.j.orders[i].ticker == w.j.orders[e].ticker
  }

  /** Campaigns of one ticker follow one another: a new entry finds everything older retired. */
  ghost predicate Sequential(w: World)
    requires Shaped(w)
  {
    && (forall i, e :: 0 <= i < e < |w.j.orders| && Precedes(w, i, e) ==> Retired(w, i))
    && (forall e, i :: 0 <= e < i < |w.j.orders| && w.j.orders[i].IsMarketExit() && Precedes(w, i, e) ==>
      e <= EntryOf(w, i))
  }

  /** The entry order of the trade a market exit sells. */
  ghost function EntryOf(w: World, i: nat): nat
    requires Shaped(w) && i < |w.j.orders| && w.j.orders[i].IsMarketExit()
  {
    assert RowLinked(w.j, i);
    w.j.trades[w.j.orders[i].tradeId.value].entryOrder
  }

  ghost predicate OpenHasShares(w: World) {
    forall t :: 0 <= t < |w.j.trades| && w.j.trades[t].open ==> w.j.trades[t].remaining > 0
  }

  ghost predicate Base(w: World) {
    Shaped(w) && Truth(w) && Sequential(w) && OpenHasShares(w)
  }

  // --- preservation, one kind of step at a time ---

  /** `w'` has the rows of `w`, rewritten but not re-identified, and possibly new leg rows. */
  ghost predicate Follows(w: World, w': World)
    requires Shaped(w) && Shaped(w')
  {
    && |w.j.orders| <= |w'.j.orders| && |w.j.trades| <= |w'.j.trades|
    && (forall i :: 0 <= i < |w.j.orders| ==>
      SameIdentity(w.j.orders[i], w'.j.orders[i])
      && (w.j.orders[i].IsMarketExit() ==> w'.j.orders[i].tradeId == w.j.orders[i].tradeId))
    && (forall i :: |w.j.orders| <= i < |w'.j.orders| ==> w'.j.orders[i].IsLeg())
    && (forall t :: 0 <= t < |w.j.trades| ==> w'.j.trades[t].entryOrder == w.j.trades[t].entryOrder)
  }

  lemma SequentialFrame(w: World, w': World)
    requires Shaped(w) && Sequential(w) && Shaped(w') && Follows(w, w')
    requires forall i :: 0 <= i < |w.j.orders| && !w.j.orders[i].IsLeg() && Retired(w, i) ==> Retired(w', i)
    ensures Sequential(w')
  {
    forall i, e | 0 <= i < e < |w'.j.orders| && Precedes(w', i, e) ensures Retired(w', i) {
      assert RowLinked(w'.j, e);
      assert Precedes(w, i, e);
    }
    forall e, i | 0 <= e < i < |w'.j.orders| && w'.j.orders[i].IsMarketExit() && Precedes(w', i, e)
      ensures e <= EntryOf(w', i) {
      assert RowLinked(w.j, i) && Precedes(w, i, e);
    }
  }

  /** Steps that touch at most one row and its trade; the others append rows. */
  ghost predicate IsRewrite(a: Action) {
    !a.OpenIntent? && !a.ExitIntent? && !a.Discover?
  }

  lemma ObserveKeepsOwnRow(w: World, id: nat, report: Report, emitted: bool, i: nat)
    requires Base(w) && Enabled(w, Observe(id, report, emitted)) && Shaped(Do(w, Observe(id, report, emitted)))
    requires i < |w.j.orders| && !w.j.orders[i].IsLeg()
    ensures OwnRowTrue(Do(w, Observe(id, report, emitted)), i)
    ensures Retired(w, i) ==> Retired(Do(w, Observe(id, report, emitted)), i)
  {
    ReportEffect(w.j, id, report);
    assert OwnRowTrue(w, i) && RowLinked(w.j, i);
  }

  lemma RewriteKeepsOwnRow(w: World, a: Action, i: nat)
    requires Base(w) && Enabled(w, a) && IsRewrite(a) && Shaped(Do(w, a))
    requires i < |w.j.orders| && !w.j.orders[i].IsLeg()
    ensures OwnRowTrue(Do(w, a), i)
    ensures Retired(w, i) ==> Retired(Do(w, a), i)
  {
    if a.Observe? {
      ObserveKeepsOwnRow(w, a.order, a.report, a.emitted, i);
    } else if AtBroker(a) {
      BrokerKeepsOwnRow(w, a, i);
    } else {
      TouchKeepsOwnRow(w, a, i);
    }
  }

  predicate AtBroker(a: Action) { a.BrokerAccepts? || a.BrokerMoves? || a.LegMoves? }

  lemma BrokerKeepsOwnRow(w: World, a: Action, i: nat)
    requires Base(w) && Enabled(w, a) && AtBroker(a) && Shaped(Do(w, a))
    requires i < |w.j.orders| && !w.j.orders[i].IsLeg()
    ensures OwnRowTrue(Do(w, a), i)
    ensures Retired(w, i) ==> Retired(Do(w, a), i)
  {
    assert OwnRowTrue(w, i) && RowLinked(w.j, i);
  }

  lemma TouchKeepsOwnRow(w: World, a: Action, i: nat)
    requires Base(w) && Enabled(w, a) && IsRewrite(a) && !a.Observe? && !AtBroker(a) && Shaped(Do(w, a))
    requires i < |w.j.orders| && !w.j.orders[i].IsLeg()
    ensures OwnRowTrue(Do(w, a), i)
    ensures Retired(w, i) ==> Retired(Do(w, a), i)
  {
    assert OwnRowTrue(w, i) && RowLinked(w.j, i);
  }

  lemma RewriteKeepsLegRow(w: World, a: Action, i: nat)
    requires Base(w) && Enabled(w, a) && IsRewrite(a) && Shaped(Do(w, a))
    requires i < |w.j.orders| && w.j.orders[i].IsLeg()
    ensures LegRowTrue(Do(w, a), i)
  {
    if a.Observe? {
      ObserveKeepsLegRow(w, a.order, a.report, a.emitted, i);
    } else {
      assert LegRowTrue(w, i) && RowLinked(w.j, i);
      assert RowLinked(w.j, w.j.orders[i].parent.value.order) && OwnRowTrue(w, w.j.orders[i].parent.value.order);
    }
  }

  lemma ObserveKeepsLegRow(w: World, id: nat, report: Report, emitted: bool, i: nat)
    requires Base(w) && Enabled(w, Observe(id, report, emitted)) && Shaped(Do(w, Observe(id, report, emitted)))
    requires i < |w.j.orders| && w.j.orders[i].IsLeg()
    ensures LegRowTrue(Do(w, Observe(id, report, emitted)), i)
  {
    ReportEffect(w.j, id, report);
    assert LegRowTrue(w, i) && RowLinked(w.j, i);
  }

  lemma RewriteFollows(w: World, a: Action)
    requires Base(w) && Enabled(w, a) && IsRewrite(a) && Shaped(Do(w, a))
    ensures Follows(w, Do(w, a)) && |Do(w, a).j.orders| == |w.j.orders| && OpenHasShares(Do(w, a))
  {
    if a.Observe? { ObserveFollows(w, a.order, a.report, a.emitted); }
  }

  lemma ObserveFollows(w: World, id: nat, report: Report, emitted: bool)
    requires Base(w) && Enabled(w, Observe(id, report, emitted)) && Shaped(Do(w, Observe(id, report, emitted)))
    ensures var w' := Do(w, Observe(id, report, emitted));
      Follows(w, w') && |w'.j.orders| == |w.j.orders| && OpenHasShares(w')
  {
    ReportEffect(w.j, id, report);
    assert RowLinked(w.j, id);
    if w.j.orders[id].tradeId.Some? && report.filled > w.j.orders[id].applied as real {
      ReportShares(w.j, id, report, w.j.orders[id].tradeId.value);
    }
  }

  lemma RewriteKeepsBase(w: World, a: Action)
    requires Base(w) && Enabled(w, a) && IsRewrite(a)
    ensures Base(Do(w, a))
  {
    var w' := Do(w, a);
    StepShaped(w, a);
    RewriteFollows(w, a);
    forall i | 0 <= i < |w.j.orders|
      ensures
        if w'.j.orders[i].IsLeg() then LegRowTrue(w', i)
        else OwnRowTrue(w', i) && (Retired(w, i) ==> Retired(w', i)) {
      if w.j.orders[i].IsLeg() { RewriteKeepsLegRow(w, a, i); } else { RewriteKeepsOwnRow(w, a, i); }
    }
    SequentialFrame(w, w');
  }

  /** On a settled ticker with no open trade every own order is retired. */
  lemma SettledMeansRetired(w: World, i: nat)
    requires Base(w) && i < |w.j.orders| && !w.j.orders[i].IsLeg()
    requires TickerSettled(w.j.orders, w.j.orders[i].ticker) && !TickerOpen(w.j.trades, w.j.orders[i].ticker)
    ensures Retired(w, i)
  {
    assert OwnRowTrue(w, i) && RowLinked(w.j, i);
  }

  /** An open trade belongs to the latest entry of its ticker. */
  lemma OpenTradeIsLatest(w: World, t: nat, e: nat)
    requires Base(w) && t < |w.j.trades| && w.j.trades[t].open
    requires e < |w.j.orders| && w.j.orders[e].IsEntry() && w.j.orders[e].ticker == w.j.trades[t].ticker
    ensures e <= w.j.trades[t].entryOrder
  {
    assert TradeLinked(w.j, t);
    var own := w.j.trades[t].entryOrder;
    assert RowLinked(w.j, own);
    assert own < e ==> Precedes(w, own, e);
  }

  lemma IntentKeepsRow(w: World, a: Action, i: nat)
    requires Base(w) && Enabled(w, a) && (a.OpenIntent? || a.ExitIntent?) && Shaped(Do(w, a))
    requires i < |Do(w, a).j.orders|
    ensures if Do(w, a).j.orders[i].IsLeg() then LegRowTrue(Do(w, a), i) else OwnRowTrue(Do(w, a), i)
    ensures i < |w.j.orders| && !w.j.orders[i].IsLeg() && Retired(w, i) ==> Retired(Do(w, a), i)
  {
    if i < |w.j.orders| {
      assert RowLinked(w.j, i);
      if w.j.orders[i].IsLeg() { assert LegRowTrue(w, i); } else { assert OwnRowTrue(w, i); }
    }
  }

  lemma IntentKeepsSequence(w: World, a: Action)
    requires Base(w) && Enabled(w, a) && (a.OpenIntent? || a.ExitIntent?) && Shaped(Do(w, a))
    ensures Sequential(Do(w, a))
  {
    var w', n := Do(w, a), |w.j.orders|;
    forall i, e | 0 <= i < e < |w'.j.orders| && Precedes(w', i, e) ensures Retired(w', i) {
      if e < n { assert Precedes(w, i, e); } else { SettledMeansRetired(w, i); }
      IntentKeepsRow(w, a, i);
    }
    forall e, i | 0 <= e < i < |w'.j.orders| && w'.j.orders[i].IsMarketExit() && Precedes(w', i, e)
      ensures e <= EntryOf(w', i) {
      if i < n { assert RowLinked(w.j, i) && Precedes(w, i, e); } else { OpenTradeIsLatest(w, a.trade, e); }
    }
  }

  lemma IntentKeepsBase(w: World, a: Action)
    requires Base(w) && Enabled(w, a) && (a.OpenIntent? || a.ExitIntent?)
    ensures Base(Do(w, a))
  {
    StepShaped(w, a);
    forall i | 0 <= i < |Do(w, a).j.orders|
      ensures if Do(w, a).j.orders[i].IsLeg() then LegRowTrue(Do(w, a), i) else OwnRowTrue(Do(w, a), i) {
      IntentKeepsRow(w, a, i);
    }
    IntentKeepsSequence(w, a);
  }

  lemma DiscoverOneKeepsBase(w: World, id: nat, kind: LegKind)
    requires Base(w) && id < |w.j.orders| && w.j.orders[id].IsEntry()
    ensures Base(DiscoverOne(w, id, kind))
  {
    DiscoverOneShaped(w, id, kind);
    DiscoverOneKeepsTruth(w, id, kind);
    DiscoverOneKeepsSequence(w, id, kind);
  }

  lemma DiscoverOneKeepsTruth(w: World, id: nat, kind: LegKind)
    requires Base(w) && id < |w.j.orders| && w.j.orders[id].IsEntry() && Shaped(DiscoverOne(w, id, kind))
    ensures Truth(DiscoverOne(w, id, kind))
  {
    forall i | 0 <= i < |DiscoverOne(w, id, kind).j.orders| ensures var w' := DiscoverOne(w, id, kind);
      if w'.j.orders[i].IsLeg() then LegRowTrue(w', i) else OwnRowTrue(w', i) {
      DiscoverOneKeepsRow(w, id, kind, i);
    }
  }

  lemma DiscoverOneKeepsSequence(w: World, id: nat, kind: LegKind)
    requires Base(w) && id < |w.j.orders| && w.j.orders[id].IsEntry() && Shaped(DiscoverOne(w, id, kind))
    ensures Sequential(DiscoverOne(w, id, kind))
  {
    var w' := DiscoverOne(w, id, kind);
    DiscoverOneFollows(w, id, kind);
    forall i | 0 <= i < |w.j.orders| && !w.j.orders[i].IsLeg() && Retired(w, i) ensures Retired(w', i) {
      DiscoverOneKeepsRow(w, id, kind, i);
    }
    SequentialFrame(w, w');
  }

  lemma DiscoverOneFollows(w: World, id: nat, kind: LegKind)
    requires Shaped(w) && id < |w.j.orders| && w.j.orders[id].IsEntry() && Shaped(DiscoverOne(w, id, kind))
    ensures Follows(w, DiscoverOne(w, id, kind))
  {
    assert RowLinked(w.j, id);
  }

  lemma DiscoverOneKeepsRow(w: World, id: nat, kind: LegKind, i: nat)
    requires Base(w) && id < |w.j.orders| && w.j.orders[id].IsEntry()
    requires Shaped(DiscoverOne(w, id, kind)) && i < |DiscoverOne(w, id, kind).j.orders|
    ensures var w' := DiscoverOne(w, id, kind);
      if w'.j.orders[i].IsLeg() then LegRowTrue(w', i)
      else i < |w.j.orders| && !w.j.orders[i].IsLeg() && OwnRowTrue(w', i) && (Retired(w, i) ==> Retired(w', i))
  {
    if i < |w.j.orders| && w.j.orders[i].IsLeg() {
      DiscoverOneKeepsLeg(w, id, kind, i);
    } else if i < |w.j.orders| {
      DiscoverOneKeepsOwn(w, id, kind, i);
    } else {
      assert RowLinked(w.j, id);
    }
  }

  lemma DiscoverOneKeepsLeg(w: World, id: nat, kind: LegKind, i: nat)
    requires Base(w) && id < |w.j.orders| && w.j.orders[id].IsEntry() && Shaped(DiscoverOne(w, id, kind))
    requires i < |w.j.orders| && w.j.orders[i].IsLeg()
    ensures var w' := DiscoverOne(w, id, kind); w'.j.orders[i].IsLeg() && LegRowTrue(w', i)
  {
    assert LegRowTrue(w, i) && RowLinked(w.j, i);
  }

  lemma DiscoverOneKeepsOwn(w: World, id: nat, kind: LegKind, i: nat)
    requires Base(w) && id < |w.j.orders| && w.j.orders[id].IsEntry() && Shaped(DiscoverOne(w, id, kind))
    requires i < |w.j.orders| && !w.j.orders[i].IsLeg()
    ensures var w' := DiscoverOne(w, id, kind);
      w'.j.orders[i] == w.j.orders[i] && OwnRowTrue(w', i) && (Retired(w, i) ==> Retired(w', i))
  {
    assert OwnRowTrue(w, i) && RowLinked(w.j, i);
  }

  lemma {:induction false} DiscoverKeepsBase(w: World, id: nat, kinds: seq<LegKind>)
    requires Base(w) && id < |w.j.orders| && w.j.orders[id].IsEntry()
    ensures Base(DiscoverAll(w, id, kinds))
  {
    if kinds == [] {
    } else {
      var front := kinds[..|kinds| - 1];
      DiscoverKeepsBase(w, id, front);
      DiscoverAllShaped(w, id, front);
      DiscoverOneKeepsBase(DiscoverAll(w, id, front), id, kinds[|kinds| - 1]);
    }
  }

  lemma StepKeepsBase(w: World, a: Action)
    requires Base(w) && Enabled(w, a)
    ensures Base(Do(w, a))
  {
    if IsRewrite(a) { RewriteKeepsBase(w, a); }
    else if a.Discover? { DiscoverKeepsBase(w, a.order, a.kinds); }
    else { IntentKeepsBase(w, a); }
  }

  lemma {:induction false} RunKeepsBase(run: seq<Action>)
    requires IsRun(INITIAL, run)
    ensures Base(After(INITIAL, run))
    decreases |run|
  {
    if run == [] {
    } else {
      RunKeepsBase(run[..|run| - 1]);
      StepKeepsBase(After(INITIAL, run[..|run| - 1]), run[|run| - 1]);
    }
  }
}
