/** Share conservation, at-most-once submission and notifications over whole runs. */
module OrderConservation {
  import opened Common
  import opened OrderJournal
  import opened OrderProtocol
  import opened OrderTruth

  // --- at most one request per order ---

  function SendCount(run: seq<Action>, i: nat): nat {
    if run == [] then 0
    else SendCount(run[..|run| - 1], i) + if run[|run| - 1] == Send(i) then 1 else 0
  }

  lemma {:induction false} SendsAreCounted(run: seq<Action>, i: nat)
    requires IsRun(INITIAL, run)
    ensures var w := After(INITIAL, run);
      Shaped(w) && SendCount(run, i) == if i < |w.j.orders| then w.remote[i].sends else 0
    decreases |run|
  {
    RunShaped(INITIAL, run);
    if run == [] {
    } else {
      var front, a := run[..|run| - 1], run[|run| - 1];
      SendsAreCounted(front, i);
      var w := After(INITIAL, front);
      if a.Discover? { DiscoverKeepsSends(w, a.order, a.kinds, i); }
    }
  }

  lemma {:induction false} DiscoverKeepsSends(w: World, id: nat, kinds: seq<LegKind>, i: nat)
    requires Shaped(w) && id < |w.j.orders| && w.j.orders[id].IsEntry()
    ensures var w' := DiscoverAll(w, id, kinds);
      |w'.remote| == |w'.j.orders| >= |w.j.orders|
      && (i < |w'.j.orders| ==> w'.remote[i].sends == if i < |w.j.orders| then w.remote[i].sends else 0)
  {
    if kinds == [] {
    } else {
      DiscoverKeepsSends(w, id, kinds[..|kinds| - 1], i);
    }
  }

  /** Over any run, with a crash at any point, each order leaves the process at most once; once sent it is
      never again in the only state from which it could be sent. */
  lemma AtMostOnceSubmission(run: seq<Action>, i: nat)
    requires IsRun(INITIAL, run)
    ensures SendCount(run, i) <= 1
    ensures SendCount(run, i) == 1 ==>
      var w := After(INITIAL, run);
      i < |w.j.orders| && !w.j.orders[i].state.PendingSubmission? && w.sending != Some(i)
  {
    SendsAreCounted(run, i);
    RunKeepsBase(run);
    var w := After(INITIAL, run);
    if i < |w.j.orders| {
      assert RowLinked(w.j, i);
      if w.j.orders[i].IsLeg() { LegsAreNeverSent(run, i); } else { assert OwnRowTrue(w, i); }
    }
  }

  lemma {:induction false} LegsAreNeverSent(run: seq<Action>, i: nat)
    requires IsRun(INITIAL, run)
    ensures var w := After(INITIAL, run);
      Shaped(w) && (i < |w.j.orders| && w.j.orders[i].IsLeg() ==> w.remote[i].sends == 0)
    decreases |run|
  {
    RunShaped(INITIAL, run);
    if run == [] {
    } else {
      var front, a := run[..|run| - 1], run[|run| - 1];
      LegsAreNeverSent(front, i);
      var w := After(INITIAL, front);
      if a.Discover? {
        DiscoverKeepsSends(w, a.order, a.kinds, i);
        DiscoverKeepsRows(w, a.order, a.kinds);
      } else if a.Observe? {
        ReportEffect(w.j, a.order, a.report);
      }
    }
  }

  lemma {:induction false} DiscoverKeepsRows(w: World, id: nat, kinds: seq<LegKind>)
    requires Shaped(w) && id < |w.j.orders| && w.j.orders[id].IsEntry()
    ensures var w' := DiscoverAll(w, id, kinds);
      && Shaped(w') && w'.j.trades == w.j.trades && w'.events == w.events && |w.j.orders| <= |w'.j.orders|
      && (forall i :: 0 <= i < |w.j.orders| ==> w'.j.orders[i].parent == w.j.orders[i].parent)
  {
    DiscoverAllShaped(w, id, kinds);
    if kinds == [] {
    } else {
      var front := kinds[..|kinds| - 1];
      DiscoverKeepsRows(w, id, front);
      DiscoverAllShaped(w, id, front);
    }
  }

  /** Once order `i` is past its intent and not on its way out, it can only be looked up: a lost response, a
      failed validation or a crash before the call never leads to another request. */
  lemma {:induction false} LookedUpNeverResent(run: seq<Action>, n: nat, i: nat)
    requires IsRun(INITIAL, run) && n <= |run| && IsRun(INITIAL, run[..n])
    requires Past(After(INITIAL, run[..n]), i)
    ensures Past(After(INITIAL, run), i)
    ensures SendCount(run, i) == SendCount(run[..n], i)
    decreases |run|
  {
    if n == |run| {
      assert run[..n] == run;
    } else {
      var front, a := run[..|run| - 1], run[|run| - 1];
      assert front[..n] == run[..n];
      LookedUpNeverResent(front, n, i);
      RunShaped(INITIAL, front);
      PastStaysPast(After(INITIAL, front), a, i);
    }
  }

  /** Order `i` has left the only state from which a request can start. */
  ghost predicate Past(w: World, i: nat) {
    i < |w.j.orders| && !w.j.orders[i].state.PendingSubmission? && w.sending != Some(i)
  }

  lemma PastStaysPast(w: World, a: Action, i: nat)
    requires Shaped(w) && Enabled(w, a) && Past(w, i)
    ensures Past(Do(w, a), i) && a != Send(i)
  {
    if a.Observe? { ReportEffect(w.j, a.order, a.report); }
    if a.Discover? { DiscoverKeepsStates(w, a.order, a.kinds); }
  }

  lemma {:induction false} DiscoverKeepsStates(w: World, id: nat, kinds: seq<LegKind>)
    requires Shaped(w) && id < |w.j.orders| && w.j.orders[id].IsEntry()
    ensures var w' := DiscoverAll(w, id, kinds);
      w'.sending == w.sending && w'.listing == w.listing && |w.j.orders| <= |w'.j.orders|
      && forall i :: 0 <= i < |w.j.orders| ==> w'.j.orders[i].state == w.j.orders[i].state
  {
    if kinds == [] {
    } else {
      DiscoverKeepsStates(w, id, kinds[..|kinds| - 1]);
    }
  }

  // --- share conservation ---

  /** Shares the journal still shows for trade `t` beyond bought minus sold. */
  ghost function Drift(w: World, t: nat): int
    requires Shaped(w) && t < |w.j.trades|
  {
    w.j.trades[t].remaining - (w.j.trades[t].shares - ExitsApplied(w.j.orders, t))
  }

  ghost predicate Conserved(w: World, t: nat)
    requires Shaped(w) && t < |w.j.trades|
  {
    assert TradeLinked(w.j, t);
    w.j.trades[t].remaining == w.j.orders[w.j.trades[t].entryOrder].applied - ExitsApplied(w.j.orders, t)
  }

  /** The entry of trade `t` grows. */
  ghost predicate EntryGrows(w: World, a: Action, t: nat)
    requires Shaped(w)
  {
    a.Observe? && a.order < |w.j.orders| && w.j.orders[a.order].IsEntry() && w.j.orders[a.order].tradeId == Some(t)
    && a.report.filled > w.j.orders[a.order].applied as real
  }

  /** The branch that loses shares: the entry of `t` grows after some of `t` was already sold. */
  ghost predicate Late(w: World, a: Action, t: nat)
    requires Shaped(w)
  {
    EntryGrows(w, a, t) && ExitsApplied(w.j.orders, t) > 0
  }

  lemma ExitsNonNegative(orders: seq<Order>, t: nat)
    ensures ExitsApplied(orders, t) >= 0
  {
    var zeros := seq(|orders|, i => 0);
    SumZero(zeros);
    SumMonotone(zeros, ExitWeights(orders, t));
  }

  lemma NoExitsYet(w: World, t: nat)
    requires Shaped(w) && |w.j.trades| <= t
    ensures ExitsApplied(w.j.orders, t) == 0
  {
    forall i | 0 <= i < |w.j.orders| ensures ExitWeight(w.j.orders[i], t) == 0 { assert RowLinked(w.j, i); }
    SumZero(ExitWeights(w.j.orders, t));
  }

  lemma DiscoverOneKeepsExits(w: World, id: nat, kind: LegKind, t: nat)
    requires Shaped(w) && id < |w.j.orders|
    ensures ExitsApplied(DiscoverOne(w, id, kind).j.orders, t) == ExitsApplied(w.j.orders, t)
  {
    var before, after := w.j.orders, DiscoverOne(w, id, kind).j.orders;
    if |after| > |before| {
      SumExtend(ExitWeights(before, t), ExitWeights(after, t));
    } else {
      var row := FindLeg(before, Parent(id, kind)).value;
      assert RowLinked(w.j, row);
      assert ExitWeights(before, t) == ExitWeights(after, t);
    }
  }

  lemma {:induction false} DiscoverKeepsExits(w: World, id: nat, kinds: seq<LegKind>, t: nat)
    requires Shaped(w) && id < |w.j.orders| && w.j.orders[id].IsEntry()
    ensures ExitsApplied(DiscoverAll(w, id, kinds).j.orders, t) == ExitsApplied(w.j.orders, t)
  {
    if kinds == [] {
    } else {
      var front := kinds[..|kinds| - 1];
      DiscoverKeepsExits(w, id, front, t);
      DiscoverAllShaped(w, id, front);
      DiscoverOneKeepsExits(DiscoverAll(w, id, front), id, kinds[|kinds| - 1], t);
    }
  }

  lemma ObserveDrift(w: World, id: nat, report: Report, emitted: bool, t: nat)
    requires Shaped(w) && Enabled(w, Observe(id, report, emitted)) && Shaped(Do(w, Observe(id, report, emitted)))
    requires t < |w.j.trades|
    ensures var a := Observe(id, report, emitted);
      && t < |Do(w, a).j.trades|
      && Drift(Do(w, a), t) == (if EntryGrows(w, a, t) then ExitsApplied(w.j.orders, t) else Drift(w, t))
      && (EntryGrows(w, a, t) ==> ExitsApplied(Do(w, a).j.orders, t) == ExitsApplied(w.j.orders, t))
      && ExitsApplied(Do(w, a).j.orders, t) >= ExitsApplied(w.j.orders, t)
  {
    var w' := Do(w, Observe(id, report, emitted));
    ReportEffect(w.j, id, report);
    SumChange(ExitWeights(w.j.orders, t), ExitWeights(w'.j.orders, t), id);
    if w.j.orders[id].tradeId == Some(t) {
      if report.filled > w.j.orders[id].applied as real { ReportShares(w.j, id, report, t); }
    } else {
      assert w'.j.trades[t] == w.j.trades[t];
    }
  }

  lemma NewTradeDrift(w: World, id: nat, report: Report, emitted: bool)
    requires Shaped(w) && Enabled(w, Observe(id, report, emitted)) && Shaped(Do(w, Observe(id, report, emitted)))
    requires |Do(w, Observe(id, report, emitted)).j.trades| > |w.j.trades|
    ensures var w', t := Do(w, Observe(id, report, emitted)), |w.j.trades|;
      |w'.j.trades| == t + 1 && Drift(w', t) == 0 == ExitsApplied(w'.j.orders, t) == ExitsApplied(w.j.orders, t)
  {
    var w' := Do(w, Observe(id, report, emitted));
    ReportEffect(w.j, id, report);
    NoExitsYet(w, |w.j.trades|);
    SumChange(ExitWeights(w.j.orders, |w.j.trades|), ExitWeights(w'.j.orders, |w.j.trades|), id);
  }

  /** Effect of every step on bought minus sold: entry growth resets it, nothing else moves it. */
  lemma StepDrift(w: World, a: Action, t: nat)
    requires Shaped(w) && Enabled(w, a) && Shaped(Do(w, a)) && t < |Do(w, a).j.trades|
    ensures t < |w.j.trades| ==>
      Drift(Do(w, a), t) == if EntryGrows(w, a, t) then ExitsApplied(w.j.orders, t) else Drift(w, t)
    ensures t >= |w.j.trades| ==> Drift(Do(w, a), t) == 0
    ensures t < |w.j.trades| && EntryGrows(w, a, t) ==>
      ExitsApplied(Do(w, a).j.orders, t) == ExitsApplied(w.j.orders, t)
    ensures ExitsApplied(Do(w, a).j.orders, t) >= ExitsApplied(w.j.orders, t)
  {
    if a.Observe? {
      if t < |w.j.trades| { ObserveDrift(w, a.order, a.report, a.emitted, t); }
      else { NewTradeDrift(w, a.order, a.report, a.emitted); }
    } else if a.Discover? {
      DiscoverKeepsExits(w, a.order, a.kinds, t);
      DiscoverKeepsRows(w, a.order, a.kinds);
    } else {
      QuietStepDrift(w, a, t);
    }
  }

  lemma QuietStepDrift(w: World, a: Action, t: nat)
    requires Shaped(w) && Enabled(w, a) && Shaped(Do(w, a)) && !a.Observe? && !a.Discover? && t < |Do(w, a).j.trades|
    ensures t < |w.j.trades| && !EntryGrows(w, a, t) && Drift(Do(w, a), t) == Drift(w, t)
    ensures ExitsApplied(Do(w, a).j.orders, t) == ExitsApplied(w.j.orders, t)
  {
    var before, after := ExitWeights(w.j.orders, t), ExitWeights(Do(w, a).j.orders, t);
    SumPadded(before, after);
  }

  /** Some step of the run lets the entry of trade `t` grow after an exit fill of `t`. */
  ghost predicate LateIn(run: seq<Action>, t: nat)
    requires IsRun(INITIAL, run)
    decreases |run|
  {
    run != [] && (
      var front := run[..|run| - 1];
      RunShaped(INITIAL, front);
      LateIn(front, t) || Late(After(INITIAL, front), run[|run| - 1], t))
  }

  lemma {:induction false} RunDrift(run: seq<Action>, t: nat)
    requires IsRun(INITIAL, run) && Shaped(After(INITIAL, run)) && t < |After(INITIAL, run).j.trades|
    ensures var w := After(INITIAL, run);
      0 <= Drift(w, t) <= ExitsApplied(w.j.orders, t) && (Drift(w, t) == 0 <==> !LateIn(run, t))
    decreases |run|
  {
    if run == [] {
    } else {
      var front, a := run[..|run| - 1], run[|run| - 1];
      RunShaped(INITIAL, front);
      var w := After(INITIAL, front);
      StepDrift(w, a, t);
      ExitsNonNegative(w.j.orders, t);
      if t < |w.j.trades| { RunDrift(front, t); } else { NoLateYet(front, t); NewTradeIsNotLate(w, a, t); }
    }
  }

  lemma NewTradeIsNotLate(w: World, a: Action, t: nat)
    requires Shaped(w) && |w.j.trades| <= t
    ensures !Late(w, a, t)
  {
    NoExitsYet(w, t);
  }

  lemma {:induction false} NoLateYet(run: seq<Action>, t: nat)
    requires IsRun(INITIAL, run) && Shaped(After(INITIAL, run)) && |After(INITIAL, run).j.trades| <= t
    ensures !LateIn(run, t)
    decreases |run|
  {
    if run == [] {
    } else {
      var front, a := run[..|run| - 1], run[|run| - 1];
      RunShaped(INITIAL, front);
      var w := After(INITIAL, front);
      TradesOnlyGrow(w, a);
      NoLateYet(front, t);
      NewTradeIsNotLate(w, a, t);
    }
  }

  lemma TradesOnlyGrow(w: World, a: Action)
    requires Shaped(w) && Enabled(w, a)
    ensures |w.j.trades| <= |Do(w, a).j.trades|
  {
    if a.Observe? { ReportEffect(w.j, a.order, a.report); }
    if a.Discover? { DiscoverKeepsRows(w, a.order, a.kinds); }
  }

  /** Share conservation, exactly: after any run, against any broker, the remaining shares of a trade equal
      shares bought by its entry minus shares sold over all its exits if and only if no step of the run let
      the entry grow after an exit fill had been recorded. */
  lemma ConservationExactly(run: seq<Action>, t: nat)
    requires IsRun(INITIAL, run) && Shaped(After(INITIAL, run)) && t < |After(INITIAL, run).j.trades|
    ensures Conserved(After(INITIAL, run), t) <==> !LateIn(run, t)
  {
    RunDrift(run, t);
    assert TradeLinked(After(INITIAL, run).j, t);
  }

  // --- open and held ---

  ghost predicate OpenMeansHeld(w: World, t: nat) {
    t < |w.j.trades| ==> (w.j.trades[t].open <==> w.j.trades[t].remaining > 0)
  }

  /** In every state of the run the trade is open exactly while it has shares. */
  ghost predicate AlwaysHeld(run: seq<Action>, t: nat)
    requires IsRun(INITIAL, run)
    decreases |run|
  {
    (run == [] || AlwaysHeld(run[..|run| - 1], t)) && OpenMeansHeld(After(INITIAL, run), t)
  }

  /** The entry of `t` grows although the trade is closed already. */
  ghost predicate Strands(w: World, a: Action, t: nat)
    requires Shaped(w)
  {
    EntryGrows(w, a, t) && t < |w.j.trades| && !w.j.trades[t].open
  }

  ghost predicate StrandsIn(run: seq<Action>, t: nat)
    requires IsRun(INITIAL, run)
    decreases |run|
  {
    run != [] && (
      var front := run[..|run| - 1];
      RunShaped(INITIAL, front);
      StrandsIn(front, t) || Strands(After(INITIAL, front), run[|run| - 1], t))
  }

  /** A trade is open exactly while it has shares, all through a run, if and only if no entry fill of the run is
      recorded on it after it was closed. */
  lemma {:induction false} OpenExactlyWhileHeld(run: seq<Action>, t: nat)
    requires IsRun(INITIAL, run)
    ensures AlwaysHeld(run, t) <==> !StrandsIn(run, t)
    decreases |run|
  {
    if run == [] {
    } else {
      var front, a := run[..|run| - 1], run[|run| - 1];
      OpenExactlyWhileHeld(front, t);
      RunKeepsBase(front);
      if AlwaysHeld(front, t) {
        assert OpenMeansHeld(After(INITIAL, front), t);
        StepHolds(After(INITIAL, front), a, t);
      }
    }
  }

  /** A step keeps a trade open exactly while held unless it strands shares on a closed one. */
  lemma StepHolds(w: World, a: Action, t: nat)
    requires Base(w) && Enabled(w, a) && OpenMeansHeld(w, t)
    ensures OpenMeansHeld(Do(w, a), t) <==> !Strands(w, a, t)
  {
    if a.Discover? { DiscoverKeepsRows(w, a.order, a.kinds); }
    if a.Observe? {
      ReportEffect(w.j, a.order, a.report);
      assert RowLinked(w.j, a.order);
      if t < |w.j.trades| {
        assert TradeLinked(w.j, t);
        if w.j.orders[a.order].tradeId == Some(t) && a.report.filled > w.j.orders[a.order].applied as real {
          ReportShares(w.j, a.order, a.report, t);
        }
      }
    }
  }

  // --- notifications ---

  ghost predicate EventsAgree(w: World, t: nat) {
    && multiset(w.events)[Opened(t)] <= 1 && multiset(w.events)[Closed(t)] <= 1
    && (t >= |w.j.trades| ==> multiset(w.events)[Opened(t)] == 0 == multiset(w.events)[Closed(t)])
    && (t < |w.j.trades| && multiset(w.events)[Closed(t)] > 0 ==> w.j.trades[t].remaining == 0)
  }

  ghost predicate AlwaysAgree(run: seq<Action>, t: nat)
    requires IsRun(INITIAL, run)
    decreases |run|
  {
    (run == [] || AlwaysAgree(run[..|run| - 1], t)) && EventsAgree(After(INITIAL, run), t)
  }

  /** The entry of `t` grows although its close was announced already. */
  ghost predicate Belies(w: World, a: Action, t: nat)
    requires Shaped(w)
  {
    EntryGrows(w, a, t) && multiset(w.events)[Closed(t)] > 0
  }

  ghost predicate BeliesIn(run: seq<Action>, t: nat)
    requires IsRun(INITIAL, run)
    decreases |run|
  {
    run != [] && (
      var front := run[..|run| - 1];
      RunShaped(INITIAL, front);
      BeliesIn(front, t) || Belies(After(INITIAL, front), run[|run| - 1], t))
  }

  /** Whatever crashes swallow: all through a run at most one open and one close of a trade are announced, and an
      announced close is true, if and only if no entry fill is recorded after its close was announced. */
  lemma {:induction false} OneOpenAndOneClose(run: seq<Action>, t: nat)
    requires IsRun(INITIAL, run)
    ensures AlwaysAgree(run, t) <==> !BeliesIn(run, t)
    decreases |run|
  {
    if run == [] {
    } else {
      var front, a := run[..|run| - 1], run[|run| - 1];
      OneOpenAndOneClose(front, t);
      RunKeepsBase(front);
      if AlwaysAgree(front, t) {
        assert EventsAgree(After(INITIAL, front), t);
        StepAgrees(After(INITIAL, front), a, t);
      }
    }
  }

  lemma StepAgrees(w: World, a: Action, t: nat)
    requires Base(w) && Enabled(w, a) && EventsAgree(w, t)
    ensures EventsAgree(Do(w, a), t) <==> !Belies(w, a, t)
  {
    if a.Discover? { DiscoverKeepsRows(w, a.order, a.kinds); }
    if a.Observe? { ObserveAgrees(w, a, t); }
  }

  lemma ObserveAgrees(w: World, a: Action, t: nat)
    requires Base(w) && Enabled(w, a) && a.Observe? && EventsAgree(w, t)
    ensures EventsAgree(Do(w, a), t) <==> !Belies(w, a, t)
  {
    var w' := Do(w, a);
    ReportEffect(w.j, a.order, a.report);
    var news := EventOf(w.j, w'.j, a.order);
    assert multiset(w'.events) == multiset(w.events) + multiset(if a.emitted then news else []);
    NewsIsFirst(w, a, t);
    if t < |w.j.trades| && multiset(w.events)[Closed(t)] > 0 { AnnouncedCloseStays(w, a, t); }
  }

  /** A trade whose shares are all sold keeps none unless its entry grows: an exit cannot fill any further. */
  lemma AnnouncedCloseStays(w: World, a: Action, t: nat)
    requires Base(w) && Enabled(w, a) && a.Observe? && t < |w.j.trades| && w.j.trades[t].remaining == 0
    ensures t < |Do(w, a).j.trades| && (Do(w, a).j.trades[t].remaining == 0 <==> !EntryGrows(w, a, t))
  {
    ReportEffect(w.j, a.order, a.report);
    assert TradeLinked(w.j, t) && RowLinked(w.j, a.order);
    if w.j.orders[a.order].tradeId == Some(t) && a.report.filled > w.j.orders[a.order].applied as real {
      ReportShares(w.j, a.order, a.report, t);
    }
  }

  /** An announcement about `t` is the first of its kind. */
  lemma NewsIsFirst(w: World, a: Action, t: nat)
    requires Base(w) && Enabled(w, a) && a.Observe? && EventsAgree(w, t) && |Do(w, a).j.orders| == |w.j.orders|
    ensures var news := EventOf(w.j, Do(w, a).j, a.order);
      && |news| <= 1
      && (news == [Opened(t)] ==> t == |w.j.trades| && t < |Do(w, a).j.trades|)
      && (news == [Closed(t)] ==>
        t < |w.j.trades| && t < |Do(w, a).j.trades| && Do(w, a).j.trades[t].remaining == 0
        && multiset(w.events)[Closed(t)] == 0 && !EntryGrows(w, a, t))
  {
    ReportEffect(w.j, a.order, a.report);
    assert RowLinked(w.j, a.order);
    if EventOf(w.j, Do(w, a).j, a.order) == [Closed(t)] {
      ReportShares(w.j, a.order, a.report, t);
    }
  }

  /** Without late growth nothing is recorded on a closed trade, nor after its close was announced. */
  lemma {:induction false} NotLateMeansNeither(run: seq<Action>, t: nat)
    requires IsRun(INITIAL, run) && !LateIn(run, t)
    ensures !StrandsIn(run, t) && !BeliesIn(run, t)
    decreases |run|
  {
    if run == [] {
    } else {
      var front, a := run[..|run| - 1], run[|run| - 1];
      RunShaped(INITIAL, front);
      NotLateMeansNeither(front, t);
      OpenExactlyWhileHeld(front, t);
      OneOpenAndOneClose(front, t);
      var w := After(INITIAL, front);
      assert OpenMeansHeld(w, t) && EventsAgree(w, t);
      if EntryGrows(w, a, t) { GrowthWasEarly(front, a, t); }
    }
  }

  lemma GrowthWasEarly(front: seq<Action>, a: Action, t: nat)
    requires IsRun(INITIAL, front) && Shaped(After(INITIAL, front)) && !LateIn(front, t)
    requires EntryGrows(After(INITIAL, front), a, t) && !Late(After(INITIAL, front), a, t)
    ensures t < |After(INITIAL, front).j.trades| && After(INITIAL, front).j.trades[t].remaining > 0
  {
    var w := After(INITIAL, front);
    assert RowLinked(w.j, a.order);
    assert TradeLinked(w.j, t);
    RunDrift(front, t);
    ExitsNonNegative(w.j.orders, t);
  }
}
