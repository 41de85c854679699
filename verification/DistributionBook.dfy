/** All distributions of a decision time: accepted revisions, the settlements known then, both sides of each. */
module DistributionBook {
  import opened Common
  import opened Settlements
  import opened Revisions
  import opened Distributions
  import Entitlements

  type Place = (string, Side)

  /** The opening balances of each action and side, if there is a reporting window. */
  type Openings = Place -> Option<Snapshot>

  function KnownSettlements(settlements: seq<Settlement>, decision: Option<int>): seq<Settlement> {
    if settlements == [] then []
    else
      var front, last := KnownSettlements(settlements[..|settlements| - 1], decision), settlements[|settlements| - 1];
      if KnownBy(last.knowledgeAt, decision) then front + [last] else front
  }

  /** What the book says of one action and side. */
  function ResultOf(holdings: seq<Holding>, a: Action, side: Side, known: seq<Settlement>,
                    openings: Openings): DistributionResult
  {
    Distribution(holdings, a, side, known, openings((a.actionId, side)))
  }

  /** The book has exactly the two sides of every accepted action and of every action in conflict. */
  ghost predicate IsBook(book: map<Place, DistributionResult>, accepted: set<Action>, conflicts: set<string>,
                         holdings: seq<Holding>, known: seq<Settlement>, openings: Openings)
  {
    && (forall a, side :: a in accepted ==>
      (a.actionId, side) in book && book[(a.actionId, side)] == ResultOf(holdings, a, side, known, openings))
    && (forall id, side :: id in conflicts ==> (id, side) in book && book[(id, side)] == Unknown(ConflictingRevision))
    && forall place :: place in book ==> place.0 in conflicts || exists a :: a in accepted && a.actionId == place.0
  }

  /** Some accepted action's allocation is refused, which raises out of the whole calculation. */
  ghost predicate SomeRefused(accepted: set<Action>, holdings: seq<Holding>, known: seq<Settlement>, openings: Openings)
  {
    exists a, side :: a in accepted && ResultOf(holdings, a, side, known, openings).Refused?
  }

  /** The distribution book, and the ids that are hidden because some of their records are not known yet. */
  method CalculateDistributions(holdings: seq<Holding>, actions: seq<Action>, settlements: seq<Settlement>,
                                decision: Option<int>, openings: Openings)
    returns (book: Option<map<Place, DistributionResult>>, accepted: set<Action>, conflicts: set<string>,
             hidden: set<string>)
    ensures Resolves(Candidates(actions, decision), accepted, conflicts)
    ensures book.None? <==> SomeRefused(accepted, holdings, KnownSettlements(settlements, decision), openings)
    ensures book.Some? ==>
      IsBook(book.value, accepted, conflicts, holdings, KnownSettlements(settlements, decision), openings)
    ensures forall id :: id in hidden <==>
      (exists a :: a in actions && a.actionId == id && !KnownBy(a.knowledgeAt, decision))
      && forall a :: a in accepted ==> a.actionId != id
  {
    var candidates := ActionsKnown(actions, decision);
    accepted, conflicts := AcceptedActions(candidates);
    var visible := set a | a in accepted :: a.actionId;
    hidden := {};
    if decision.Some? {
      hidden := set a | a in actions && a.actionId !in visible
                        && (a.knowledgeAt.None? || a.knowledgeAt.value > decision.value) :: a.actionId;
    }
    var known := SettlementsKnown(settlements, decision);
    OnePerAction(Candidates(actions, decision), accepted, conflicts);
    var results := BothSides(accepted, holdings, known, openings);
    if results.None? { return None, accepted, conflicts, hidden; }
    WithConflicts(results.value, accepted, conflicts, holdings, known, openings);
    book := Some(results.value + InConflict(conflicts));
  }

  /** The revisions known at the decision time; without one, all. */
  method ActionsKnown(actions: seq<Action>, decision: Option<int>) returns (known: seq<Action>)
    ensures known == Candidates(actions, decision)
  {
    known := [];
    for i := 0 to |actions|
      invariant known == Candidates(actions[..i], decision)
    {
      assert actions[..i + 1][..i] == actions[..i];
      var at := actions[i].knowledgeAt;
      if decision.Some? && (at.None? || decision.value < at.value) { continue; }
      known := known + [actions[i]];
    }
    TakeAll(actions);
  }

  method SettlementsKnown(settlements: seq<Settlement>, decision: Option<int>) returns (known: seq<Settlement>)
    ensures known == KnownSettlements(settlements, decision)
  {
    known := [];
    for i := 0 to |settlements|
      invariant known == KnownSettlements(settlements[..i], decision)
    {
      assert settlements[..i + 1][..i] == settlements[..i];
      var at := settlements[i].knowledgeAt;
      if decision.Some? && (at.None? || decision.value < at.value) { continue; }
      known := known + [settlements[i]];
    }
    TakeAll(settlements);
  }

  /** Both sides of every action in conflict are unknown. */
  function InConflict(conflicts: set<string>): map<Place, DistributionResult> {
    map place | place in Places(conflicts) :: Unknown(ConflictingRevision)
  }

  function Places(conflicts: set<string>): set<Place> {
    (set id | id in conflicts :: (id, LongSide)) + (set id | id in conflicts :: (id, ShortSide))
  }

  lemma ConflictPlaces(conflicts: set<string>, place: Place)
    ensures place in InConflict(conflicts) <==> place.0 in conflicts
  {
    assert place in InConflict(conflicts) <==> place in Places(conflicts);
    if place.0 in conflicts {
      if place.1.LongSide? { assert place == (place.0, LongSide); } else { assert place == (place.0, ShortSide); }
    }
  }

  lemma WithConflicts(book: map<Place, DistributionResult>, accepted: set<Action>, conflicts: set<string>,
                      holdings: seq<Holding>, known: seq<Settlement>, openings: Openings)
    requires IsBook(book, accepted, {}, holdings, known, openings)
    requires forall a :: a in accepted ==> a.actionId !in conflicts
    ensures IsBook(book + InConflict(conflicts), accepted, conflicts, holdings, known, openings)
  {
    var more := book + InConflict(conflicts);
    forall a, side | a in accepted
      ensures (a.actionId, side) in more && more[(a.actionId, side)] == ResultOf(holdings, a, side, known, openings) {
      ConflictPlaces(conflicts, (a.actionId, side));
      assert (a.actionId, side) in book;
    }
    forall id, side | id in conflicts ensures (id, side) in more && more[(id, side)] == Unknown(ConflictingRevision) {
      ConflictPlaces(conflicts, (id, side));
    }
    forall place | place in more ensures place.0 in conflicts || exists a :: a in accepted && a.actionId == place.0 {
      ConflictPlaces(conflicts, place);
    }
  }

  /** Accepted actions have different ids, none of them in conflict. */
  lemma OnePerAction(actions: seq<Action>, accepted: set<Action>, conflicts: set<string>)
    requires Resolves(actions, accepted, conflicts)
    ensures forall a, b :: a in accepted && b in accepted && a.actionId == b.actionId ==> a == b
    ensures forall a :: a in accepted ==> a.actionId !in conflicts
  {
    forall a, b | a in accepted && b in accepted && a.actionId == b.actionId ensures a == b {
      AcceptedIsUnique(Group(actions, a.actionId), a, b);
    }
  }

  /** Both sides of every accepted action; None if one is refused. */
  method BothSides(accepted: set<Action>, holdings: seq<Holding>, known: seq<Settlement>, openings: Openings)
    returns (results: Option<map<Place, DistributionResult>>)
    requires forall a, b :: a in accepted && b in accepted && a.actionId == b.actionId ==> a == b
    ensures results.None? <==> SomeRefused(accepted, holdings, known, openings)
    ensures results.Some? ==> IsBook(results.value, accepted, {}, holdings, known, openings)
  {
    hide ResultOf;
    var rest, book := accepted, map[];
    while rest != {}
      invariant rest <= accepted && IsBook(book, accepted - rest, {}, holdings, known, openings)
      invariant !SomeRefused(accepted - rest, holdings, known, openings)
      decreases |rest|
    {
      var a :| a in rest;
      var long, short := Sides(holdings, a, known, openings);
      if long.Refused? || short.Refused? {
        assert a in accepted;
        return None;
      }
      BookNext(book, accepted - rest, a, holdings, known, openings);
      assert accepted - (rest - {a}) == (accepted - rest) + {a};
      rest, book := rest - {a}, book[(a.actionId, LongSide) := long][(a.actionId, ShortSide) := short];
    }
    assert accepted - rest == accepted;
    results := Some(book);
  }

  method Sides(holdings: seq<Holding>, a: Action, known: seq<Settlement>, openings: Openings)
    returns (long: DistributionResult, short: DistributionResult)
    ensures long == ResultOf(holdings, a, LongSide, known, openings)
    ensures short == ResultOf(holdings, a, ShortSide, known, openings)
  {
    long := Entitlements.ForSide(holdings, a, LongSide, known, openings((a.actionId, LongSide)));
    short := Entitlements.ForSide(holdings, a, ShortSide, known, openings((a.actionId, ShortSide)));
  }

  lemma BookNext(book: map<Place, DistributionResult>, done: set<Action>, a: Action, holdings: seq<Holding>,
                 known: seq<Settlement>, openings: Openings)
    requires IsBook(book, done, {}, holdings, known, openings) && forall b :: b in done ==> b.actionId != a.actionId
    ensures var more := book[(a.actionId, LongSide) := ResultOf(holdings, a, LongSide, known, openings)]
                            [(a.actionId, ShortSide) := ResultOf(holdings, a, ShortSide, known, openings)];
      IsBook(more, done + {a}, {}, holdings, known, openings)
  {
    var more := book[(a.actionId, LongSide) := ResultOf(holdings, a, LongSide, known, openings)]
                    [(a.actionId, ShortSide) := ResultOf(holdings, a, ShortSide, known, openings)];
    forall b, side | b in done + {a}
      ensures (b.actionId, side) in more && more[(b.actionId, side)] == ResultOf(holdings, b, side, known, openings) {
      if b == a && side.ShortSide? { assert (a.actionId, ShortSide) in more; }
      if b == a && side.LongSide? { assert (a.actionId, LongSide) in more; }
    }
    forall place | place in more ensures exists b :: b in done + {a} && b.actionId == place.0 {
      if place in book {
        var b :| b in done && b.actionId == place.0;
        assert b in done + {a};
      } else {
        assert a in done + {a} && a.actionId == place.0;
      }
    }
  }

  /** A holding without part in any accepted action changes nothing in the book. */
  lemma BystanderKeepsBook(book: map<Place, DistributionResult>, accepted: set<Action>, conflicts: set<string>,
                           x: seq<Holding>, h: Holding, y: seq<Holding>, known: seq<Settlement>, openings: Openings)
    requires forall a :: a in accepted ==>
      || h.symbol != a.symbol || h.quantity == 0.0 || a.exAt <= h.entryAt
      || (h.exitAt.Some? && h.exitAt.value < a.exAt)
    ensures IsBook(book, accepted, conflicts, x + [h] + y, known, openings) <==>
      IsBook(book, accepted, conflicts, x + y, known, openings)
    ensures SomeRefused(accepted, x + [h] + y, known, openings) <==> SomeRefused(accepted, x + y, known, openings)
  {
    forall a, side | a in accepted
      ensures ResultOf(x + [h] + y, a, side, known, openings) == ResultOf(x + y, a, side, known, openings) {
      Entitlements.BystanderChangesNothing(x, h, y, a, side, known, openings((a.actionId, side)));
    }
  }

  // --- the causal view ---

  /** `after` is `before` with records inserted that were not known by the decision time. */
  predicate Interleaves(before: seq<Settlement>, after: seq<Settlement>, decision: int)
    decreases |after|
  {
    if after == [] then before == []
    else
      var front, last := after[..|after| - 1], after[|after| - 1];
      (!KnownBy(last.knowledgeAt, Some(decision)) && Interleaves(before, front, decision))
      || (before != [] && before[|before| - 1] == last && Interleaves(before[..|before| - 1], front, decision))
  }

  lemma {:induction false} LaterSettlementsAreHidden(before: seq<Settlement>, after: seq<Settlement>, decision: int)
    requires Interleaves(before, after, decision)
    ensures KnownSettlements(after, Some(decision)) == KnownSettlements(before, Some(decision))
    decreases |after|
  {
    if after == [] {
    } else {
      var front, last := after[..|after| - 1], after[|after| - 1];
      if !KnownBy(last.knowledgeAt, Some(decision)) && Interleaves(before, front, decision) {
        LaterSettlementsAreHidden(before, front, decision);
      } else {
        LaterSettlementsAreHidden(before[..|before| - 1], front, decision);
      }
    }
  }

  /** Action revisions and settlements that only became known after the decision change nothing in its book. */
  lemma CausalBookIsFixed(holdings: seq<Holding>, decision: int, openings: Openings,
                          actions: seq<Action>, more: seq<Action>, settlements: seq<Settlement>, later: seq<Settlement>,
                          x: map<Place, DistributionResult>, y: map<Place, DistributionResult>,
                          ax: set<Action>, ay: set<Action>, cx: set<string>, cy: set<string>)
    requires forall a :: a in actions ==> a in more
    requires forall a :: a in more && a !in actions ==> !KnownBy(a.knowledgeAt, Some(decision))
    requires Interleaves(settlements, later, decision)
    requires Resolves(Candidates(actions, Some(decision)), ax, cx) && Resolves(Candidates(more, Some(decision)), ay, cy)
    requires IsBook(x, ax, cx, holdings, KnownSettlements(settlements, Some(decision)), openings)
    requires IsBook(y, ay, cy, holdings, KnownSettlements(later, Some(decision)), openings)
    ensures x == y
  {
    LaterRecordsChangeNothing(actions, more, decision, ax, ay, cx, cy);
    LaterSettlementsAreHidden(settlements, later, decision);
    BookIsUnique(x, y, ax, cx, holdings, KnownSettlements(settlements, Some(decision)), openings);
  }

  lemma BookIsUnique(x: map<Place, DistributionResult>, y: map<Place, DistributionResult>, accepted: set<Action>,
                     conflicts: set<string>, holdings: seq<Holding>, known: seq<Settlement>, openings: Openings)
    requires IsBook(x, accepted, conflicts, holdings, known, openings)
    requires IsBook(y, accepted, conflicts, holdings, known, openings)
    ensures x == y
  {
    forall place | place in x ensures place in y && y[place] == x[place] {
      SameEntry(x, y, accepted, conflicts, holdings, known, openings, place);
    }
    forall place | place in y ensures place in x {
      SameEntry(y, x, accepted, conflicts, holdings, known, openings, place);
    }
  }

  lemma SameEntry(x: map<Place, DistributionResult>, y: map<Place, DistributionResult>, accepted: set<Action>,
                  conflicts: set<string>,
                  holdings: seq<Holding>, known: seq<Settlement>, openings: Openings, place: Place)
    requires IsBook(x, accepted, conflicts, holdings, known, openings) && place in x
    requires IsBook(y, accepted, conflicts, holdings, known, openings)
    ensures place in y && y[place] == x[place]
  {
    assert place == (place.0, place.1);
    if place.0 !in conflicts {
      var a :| a in accepted && a.actionId == place.0;
      assert (a.actionId, place.1) in y;
    }
  }
}
