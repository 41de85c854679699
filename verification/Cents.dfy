/** Cent rounding and largest-remainder allocation. Amounts are exact numbers of cents. */
module Cents {
  import opened Common

  /** Round half away from zero to whole cents. */
  function RoundCents(x: real): int {
    if x >= 0.0 then (x + 0.5).Floor else -((-x + 0.5).Floor)
  }

  /** The rounding is the nearest cent, half a cent away from zero, symmetric in sign, and exact on whole cents. */
  lemma RoundingIsNearest(x: real, n: int)
    ensures Abs(RoundCents(x) as real - x) <= 0.5
    ensures RoundCents(-x) == -RoundCents(x)
    ensures RoundCents(n as real) == n
    ensures x >= 0.0 ==> RoundCents(x) >= 0
    ensures n >= 0 ==> RoundCents(n as real + 0.5) == n + 1
  {}

  type Lot = nat

  type Amounts = map<Lot, real>

  function Remainder(x: real): (r: real)
    ensures 0.0 <= r < 1.0
  {
    x - x.Floor as real
  }

  /** Larger remainders first, equal ones by lot. */
  predicate Before(exact: Amounts, a: Lot, b: Lot)
    requires a in exact && b in exact
  {
    Remainder(exact[a]) > Remainder(exact[b]) || (Remainder(exact[a]) == Remainder(exact[b]) && a < b)
  }

  /** The lots that come before `lot`. */
  function Ahead(exact: Amounts, lot: Lot): set<Lot>
    requires lot in exact
  {
    set k | k in exact && Before(exact, k, lot)
  }

  /** The whole cents of one lot when `extra` lots get a cent on top of their floor. */
  function Share(exact: Amounts, extra: int, lot: Lot): (s: int)
    requires lot in exact
    ensures exact[lot].Floor <= s <= exact[lot].Floor + 1
  {
    exact[lot].Floor + if |Ahead(exact, lot)| < extra then 1 else 0
  }

  /** `cents` gives every lot its share; the amounts alone determine it. */
  ghost predicate Allocates(exact: Amounts, extra: int, cents: map<Lot, int>) {
    cents.Keys == exact.Keys && forall lot :: lot in exact ==> cents[lot] == Share(exact, extra, lot)
  }

  /** `order` lists every lot once. */
  ghost predicate Lists(order: seq<Lot>, lots: set<Lot>) {
    && (forall i, j :: 0 <= i < j < |order| ==> order[i] != order[j])
    && (forall lot :: lot in order <==> lot in lots)
  }

  function FloorSum(exact: Amounts, order: seq<Lot>): int
    requires forall i :: 0 <= i < |order| ==> order[i] in exact
  {
    if order == [] then 0 else FloorSum(exact, order[..|order| - 1]) + exact[order[|order| - 1]].Floor
  }

  function ExactSum(exact: Amounts, order: seq<Lot>): real
    requires forall i :: 0 <= i < |order| ==> order[i] in exact
  {
    if order == [] then 0.0 else ExactSum(exact, order[..|order| - 1]) + exact[order[|order| - 1]]
  }

  function CentSum(cents: map<Lot, int>, order: seq<Lot>): int
    requires forall i :: 0 <= i < |order| ==> order[i] in cents
  {
    if order == [] then 0 else CentSum(cents, order[..|order| - 1]) + cents[order[|order| - 1]]
  }

  // --- ranking ---

  /** Strictly increasing in the ranking order. */
  ghost predicate Ranked(exact: Amounts, s: seq<Lot>) {
    && (forall i :: 0 <= i < |s| ==> s[i] in exact)
    && (forall i, j :: 0 <= i < j < |s| ==> Before(exact, s[i], s[j]))
  }

  function Elements(s: seq<Lot>): set<Lot> {
    if s == [] then {} else Elements(s[..|s| - 1]) + {s[|s| - 1]}
  }

  lemma {:induction false} ElementsAre(s: seq<Lot>)
    ensures forall x :: x in Elements(s) <==> x in s
  {
    if s == [] {
    } else {
      ElementsAre(s[..|s| - 1]);
      assert s == s[..|s| - 1] + [s[|s| - 1]];
    }
  }

  lemma {:induction false} DistinctCount(s: seq<Lot>)
    requires forall i, j :: 0 <= i < j < |s| ==> s[i] != s[j]
    ensures |Elements(s)| == |s|
  {
    if s == [] {
    } else {
      var last := |s| - 1;
      DistinctCount(s[..last]);
      ElementsAre(s[..last]);
      assert s[last] !in Elements(s[..last]);
    }
  }

  /** In a complete ranking, the lots ahead of the k-th are the first k. */
  lemma RankIsIndex(exact: Amounts, s: seq<Lot>, k: nat)
    requires Ranked(exact, s) && (forall lot :: lot in s <==> lot in exact) && k < |s|
    ensures Ahead(exact, s[k]) == Elements(s[..k]) && |Ahead(exact, s[k])| == k
  {
    ElementsAre(s[..k]);
    forall lot | lot in exact ensures lot in Ahead(exact, s[k]) <==> lot in Elements(s[..k]) {
      var i :| 0 <= i < |s| && s[i] == lot;
      if i < k { assert s[..k][i] == lot; }
    }
    DistinctCount(s[..k]);
    assert Ahead(exact, s[k]) == Elements(s[..k]);
  }

  method InsertRanked(exact: Amounts, s: seq<Lot>, lot: Lot) returns (r: seq<Lot>)
    requires Ranked(exact, s) && lot in exact && lot !in s
    ensures Ranked(exact, r) && |r| == |s| + 1
    ensures forall x :: x in r <==> x in s || x == lot
  {
    var i := |s|;
    while i > 0
      invariant 0 <= i <= |s|
      invariant forall k :: i <= k < |s| ==> Before(exact, lot, s[k])
    {
      var prior := s[i - 1];
      var mine, other := exact[lot] - exact[lot].Floor as real, exact[prior] - exact[prior].Floor as real;
      if mine < other || (mine == other && prior <= lot) { break; }
      i := i - 1;
    }
    r := s[..i] + [lot] + s[i..];
    InsertedIsRanked(exact, s, lot, i);
  }

  lemma InsertedIsRanked(exact: Amounts, s: seq<Lot>, lot: Lot, i: nat)
    requires Ranked(exact, s) && lot in exact && lot !in s && i <= |s|
    requires i > 0 ==> !Before(exact, lot, s[i - 1])
    requires forall k :: i <= k < |s| ==> Before(exact, lot, s[k])
    ensures var r := s[..i] + [lot] + s[i..];
      Ranked(exact, r) && forall x :: x in r <==> x in s || x == lot
  {
    var r := s[..i] + [lot] + s[i..];
    EarlierIsBefore(exact, s, lot, i);
    hide Before;
    forall k, l | 0 <= k < l < |r| ensures r[k] in exact && r[l] in exact && Before(exact, r[k], r[l]) {
      assert r[k] == if k < i then s[k] else if k == i then lot else s[k - 1];
      assert r[l] == if l < i then s[l] else if l == i then lot else s[l - 1];
    }
    assert r[i] == lot;
    assert s == s[..i] + s[i..];
  }

  lemma EarlierIsBefore(exact: Amounts, s: seq<Lot>, lot: Lot, i: nat)
    requires Ranked(exact, s) && lot in exact && lot !in s && i <= |s|
    requires i > 0 ==> !Before(exact, lot, s[i - 1])
    ensures forall k :: 0 <= k < i ==> Before(exact, s[k], lot)
  {
    forall k | 0 <= k < i ensures Before(exact, s[k], lot) {
      assert s[i - 1] in s && Before(exact, s[i - 1], lot);
      if k < i - 1 { assert Before(exact, s[k], s[i - 1]); }
    }
  }

  /** Sort the lots by remainder, largest first. */
  method RankLots(exact: Amounts, order: seq<Lot>) returns (s: seq<Lot>)
    requires Lists(order, exact.Keys)
    ensures Ranked(exact, s) && |s| == |order| && forall lot :: lot in s <==> lot in exact
  {
    s := [];
    for i := 0 to |order|
      invariant Ranked(exact, s) && |s| == i && forall lot :: lot in s <==> lot in order[..i]
    {
      assert order[i] in order;
      assert order[i] !in order[..i];
      s := InsertRanked(exact, s, order[i]);
      assert order[..i + 1] == order[..i] + [order[i]];
    }
    assert order[..|order|] == order;
  }

  // --- the allocation loop ---

  /** When the allocation is refused. */
  predicate Refused(exact: Amounts, order: seq<Lot>, target: int)
    requires forall i :: 0 <= i < |order| ==> order[i] in exact
  {
    target < 0 || target < FloorSum(exact, order) || target > FloorSum(exact, order) + |order|
  }

  /** One pass over the lots: exact total, floors, and their total. */
  method FloorLots(exact: Amounts, order: seq<Lot>) returns (total: real, floors: map<Lot, int>, floorTotal: int)
    requires Lists(order, exact.Keys)
    ensures total == ExactSum(exact, order) && floorTotal == FloorSum(exact, order)
    ensures floors.Keys == exact.Keys && forall lot :: lot in floors ==> floors[lot] == exact[lot].Floor
  {
    total, floors, floorTotal := 0.0, map[], 0;
    for i := 0 to |order|
      invariant total == ExactSum(exact, order[..i]) && floorTotal == FloorSum(exact, order[..i])
      invariant forall lot :: lot in floors <==> lot in order[..i]
      invariant forall lot :: lot in floors ==> lot in exact && floors[lot] == exact[lot].Floor
    {
      assert order[..i + 1] == order[..i] + [order[i]] && order[..i + 1][..i] == order[..i];
      total := total + exact[order[i]];
      floorTotal := floorTotal + exact[order[i]].Floor;
      floors := floors[order[i] := exact[order[i]].Floor];
    }
    assert order[..|order|] == order;
  }

  /** None exactly when refused; otherwise the allocation, which does not depend on the order of the lots. */
  ghost predicate IsOutcome(exact: Amounts, order: seq<Lot>, target: int, result: Option<map<Lot, int>>)
    requires forall i :: 0 <= i < |order| ==> order[i] in exact
  {
    if order == [] then result == Some(map[])
    else if Refused(exact, order, target) then result.None?
    else result.Some? && Allocates(exact, target - FloorSum(exact, order), result.value)
  }

  /** The lots with positive amounts; the others take no part. */
  function Positive(byLot: Amounts): (exact: Amounts)
    ensures forall lot :: lot in exact ==> exact[lot] > 0.0
  {
    map lot | lot in byLot && byLot[lot] > 0.0 :: byLot[lot]
  }

  /** The lots of `order` with positive amounts. */
  function Kept(byLot: Amounts, order: seq<Lot>): (r: seq<Lot>)
    requires forall i :: 0 <= i < |order| ==> order[i] in byLot
    ensures forall i :: 0 <= i < |r| ==> r[i] in Positive(byLot)
  {
    if order == [] then []
    else
      var front, last := Kept(byLot, order[..|order| - 1]), order[|order| - 1];
      if byLot[last] > 0.0 then front + [last] else front
  }

  lemma {:induction false} KeptMembers(byLot: Amounts, order: seq<Lot>)
    requires forall i :: 0 <= i < |order| ==> order[i] in byLot
    requires forall i, j :: 0 <= i < j < |order| ==> order[i] != order[j]
    ensures forall lot :: lot in Kept(byLot, order) <==> lot in order && lot in byLot && byLot[lot] > 0.0
    ensures forall i, j :: 0 <= i < j < |Kept(byLot, order)| ==> Kept(byLot, order)[i] != Kept(byLot, order)[j]
  {
    if order == [] {
    } else {
      var front, last := order[..|order| - 1], order[|order| - 1];
      KeptMembers(byLot, front);
      assert order == front + [last];
    }
  }

  lemma {:induction false} KeptSum(byLot: Amounts, order: seq<Lot>)
    requires forall i :: 0 <= i < |order| ==> order[i] in byLot && byLot[order[i]] >= 0.0
    ensures ExactSum(Positive(byLot), Kept(byLot, order)) == ExactSum(byLot, order)
  {
    if order == [] {
    } else {
      KeptSum(byLot, order[..|order| - 1]);
      var kept := Kept(byLot, order[..|order| - 1]);
      assert (kept + [order[|order| - 1]])[..|kept|] == kept;
    }
  }

  /** Allocate one rounded total to lots; None is a ValueError. `order` is the mapping's iteration order. */
  method AllocateCents(byLot: Amounts, order: seq<Lot>, rounded: Option<real>) returns (result: Option<map<Lot, int>>)
    requires Lists(order, byLot.Keys)
    ensures var exact, kept := Positive(byLot), Kept(byLot, order);
      IsOutcome(exact, kept, RoundCents(if rounded.Some? then rounded.value else ExactSum(exact, kept)), result)
  {
    KeptMembers(byLot, order);
    var exact := Positive(byLot);
    var kept := KeepPositive(byLot, order);
    result := AllocatePositive(exact, kept, rounded);
  }

  method KeepPositive(byLot: Amounts, order: seq<Lot>) returns (kept: seq<Lot>)
    requires forall i :: 0 <= i < |order| ==> order[i] in byLot
    ensures kept == Kept(byLot, order)
  {
    kept := [];
    for i := 0 to |order|
      invariant kept == Kept(byLot, order[..i])
    {
      assert order[..i + 1][..i] == order[..i];
      if byLot[order[i]] > 0.0 { kept := kept + [order[i]]; }
    }
    assert order[..|order|] == order;
  }

  /** Split the target over lots that are all positive. */
  method AllocatePositive(exact: Amounts, order: seq<Lot>, rounded: Option<real>)
    returns (result: Option<map<Lot, int>>)
    requires Lists(order, exact.Keys) && forall lot :: lot in exact ==> exact[lot] > 0.0
    ensures IsOutcome(exact, order, RoundCents(if rounded.Some? then rounded.value else ExactSum(exact, order)), result)
  {
    if order == [] { return Some(map[]); }
    var total, floors, floorTotal := FloorLots(exact, order);
    var target := RoundCents(if rounded.Some? then rounded.value else total);
    if target < 0 { return None; }
    var extra := target - floorTotal;
    if extra < 0 || extra > |order| { return None; }
    var cents := Distribute(exact, order, floors, extra);
    result := Some(cents);
  }

  method Distribute(exact: Amounts, order: seq<Lot>, floors: map<Lot, int>, extra: nat) returns (cents: map<Lot, int>)
    requires Lists(order, exact.Keys) && extra <= |order|
    requires floors.Keys == exact.Keys && forall lot :: lot in floors ==> floors[lot] == exact[lot].Floor
    ensures Allocates(exact, extra, cents)
  {
    var ranked := RankLots(exact, order);
    cents := AddCents(exact, floors, ranked, extra);
  }

  /** The first `extra` ranked lots get one cent more. */
  method AddCents(exact: Amounts, floors: map<Lot, int>, ranked: seq<Lot>, extra: nat) returns (cents: map<Lot, int>)
    requires Ranked(exact, ranked) && (forall lot :: lot in ranked <==> lot in exact) && extra <= |ranked|
    requires floors.Keys == exact.Keys && forall lot :: lot in floors ==> floors[lot] == exact[lot].Floor
    ensures Allocates(exact, extra, cents)
  {
    cents := floors;
    for k := 0 to extra
      invariant cents.Keys == exact.Keys
      invariant forall i :: 0 <= i < |ranked| ==> cents[ranked[i]] == exact[ranked[i]].Floor + if i < k then 1 else 0
    {
      cents := cents[ranked[k] := cents[ranked[k]] + 1];
    }
    forall lot | lot in exact ensures cents[lot] == Share(exact, extra, lot) {
      var i :| 0 <= i < |ranked| && ranked[i] == lot;
      RankIsIndex(exact, ranked, i);
    }
  }

  // --- what the allocation promises ---

  /** `set` counted over a listing. */
  function Hits(order: seq<Lot>, chosen: set<Lot>): nat {
    if order == [] then 0 else Hits(order[..|order| - 1], chosen) + if order[|order| - 1] in chosen then 1 else 0
  }

  lemma {:induction false} HitsAreElements(order: seq<Lot>, chosen: set<Lot>)
    requires forall i, j :: 0 <= i < j < |order| ==> order[i] != order[j]
    ensures Hits(order, chosen) == |chosen * Elements(order)|
  {
    if order == [] {
      assert chosen * Elements(order) == {};
    } else {
      var front, last := order[..|order| - 1], order[|order| - 1];
      HitsAreElements(front, chosen);
      ElementsAre(front);
      assert last !in Elements(front);
      Intersected(chosen, Elements(front), last);
    }
  }

  lemma Intersected(chosen: set<Lot>, front: set<Lot>, last: Lot)
    requires last !in front
    ensures |chosen * (front + {last})| == |chosen * front| + if last in chosen then 1 else 0
  {
    var before := chosen * front;
    if last in chosen {
      assert chosen * (front + {last}) == before + {last};
    } else {
      assert chosen * (front + {last}) == before;
    }
  }

  /** The lots that get a cent. */
  function Favoured(exact: Amounts, extra: int): set<Lot> {
    set lot | lot in exact && |Ahead(exact, lot)| < extra
  }

  lemma {:induction false} ShareSum(exact: Amounts, extra: int, cents: map<Lot, int>, order: seq<Lot>)
    requires Allocates(exact, extra, cents) && forall i :: 0 <= i < |order| ==> order[i] in exact
    ensures CentSum(cents, order) == FloorSum(exact, order) + Hits(order, Favoured(exact, extra))
  {
    if order == [] {
    } else {
      ShareSum(exact, extra, cents, order[..|order| - 1]);
    }
  }

  lemma FavouredAreRankedFirst(exact: Amounts, ranked: seq<Lot>, extra: nat)
    requires Ranked(exact, ranked) && (forall lot :: lot in ranked <==> lot in exact) && extra <= |ranked|
    ensures Favoured(exact, extra) == Elements(ranked[..extra]) && |Favoured(exact, extra)| == extra
  {
    ElementsAre(ranked[..extra]);
    forall lot | lot in exact ensures lot in Favoured(exact, extra) <==> lot in Elements(ranked[..extra]) {
      var i :| 0 <= i < |ranked| && ranked[i] == lot;
      RankIsIndex(exact, ranked, i);
      if i < extra { assert ranked[..extra][i] == lot; }
    }
    DistinctCount(ranked[..extra]);
    assert Favoured(exact, extra) == Elements(ranked[..extra]);
  }

  /** Insertion, as a function, to have a ranking in proofs. */
  lemma {:induction false} RankingExists(exact: Amounts, order: seq<Lot>) returns (ranked: seq<Lot>)
    requires forall i, j :: 0 <= i < j < |order| ==> order[i] != order[j]
    requires forall i :: 0 <= i < |order| ==> order[i] in exact
    ensures Ranked(exact, ranked) && |ranked| == |order| && forall lot :: lot in ranked <==> lot in order
  {
    if order == [] {
      ranked := [];
    } else {
      var last := |order| - 1;
      var front := RankingExists(exact, order[..last]);
      assert order == order[..last] + [order[last]];
      ranked := RankingInserted(exact, front, order[last]);
    }
  }

  lemma {:induction false} RankingInserted(exact: Amounts, s: seq<Lot>, lot: Lot) returns (r: seq<Lot>)
    requires Ranked(exact, s) && lot in exact && lot !in s
    ensures Ranked(exact, r) && |r| == |s| + 1 && forall x :: x in r <==> x in s || x == lot
  {
    if s == [] || Before(exact, s[|s| - 1], lot) {
      r := s + [lot];
    } else {
      var front := RankingInserted(exact, s[..|s| - 1], lot);
      assert s == s[..|s| - 1] + [s[|s| - 1]];
      r := front + [s[|s| - 1]];
      forall i | 0 <= i < |front| ensures Before(exact, front[i], s[|s| - 1]) {
        assert front[i] in front;
      }
    }
  }

  lemma FavouredCount(exact: Amounts, order: seq<Lot>, extra: nat)
    requires Lists(order, exact.Keys) && extra <= |order|
    ensures Hits(order, Favoured(exact, extra)) == extra
  {
    ElementsAre(order);
    assert Elements(order) == exact.Keys;
    var ranked := RankingExists(exact, order);
    FavouredAreRankedFirst(exact, ranked, extra);
    HitsAreElements(order, Favoured(exact, extra));
    assert Favoured(exact, extra) * Elements(order) == Favoured(exact, extra);
  }

  /** Whenever the allocation is not refused, the lots sum exactly to the target, each its floor or one cent more,
      in whatever order they are listed. */
  lemma AllocationSumsToTarget(exact: Amounts, order: seq<Lot>, target: int, cents: map<Lot, int>)
    requires Lists(order, exact.Keys) && !Refused(exact, order, target)
    requires Allocates(exact, target - FloorSum(exact, order), cents)
    ensures CentSum(cents, order) == target
    ensures forall lot :: lot in exact ==> exact[lot].Floor <= cents[lot] <= exact[lot].Floor + 1
  {
    var extra := target - FloorSum(exact, order);
    FavouredCount(exact, order, extra);
    ShareSum(exact, extra, cents, order);
  }

  lemma {:induction false} FloorsBracket(exact: Amounts, order: seq<Lot>)
    requires forall i :: 0 <= i < |order| ==> order[i] in exact
    ensures FloorSum(exact, order) as real <= ExactSum(exact, order) <= (FloorSum(exact, order) + |order|) as real
  {
    if order == [] {
    } else {
      FloorsBracket(exact, order[..|order| - 1]);
    }
  }

  lemma {:induction false} PositiveSum(exact: Amounts, order: seq<Lot>)
    requires forall i :: 0 <= i < |order| ==> order[i] in exact
    requires forall lot :: lot in exact ==> exact[lot] > 0.0
    ensures FloorSum(exact, order) >= 0 && ExactSum(exact, order) >= 0.0
  {
    if order == [] {
    } else {
      PositiveSum(exact, order[..|order| - 1]);
    }
  }

  /** Allocating the rounded sum of the amounts is never refused. */
  lemma RoundedSumIsNeverRefused(exact: Amounts, order: seq<Lot>)
    requires Lists(order, exact.Keys) && forall lot :: lot in exact ==> exact[lot] > 0.0
    ensures !Refused(exact, order, RoundCents(ExactSum(exact, order)))
  {
    FloorsBracket(exact, order);
    PositiveSum(exact, order);
  }

  /** A zero target is refused exactly when some lot is worth at least a cent. */
  lemma {:induction false} ZeroTargetRefused(exact: Amounts, order: seq<Lot>)
    requires Lists(order, exact.Keys) && forall lot :: lot in exact ==> exact[lot] > 0.0
    ensures Refused(exact, order, 0) <==> exists lot :: lot in exact && exact[lot] >= 1.0
  {
    PositiveSum(exact, order);
    FloorSumPositive(exact, order);
  }

  lemma {:induction false} FloorSumPositive(exact: Amounts, order: seq<Lot>)
    requires forall i :: 0 <= i < |order| ==> order[i] in exact
    requires forall lot :: lot in exact ==> exact[lot] > 0.0
    ensures FloorSum(exact, order) > 0 <==> exists i :: 0 <= i < |order| && exact[order[i]] >= 1.0
  {
    if order == [] {
    } else {
      var last := |order| - 1;
      FloorSumPositive(exact, order[..last]);
      PositiveSum(exact, order[..last]);
    }
  }

  // --- no other split is closer ---

  function Deviation(exact: Amounts, cents: map<Lot, int>, order: seq<Lot>): real
    requires forall i :: 0 <= i < |order| ==> order[i] in exact && order[i] in cents
  {
    if order == [] then 0.0
    else
      var lot := order[|order| - 1];
      Deviation(exact, cents, order[..|order| - 1]) + Abs(cents[lot] as real - exact[lot])
  }

  /** What one more favoured lot would cost: the price that separates the favoured lots from the others. */
  ghost predicate Price(exact: Amounts, extra: int, price: real) {
    && -1.0 <= price <= 1.0
    && forall lot :: lot in exact ==>
      if |Ahead(exact, lot)| < extra then 1.0 - 2.0 * Remainder(exact[lot]) <= price
      else 1.0 - 2.0 * Remainder(exact[lot]) >= price
  }

  lemma PriceExists(exact: Amounts, ranked: seq<Lot>, extra: nat) returns (price: real)
    requires Ranked(exact, ranked) && (forall lot :: lot in ranked <==> lot in exact) && extra <= |ranked|
    ensures Price(exact, extra, price)
  {
    price := if extra == 0 then -1.0 else 1.0 - 2.0 * Remainder(exact[ranked[extra - 1]]);
    forall lot | lot in exact
      ensures if |Ahead(exact, lot)| < extra then 1.0 - 2.0 * Remainder(exact[lot]) <= price
              else 1.0 - 2.0 * Remainder(exact[lot]) >= price {
      var i :| 0 <= i < |ranked| && ranked[i] == lot;
      RankIsIndex(exact, ranked, i);
      if extra > 0 && i != extra - 1 {
        assert if i < extra - 1 then Before(exact, ranked[i], ranked[extra - 1])
          else Before(exact, ranked[extra - 1], ranked[i]);
      }
    }
  }

  /** `n` cents at `price` each. */
  ghost function Priced(price: real, n: int): real
    decreases if n < 0 then -n else n
  {
    if n == 0 then 0.0 else if n > 0 then Priced(price, n - 1) + price else Priced(price, n + 1) - price
  }

  /** Cents cost at most one each, and the first at most its slope. */
  lemma {:induction false} PricedUp(price: real, n: nat, slope: real)
    requires price <= 1.0 && price <= slope && n >= 1
    ensures Priced(price, n) <= n as real && Priced(price, n) <= (n - 1) as real + slope
  {
    if n > 1 { PricedUp(price, n - 1, slope); }
  }

  lemma {:induction false} PricedDown(price: real, n: nat)
    ensures Priced(price, 0 - n) == Priced(-price, n)
  {
    if n == 0 {
    } else {
      PricedDown(price, n - 1);
    }
  }

  lemma {:induction false} PriceAdds(price: real, a: int, b: int)
    ensures Priced(price, a + b) == Priced(price, a) + Priced(price, b)
    decreases if b < 0 then -b else b
  {
    if b == 0 {
    } else if b > 0 {
      PriceAdds(price, a, b - 1);
    } else {
      PriceAdds(price, a, b + 1);
    }
  }

  /** Moving one lot away from its share costs at least the price per cent moved. */
  lemma MovingCosts(x: real, share: int, price: real, y: int)
    requires x > 0.0 && -1.0 <= price <= 1.0
    requires (share == x.Floor + 1 && 1.0 - 2.0 * Remainder(x) <= price)
      || (share == x.Floor && 1.0 - 2.0 * Remainder(x) >= price)
    ensures Abs(y as real - x) - Abs(share as real - x) >= Priced(price, y - share)
  {
    if y > share {
      PricedUp(price, y - share, if share == x.Floor then 1.0 - 2.0 * Remainder(x) else 1.0);
    } else if y < share {
      PricedDown(price, share - y);
      PricedUp(-price, share - y, if share == x.Floor then 1.0 else 2.0 * Remainder(x) - 1.0);
    }
  }

  /** The price charged for every cent another split moves. */
  ghost function Charge(cents: map<Lot, int>, other: map<Lot, int>, order: seq<Lot>, price: real): real
    requires forall i :: 0 <= i < |order| ==> order[i] in cents && order[i] in other
  {
    if order == [] then 0.0
    else
      var lot := order[|order| - 1];
      Charge(cents, other, order[..|order| - 1], price) + Priced(price, other[lot] - cents[lot])
  }

  lemma {:induction false} ChargeIsByTotal(cents: map<Lot, int>, other: map<Lot, int>, order: seq<Lot>, price: real)
    requires forall i :: 0 <= i < |order| ==> order[i] in cents && order[i] in other
    ensures Charge(cents, other, order, price)
      == Priced(price, CentSum(other, order) - CentSum(cents, order))
  {
    if order == [] {
    } else {
      var front, lot := order[..|order| - 1], order[|order| - 1];
      ChargeIsByTotal(cents, other, front, price);
      PriceAdds(price, CentSum(other, front) - CentSum(cents, front), other[lot] - cents[lot]);
    }
  }

  /** Moving `lot` costs at least the price. */
  ghost predicate Dear(exact: Amounts, cents: map<Lot, int>, other: map<Lot, int>, lot: Lot, price: real)
    requires lot in exact && lot in cents && lot in other
  {
    Abs(other[lot] as real - exact[lot]) - Abs(cents[lot] as real - exact[lot])
      >= Priced(price, other[lot] - cents[lot])
  }

  lemma {:induction false} SplitCosts(exact: Amounts, cents: map<Lot, int>, other: map<Lot, int>, order: seq<Lot>,
                                      price: real)
    requires forall i :: 0 <= i < |order| ==>
      order[i] in exact && order[i] in cents && order[i] in other && Dear(exact, cents, other, order[i], price)
    ensures Deviation(exact, other, order) - Deviation(exact, cents, order) >= Charge(cents, other, order, price)
  {
    if order == [] {
    } else {
      SplitCosts(exact, cents, other, order[..|order| - 1], price);
    }
  }

  lemma LotCost(exact: Amounts, extra: int, lot: Lot, price: real, share: int, other: int)
    requires lot in exact && exact[lot] > 0.0 && Price(exact, extra, price) && share == Share(exact, extra, lot)
    ensures Abs(other as real - exact[lot]) - Abs(share as real - exact[lot]) >= Priced(price, other - share)
  {
    MovingCosts(exact[lot], share, price, other);
  }

  lemma PriceFor(exact: Amounts, order: seq<Lot>, extra: nat) returns (price: real)
    requires Lists(order, exact.Keys) && extra <= |order|
    ensures Price(exact, extra, price)
  {
    ElementsAre(order);
    assert Elements(order) == exact.Keys;
    var ranked := RankingExists(exact, order);
    price := PriceExists(exact, ranked, extra);
  }

  /** No other whole-cent split of the same target has a smaller total deviation from the exact amounts. */
  lemma AllocationIsClosest(exact: Amounts, order: seq<Lot>, target: int, cents: map<Lot, int>, other: map<Lot, int>)
    requires Lists(order, exact.Keys) && forall lot :: lot in exact ==> exact[lot] > 0.0
    requires !Refused(exact, order, target) && Allocates(exact, target - FloorSum(exact, order), cents)
    requires other.Keys == exact.Keys && CentSum(other, order) == target
    ensures Deviation(exact, cents, order) <= Deviation(exact, other, order)
  {
    var extra := target - FloorSum(exact, order);
    var price := PriceFor(exact, order, extra);
    AllocationSumsToTarget(exact, order, target, cents);
    AllDear(exact, extra, cents, other, price);
    CheaperAtSameTotal(exact, cents, other, order, price);
  }

  lemma AllDear(exact: Amounts, extra: int, cents: map<Lot, int>, other: map<Lot, int>, price: real)
    requires Allocates(exact, extra, cents) && Price(exact, extra, price) && other.Keys == exact.Keys
    requires forall lot :: lot in exact ==> exact[lot] > 0.0
    ensures forall lot :: lot in exact ==> Dear(exact, cents, other, lot, price)
  {
    hide Share, Price;
    forall lot | lot in exact ensures Dear(exact, cents, other, lot, price) {
      LotCost(exact, extra, lot, price, cents[lot], other[lot]);
    }
  }

  lemma CheaperAtSameTotal(exact: Amounts, cents: map<Lot, int>, other: map<Lot, int>, order: seq<Lot>, price: real)
    requires cents.Keys == exact.Keys && other.Keys == exact.Keys && forall i :: 0 <= i < |order| ==> order[i] in exact
    requires forall lot :: lot in exact ==> Dear(exact, cents, other, lot, price)
    requires CentSum(other, order) == CentSum(cents, order)
    ensures Deviation(exact, cents, order) <= Deviation(exact, other, order)
  {
    SplitCosts(exact, cents, other, order, price);
    ChargeIsByTotal(cents, other, order, price);
  }

  /** The outcome ignores the order in which the lots come, for a given target and for the rounded sum alike. */
  lemma OrderIsIrrelevant(exact: Amounts, a: seq<Lot>, b: seq<Lot>, target: int, x: Option<map<Lot, int>>,
                          y: Option<map<Lot, int>>)
    requires Lists(a, exact.Keys) && Lists(b, exact.Keys)
    requires IsOutcome(exact, a, target, x) && IsOutcome(exact, b, target, y)
    ensures x == y && ExactSum(exact, a) == ExactSum(exact, b)
  {
    SameSums(exact, a, b, exact.Keys);
    if x.Some? && y.Some? { assert x.value == y.value; }
  }

  lemma {:induction false} SumsWithout(exact: Amounts, s: seq<Lot>, i: nat)
    requires i < |s| && forall k :: 0 <= k < |s| ==> s[k] in exact
    ensures FloorSum(exact, s) == FloorSum(exact, s[..i] + s[i + 1..]) + exact[s[i]].Floor
    ensures ExactSum(exact, s) == ExactSum(exact, s[..i] + s[i + 1..]) + exact[s[i]]
  {
    var last := |s| - 1;
    if i == last {
      assert s[..i] + s[i + 1..] == s[..last];
    } else {
      SumsWithout(exact, s[..last], i);
      var rest := s[..i] + s[i + 1..];
      assert rest[..|rest| - 1] == s[..last][..i] + s[..last][i + 1..];
    }
  }

  lemma {:induction false} SameSums(exact: Amounts, a: seq<Lot>, b: seq<Lot>, lots: set<Lot>)
    requires lots <= exact.Keys && Lists(a, lots) && Lists(b, lots)
    ensures |a| == |b| && FloorSum(exact, a) == FloorSum(exact, b) && ExactSum(exact, a) == ExactSum(exact, b)
  {
    assert b != [] ==> b[0] in b;
    if a == [] {
    } else {
      var front, lot := a[..|a| - 1], a[|a| - 1];
      assert lot in a;
      var i :| 0 <= i < |b| && b[i] == lot;
      var rest := b[..i] + b[i + 1..];
      SumsWithout(exact, b, i);
      ListsWithout(a, lots, |a| - 1);
      ListsWithout(b, lots, i);
      assert a[..|a| - 1] + a[|a|..] == front;
      SameSums(exact, front, rest, lots - {lot});
    }
  }

  lemma ListsWithout(s: seq<Lot>, lots: set<Lot>, i: nat)
    requires Lists(s, lots) && i < |s|
    ensures Lists(s[..i] + s[i + 1..], lots - {s[i]})
  {
    var rest := s[..i] + s[i + 1..];
    forall lot | lot in lots && lot != s[i] ensures lot in rest {
      var k :| 0 <= k < |s| && s[k] == lot;
      assert rest[if k < i then k else k - 1] == lot;
    }
    forall k | 0 <= k < |rest| ensures rest[k] in lots && rest[k] != s[i] {
      assert rest[k] == s[if k < i then k else k + 1];
    }
  }
}
