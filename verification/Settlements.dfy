/** Settlements matched to an action or a charge: filtered by knowledge and window, deduplicated by payment id. */
module Settlements {
  import opened Common

  datatype Side = LongSide | ShortSide

  /** `key` is the action or charge; `payment` false is a refund; amounts are cents. */
  datatype Settlement = Settlement(
    paymentId: string, key: string, amount: Option<real>, occurredAt: int, payment: bool,
    knowledgeAt: Option<int>, side: Option<Side>, currency: Option<string>)

  /** A reporting window selects flows in (start, end]. */
  datatype Window = Window(start: int, end: int) {
    predicate Contains(t: int) { start < t <= end }
  }

  function Signed(s: Settlement): real {
    match s.amount
    case None => 0.0
    case Some(amount) => if s.payment then amount else -amount
  }

  predicate Seen(settlements: seq<Settlement>, id: string) {
    exists i :: 0 <= i < |settlements| && settlements[i].paymentId == id
  }

  /** The first record of each payment id, in input order. */
  function Unique(settlements: seq<Settlement>): seq<Settlement> {
    if settlements == [] then []
    else
      var front, last := settlements[..|settlements| - 1], settlements[|settlements| - 1];
      if Seen(front, last.paymentId) then Unique(front) else Unique(front) + [last]
  }

  /** No payment id is used by two different records. */
  predicate Consistent(settlements: seq<Settlement>) {
    forall i, j :: 0 <= i < j < |settlements| && settlements[i].paymentId == settlements[j].paymentId ==>
      settlements[i] == settlements[j]
  }

  /** Net cash of the distinct payments and refunds. */
  function Net(settlements: seq<Settlement>): real {
    if settlements == [] then 0.0
    else
      var front, last := settlements[..|settlements| - 1], settlements[|settlements| - 1];
      Net(front) + if Seen(front, last.paymentId) then 0.0 else Signed(last)
  }

  /** Keep the first record of each payment id; false if two different records share one. */
  method Dedupe(settlements: seq<Settlement>) returns (unique: seq<Settlement>, ok: bool)
    ensures unique == Unique(settlements) && (ok <==> Consistent(settlements))
  {
    var byId: map<string, Settlement> := map[];
    unique, ok := [], true;
    NothingSeen();
    for i := 0 to |settlements|
      invariant Deduped(byId, unique, ok, settlements[..i])
    {
      byId, unique, ok := Sight(byId, unique, ok, settlements[i], settlements[..i]);
      TakeOneMore(settlements, i);
    }
    TakeAll(settlements);
  }

  lemma TakeOneMore<T>(s: seq<T>, i: nat)
    requires i < |s|
    ensures s[..i + 1] == s[..i] + [s[i]]
  {}

  lemma TakeAll<T>(s: seq<T>)
    ensures s[..|s|] == s
  {}

  /** The records of `front` have been seen. */
  ghost predicate Deduped(byId: map<string, Settlement>, unique: seq<Settlement>, ok: bool, front: seq<Settlement>) {
    Indexes(byId, front) && unique == Unique(front) && (ok <==> Consistent(front))
  }

  lemma NothingSeen()
    ensures Deduped(map[], [], true, [])
  {}

  /** One more record: kept if its payment id is new, a conflict if it differs from the one kept. */
  method Sight(byId: map<string, Settlement>, unique: seq<Settlement>, ok: bool, s: Settlement,
               ghost front: seq<Settlement>)
    returns (byId': map<string, Settlement>, unique': seq<Settlement>, ok': bool)
    requires Deduped(byId, unique, ok, front)
    ensures Deduped(byId', unique', ok', front + [s])
  {
    byId', unique', ok' := byId, unique, ok;
    UniqueGrows(front, s);
    IndexGrows(byId, front, s);
    if s.paymentId !in byId {
      byId' := byId[s.paymentId := s];
      unique' := unique + [s];
    } else if byId[s.paymentId] != s {
      ok' := false;
    }
  }

  lemma UniqueGrows(front: seq<Settlement>, s: Settlement)
    ensures Unique(front + [s]) == if Seen(front, s.paymentId) then Unique(front) else Unique(front) + [s]
  {
    assert (front + [s])[..|front|] == front;
  }

  /** `byId` holds the first record of every payment id in `front`. */
  ghost predicate Indexes(byId: map<string, Settlement>, front: seq<Settlement>) {
    && (forall id :: id in byId <==> Seen(front, id))
    && (forall id :: id in byId ==> byId[id].paymentId == id && byId[id] in front)
    && (Consistent(front) ==> forall s :: s in front && s.paymentId in byId ==> byId[s.paymentId] == s)
  }

  lemma SeenGrows(front: seq<Settlement>, s: Settlement)
    ensures forall id :: Seen(front + [s], id) <==> Seen(front, id) || id == s.paymentId
  {
    forall id ensures Seen(front + [s], id) <==> Seen(front, id) || id == s.paymentId {
      if Seen(front, id) {
        var i :| 0 <= i < |front| && front[i].paymentId == id;
        assert (front + [s])[i].paymentId == id;
      }
      assert (front + [s])[|front|].paymentId == s.paymentId;
    }
  }

  lemma ConsistentGrows(front: seq<Settlement>, s: Settlement)
    ensures Consistent(front + [s]) <==>
      Consistent(front) && forall i :: 0 <= i < |front| && front[i].paymentId == s.paymentId ==> front[i] == s
  {
    var all := front + [s];
    if Consistent(all) {
      forall i, j | 0 <= i < j < |front| && front[i].paymentId == front[j].paymentId ensures front[i] == front[j] {
        assert all[i] == front[i] && all[j] == front[j];
      }
      forall i | 0 <= i < |front| && front[i].paymentId == s.paymentId ensures front[i] == s {
        assert all[i] == front[i] && all[|front|] == s;
      }
    }
  }

  lemma IndexGrows(byId: map<string, Settlement>, front: seq<Settlement>, s: Settlement)
    requires Indexes(byId, front)
    ensures Consistent(front + [s]) <==> Consistent(front) && (s.paymentId in byId ==> byId[s.paymentId] == s)
    ensures Indexes(if s.paymentId in byId then byId else byId[s.paymentId := s], front + [s])
  {
    SeenGrows(front, s);
    ConsistentGrows(front, s);
    if s.paymentId in byId {
      assert byId[s.paymentId] in front;
      forall i | Consistent(front) && 0 <= i < |front| && front[i].paymentId == s.paymentId
        ensures front[i] == byId[s.paymentId] {
        assert front[i] in front;
      }
    }
  }

  /** The net is the sum over the deduplicated records. */
  function SumSigned(settlements: seq<Settlement>): real {
    if settlements == [] then 0.0
    else SumSigned(settlements[..|settlements| - 1]) + Signed(settlements[|settlements| - 1])
  }

  lemma {:induction false} NetIsUniqueSum(settlements: seq<Settlement>)
    ensures SumSigned(Unique(settlements)) == Net(settlements)
  {
    if settlements == [] {
    } else {
      var front, last := settlements[..|settlements| - 1], settlements[|settlements| - 1];
      NetIsUniqueSum(front);
      if !Seen(front, last.paymentId) { assert (Unique(front) + [last])[..|Unique(front)|] == Unique(front); }
    }
  }

  /** Without conflicts, deduplication loses no record. */
  lemma {:induction false} UniqueHasAll(settlements: seq<Settlement>)
    requires Consistent(settlements)
    ensures forall s :: s in Unique(settlements) <==> s in settlements
  {
    if settlements == [] {
    } else {
      var front, last := settlements[..|settlements| - 1], settlements[|settlements| - 1];
      UniqueHasAll(front);
      LastSplits(settlements);
    }
  }

  lemma SameProblems(a: seq<Settlement>, b: seq<Settlement>, currency: Option<string>)
    requires forall s :: s in a <==> s in b
    ensures (exists k :: 0 <= k < |a| && a[k].amount.None?) <==> (exists k :: 0 <= k < |b| && b[k].amount.None?)
    ensures (exists k :: 0 <= k < |a| && a[k].currency.None?) <==> (exists k :: 0 <= k < |b| && b[k].currency.None?)
    ensures (exists k :: 0 <= k < |a| && a[k].currency != currency) <==>
      exists k :: 0 <= k < |b| && b[k].currency != currency
  {
    forall k | 0 <= k < |a| ensures exists m :: 0 <= m < |b| && b[m] == a[k] { assert a[k] in b; }
    forall k | 0 <= k < |b| ensures exists m :: 0 <= m < |a| && a[m] == b[k] { assert b[k] in a; }
  }

  /** Net cash of deduplicated records, and what they may lack. */
  method Scan(unique: seq<Settlement>, currency: Option<string>)
    returns (net: real, unpriced: bool, unnamed: bool, foreign: bool)
    ensures net == SumSigned(unique) && (unpriced <==> exists k :: 0 <= k < |unique| && unique[k].amount.None?)
    ensures unnamed <==> exists k :: 0 <= k < |unique| && unique[k].currency.None?
    ensures foreign <==> exists k :: 0 <= k < |unique| && unique[k].currency != currency
  {
    net, unpriced, unnamed, foreign := 0.0, false, false, false;
    for i := 0 to |unique|
      invariant net == SumSigned(unique[..i])
      invariant unpriced <==> exists k :: 0 <= k < i && unique[k].amount.None?
      invariant unnamed <==> exists k :: 0 <= k < i && unique[k].currency.None?
      invariant foreign <==> exists k :: 0 <= k < i && unique[k].currency != currency
    {
      assert unique[..i + 1][..i] == unique[..i];
      var s := unique[i];
      if s.amount.None? { unpriced := true; }
      else if s.payment { net := net + s.amount.value; }
      else { net := net - s.amount.value; }
      unnamed, foreign := unnamed || s.currency.None?, foreign || s.currency != currency;
    }
    TakeAll(unique);
  }

  /** The records in a window. */
  function InWindow(settlements: seq<Settlement>, w: Window): seq<Settlement> {
    if settlements == [] then []
    else
      var front, last := settlements[..|settlements| - 1], settlements[|settlements| - 1];
      if w.Contains(last.occurredAt) then InWindow(front, w) + [last] else InWindow(front, w)
  }

  lemma {:induction false} InWindowAre(settlements: seq<Settlement>, w: Window, s: Settlement)
    ensures s in InWindow(settlements, w) <==> s in settlements && w.Contains(s.occurredAt)
  {
    if settlements == [] {
    } else {
      InWindowAre(settlements[..|settlements| - 1], w, s);
      LastSplits(settlements);
    }
  }

  /** A window that contains every record selects them all. */
  lemma {:induction false} AllInWindow(settlements: seq<Settlement>, w: Window)
    requires forall i :: 0 <= i < |settlements| ==> w.Contains(settlements[i].occurredAt)
    ensures InWindow(settlements, w) == settlements
  {
    if settlements == [] {
    } else {
      AllInWindow(settlements[..|settlements| - 1], w);
      LastSplits(settlements);
    }
  }

  lemma {:induction false} SeenInWindow(settlements: seq<Settlement>, w: Window, s: Settlement)
    requires w.Contains(s.occurredAt)
    requires forall i :: 0 <= i < |settlements| && settlements[i].paymentId == s.paymentId ==> settlements[i] == s
    ensures Seen(InWindow(settlements, w), s.paymentId) <==> Seen(settlements, s.paymentId)
  {
    if settlements == [] {
    } else {
      var front, last := settlements[..|settlements| - 1], settlements[|settlements| - 1];
      SeenInWindow(front, w, s);
      assert settlements == front + [last];
      SeenGrows(front, last);
      if w.Contains(last.occurredAt) { SeenGrows(InWindow(front, w), last); }
    }
  }

  /** Consecutive windows split the net cash of consistent settlements without loss or double count. */
  lemma {:induction false} WindowsSplitNet(settlements: seq<Settlement>, start: int, cut: int, end: int)
    requires start <= cut <= end && Consistent(settlements)
    ensures Net(InWindow(settlements, Window(start, end)))
      == Net(InWindow(settlements, Window(start, cut))) + Net(InWindow(settlements, Window(cut, end)))
  {
    if settlements == [] {
    } else {
      var front, last := settlements[..|settlements| - 1], settlements[|settlements| - 1];
      WindowsSplitNet(front, start, cut, end);
      NetGrows(settlements, Window(start, end));
      NetGrows(settlements, Window(start, cut));
      NetGrows(settlements, Window(cut, end));
    }
  }

  /** What the last record adds to the net of a window. */
  lemma NetGrows(settlements: seq<Settlement>, w: Window)
    requires settlements != [] && Consistent(settlements)
    ensures var front, last := settlements[..|settlements| - 1], settlements[|settlements| - 1];
      Net(InWindow(settlements, w)) == Net(InWindow(front, w))
        + if w.Contains(last.occurredAt) && !Seen(front, last.paymentId) then Signed(last) else 0.0
  {
    var front, last := settlements[..|settlements| - 1], settlements[|settlements| - 1];
    if w.Contains(last.occurredAt) {
      SeenInWindow(front, w, last);
      assert (InWindow(front, w) + [last])[..|InWindow(front, w)|] == InWindow(front, w);
    }
  }

  lemma {:induction false} WindowKeepsConsistency(settlements: seq<Settlement>, w: Window)
    requires Consistent(settlements)
    ensures Consistent(InWindow(settlements, w))
    ensures forall s :: s in InWindow(settlements, w) ==> s in settlements
  {
    if settlements == [] {
    } else {
      var front, last := settlements[..|settlements| - 1], settlements[|settlements| - 1];
      assert settlements == front + [last];
      ConsistentGrows(front, last);
      WindowKeepsConsistency(front, w);
      ConsistentGrows(InWindow(front, w), last);
      forall i | 0 <= i < |InWindow(front, w)| && InWindow(front, w)[i].paymentId == last.paymentId
        ensures InWindow(front, w)[i] == last {
        assert InWindow(front, w)[i] in front;
      }
    }
  }
}
