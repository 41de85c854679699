/** Which revision of a corporate action counts: explicit supersession chains, never input order. */
module Revisions {
  import opened Common

  /** A revision of a distribution action. */
  datatype Action = Action(
    actionId: string, revisionId: string, supersedes: Option<string>, knowledgeAt: Option<int>,
    symbol: string, exAt: int, perShare: Option<real>, currency: Option<string>, cancelled: bool)

  function Elements(s: seq<Action>): set<Action> { set a | a in s }

  /** All revisions of one action, without duplicates. */
  function Group(actions: seq<Action>, id: string): set<Action> {
    set a | a in actions && a.actionId == id
  }

  /** No two different records share a revision id. */
  predicate Clean(revisions: set<Action>) {
    forall a, b :: a in revisions && b in revisions && a.revisionId == b.revisionId ==> a == b
  }

  /** Each step of `path` supersedes the one before; a path of several starts at an original. */
  predicate Supersedes(path: seq<Action>) {
    && path != []
    && (|path| > 1 ==> path[0].supersedes.None?)
    && forall i :: 0 < i < |path| ==> path[i].supersedes == Some(path[i - 1].revisionId)
  }

  ghost predicate Covers(path: seq<Action>, revisions: set<Action>) {
    && (forall a :: a in path <==> a in revisions)
    && forall i, j :: 0 <= i < j < |path| ==> path[i] != path[j]
  }

  /** The revisions form one unbranched supersession path. */
  ghost predicate IsPath(path: seq<Action>, revisions: set<Action>) {
    Supersedes(path) && Covers(path, revisions)
  }

  /** `last` is the accepted revision: the end of the one path through all revisions. */
  ghost predicate Accepts(revisions: set<Action>, last: Action) {
    Clean(revisions) && exists path: seq<Action> :: IsPath(path, revisions) && path[|path| - 1] == last
  }

  /** A walk from an original follows every path through the same revisions. */
  lemma {:induction false} WalkFollowsPath(walk: seq<Action>, path: seq<Action>, revisions: set<Action>)
    requires Clean(revisions) && IsPath(path, revisions) && |revisions| > 1
    requires Supersedes(walk) && walk[0].supersedes.None? && forall a :: a in walk ==> a in revisions
    requires forall i, j :: 0 <= i < j < |walk| ==> walk[i] != walk[j]
    ensures |walk| <= |path| && walk == path[..|walk|]
  {
    var last := |walk| - 1;
    assert walk[last] in walk;
    var k :| 0 <= k < |path| && path[k] == walk[last];
    if last == 0 {
      assert k == 0;
    } else {
      WalkFollowsPath(walk[..last], path, revisions);
      assert walk[last - 1] == path[last - 1];
      assert k > 0;
      assert path[k - 1] in path && path[last - 1] in path;
      assert path[k - 1] == path[last - 1];
      assert k == last;
    }
  }

  /** Whatever the input order, the accepted revision is unique. */
  lemma AcceptedIsUnique(revisions: set<Action>, a: Action, b: Action)
    requires Accepts(revisions, a) && Accepts(revisions, b)
    ensures a == b
  {
    var p: seq<Action> :| IsPath(p, revisions) && p[|p| - 1] == a;
    var q: seq<Action> :| IsPath(q, revisions) && q[|q| - 1] == b;
    assert a in p && b in q && p[0] in p && q[0] in q;
    if |revisions| > 1 {
      MoreThanOne(p, revisions);
      MoreThanOne(q, revisions);
      WalkFollowsPath(p, q, revisions);
      WalkFollowsPath(q, p, revisions);
    } else {
      OnlyOne(revisions, a, b);
    }
  }

  lemma OnlyOne(revisions: set<Action>, a: Action, b: Action)
    requires |revisions| <= 1 && a in revisions && b in revisions
    ensures a == b
  {
    assert |revisions - {a}| == |revisions| - 1;
    assert b in revisions - {a} || b == a;
  }

  lemma MoreThanOne(path: seq<Action>, revisions: set<Action>)
    requires Covers(path, revisions) && |revisions| > 1
    ensures |path| > 1
  {
    if |path| <= 1 {
      assert revisions <= if path == [] then {} else {path[0]};
      SubsetSize(revisions, if path == [] then {} else {path[0]});
    }
  }

  lemma {:induction false} SubsetSize(a: set<Action>, b: set<Action>)
    requires a <= b
    ensures |a| <= |b|
  {
    if a != {} {
      var x :| x in a;
      SubsetSize(a - {x}, b - {x});
    }
  }

  // --- the resolution of one action ---

  /** Revisions by revision id; None when two different records share one. */
  method ByRevision(revisions: seq<Action>) returns (values: Option<set<Action>>)
    ensures values.Some? <==> Clean(Elements(revisions))
    ensures values.Some? ==> values.value == Elements(revisions)
  {
    var byId: map<string, Action> := map[];
    var conflict := false;
    for i := 0 to |revisions|
      invariant !conflict <==> Clean(Elements(revisions[..i]))
      invariant forall a :: a in revisions[..i] ==> a.revisionId in byId
      invariant forall id :: id in byId ==> byId[id] in revisions[..i] && byId[id].revisionId == id
      invariant !conflict ==> forall a :: a in revisions[..i] ==> byId[a.revisionId] == a
    {
      var r := revisions[i];
      assert revisions[..i + 1] == revisions[..i] + [r];
      if r.revisionId !in byId { byId := byId[r.revisionId := r]; }
      else if byId[r.revisionId] != r { conflict := true; }
    }
    assert revisions[..|revisions|] == revisions;
    if conflict { return None; }
    values := Some(set id | id in byId :: byId[id]);
  }

  /** The end of the supersession path through `values`, or None. */
  method FollowChain(values: set<Action>) returns (last: Option<Action>)
    requires Clean(values) && |values| > 1
    ensures last.Some? ==> Accepts(values, last.value)
    ensures last.None? ==> forall a :: !Accepts(values, a)
  {
    var roots := set a | a in values && a.supersedes.None?;
    if |roots| != 1 {
      forall a ensures !Accepts(values, a) {
        if Accepts(values, a) { OneRoot(values, a); }
      }
      return None;
    }
    var current :| current in roots;
    var remaining := values - {current};
    ghost var walk := [current];
    while remaining != {}
      invariant remaining <= values && Supersedes(walk) && walk[0].supersedes.None?
      invariant walk[|walk| - 1] == current && Covers(walk, values - remaining)
      decreases |remaining|
    {
      var children := Children(remaining, current);
      if |children| != 1 {
        forall a ensures !Accepts(values, a) {
          if Accepts(values, a) { OneChild(values, walk, remaining, a); }
        }
        return None;
      }
      var child :| child in children;
      WalkGrows(values, walk, remaining, child);
      current := child;
      remaining := remaining - {child};
      walk := walk + [child];
    }
    assert values - remaining == values;
    last := Some(current);
  }

  /** The revisions that supersede `current`. */
  function Children(remaining: set<Action>, current: Action): set<Action> {
    set r | r in remaining && r.supersedes == Some(current.revisionId)
  }

  lemma WalkGrows(values: set<Action>, walk: seq<Action>, remaining: set<Action>, child: Action)
    requires Supersedes(walk) && walk[0].supersedes.None? && Covers(walk, values - remaining)
    requires remaining <= values && child in Children(remaining, walk[|walk| - 1])
    ensures Supersedes(walk + [child]) && Covers(walk + [child], values - (remaining - {child}))
  {
    forall k | 0 <= k < |walk| ensures walk[k] != child { assert walk[k] in walk; }
  }

  lemma OneRoot(values: set<Action>, last: Action)
    requires Accepts(values, last) && |values| > 1
    ensures |set a | a in values && a.supersedes.None?| == 1
  {
    var path: seq<Action> :| IsPath(path, values) && path[|path| - 1] == last;
    MoreThanOne(path, values);
    var roots := set a | a in values && a.supersedes.None?;
    assert path[0] in path;
    forall i | 0 < i < |path| ensures path[i].supersedes.Some? {
      assert path[i].supersedes == Some(path[i - 1].revisionId);
    }
    forall a | a in roots ensures a == path[0] {
      var k :| 0 <= k < |path| && path[k] == a;
    }
    assert roots == {path[0]};
  }

  lemma OneChild(values: set<Action>, walk: seq<Action>, remaining: set<Action>, last: Action)
    requires Accepts(values, last) && |values| > 1 && remaining <= values && remaining != {}
    requires Supersedes(walk) && walk[0].supersedes.None? && Covers(walk, values - remaining)
    ensures |Children(remaining, walk[|walk| - 1])| == 1
  {
    var path: seq<Action> :| IsPath(path, values) && path[|path| - 1] == last;
    WalkFollowsPath(walk, path, values);
    NextIsRemaining(values, walk, remaining, path);
    var children := Children(remaining, walk[|walk| - 1]);
    forall r | r in children ensures r == path[|walk|] { ChildIsNext(values, walk, path, r); }
    assert children == {path[|walk|]};
  }

  /** A path that the walk has not finished goes on with a remaining revision. */
  lemma NextIsRemaining(values: set<Action>, walk: seq<Action>, remaining: set<Action>, path: seq<Action>)
    requires IsPath(path, values) && remaining <= values && remaining != {} && Covers(walk, values - remaining)
    requires walk != [] && |walk| <= |path| && walk == path[..|walk|]
    ensures |walk| < |path| && path[|walk|] in Children(remaining, walk[|walk| - 1])
  {
    var n := |walk|;
    var rest :| rest in remaining;
    var at :| 0 <= at < |path| && path[at] == rest;
    assert forall k :: 0 <= k < n ==> path[k] == walk[k] && walk[k] in walk;
    assert at >= n;
    assert path[n] in path && path[n] !in walk;
  }

  lemma ChildIsNext(values: set<Action>, walk: seq<Action>, path: seq<Action>, r: Action)
    requires Clean(values) && IsPath(path, values) && walk != [] && |walk| < |path| && walk == path[..|walk|]
    requires r in values && r.supersedes == Some(walk[|walk| - 1].revisionId)
    ensures r == path[|walk|]
  {
    var k :| 0 <= k < |path| && path[k] == r;
    var n := |walk|;
    assert k > 0;
    assert path[k - 1] in path && path[n - 1] in path;
    assert path[k - 1] == path[n - 1];
    assert k == n;
  }

  /** Resolve the revisions of one action, in whatever order and however often they were listed. */
  method Resolve(revisions: seq<Action>) returns (last: Option<Action>)
    requires revisions != []
    ensures last.Some? ==> Accepts(Elements(revisions), last.value)
    ensures last.None? ==> forall a :: !Accepts(Elements(revisions), a)
  {
    var values := ByRevision(revisions);
    if values.None? { return None; }
    assert revisions[0] in Elements(revisions);
    if |values.value| == 1 {
      var only :| only in values.value;
      SingleIsAccepted(values.value, only);
      return Some(only);
    }
    assert |values.value| > 1;
    last := FollowChain(values.value);
  }

  /** A single revision is accepted whatever it claims to supersede. */
  lemma SingleIsAccepted(values: set<Action>, only: Action)
    requires |values| == 1 && only in values
    ensures Accepts(values, only)
  {
    forall a | a in values ensures a == only { OnlyOne(values, a, only); }
    assert IsPath([only], values);
  }

  // --- all actions together ---

  ghost predicate Resolves(actions: seq<Action>, accepted: set<Action>, conflicts: set<string>) {
    && (forall a :: a in accepted <==> a in actions && Accepts(Group(actions, a.actionId), a))
    && (forall id :: id in conflicts <==> Mentioned(actions, id) && forall a :: !Accepts(Group(actions, id), a))
  }

  predicate Mentioned(actions: seq<Action>, id: string) {
    exists i :: 0 <= i < |actions| && actions[i].actionId == id
  }

  method GroupRows(actions: seq<Action>, id: string) returns (revisions: seq<Action>)
    ensures Elements(revisions) == Group(actions, id)
    ensures Mentioned(actions, id) ==> revisions != []
  {
    revisions := [];
    for i := 0 to |actions|
      invariant forall a :: a in revisions <==> a in actions[..i] && a.actionId == id
      invariant (exists k :: 0 <= k < i && actions[k].actionId == id) ==> revisions != []
    {
      assert actions[..i + 1] == actions[..i] + [actions[i]];
      if actions[i].actionId == id { revisions := revisions + [actions[i]]; }
    }
    assert actions[..|actions|] == actions;
  }

  /** Resolve every action once: the accepted revisions, and the ids in conflict. */
  method AcceptedActions(actions: seq<Action>) returns (accepted: set<Action>, conflicts: set<string>)
    ensures Resolves(actions, accepted, conflicts)
  {
    accepted, conflicts := {}, {};
    var seen: set<string> := {};
    for i := 0 to |actions|
      invariant forall id :: id in seen <==> Mentioned(actions[..i], id)
      invariant forall a :: a in accepted <==>
        a.actionId in seen && a in actions && Accepts(Group(actions, a.actionId), a)
      invariant forall id :: id in conflicts <==> id in seen && forall a :: !Accepts(Group(actions, id), a)
    {
      var id := actions[i].actionId;
      MentionGrows(actions, i);
      if id !in seen {
        seen := seen + {id};
        var last := ResolveOne(actions, id);
        if last.Some? { accepted := accepted + {last.value}; } else { conflicts := conflicts + {id}; }
      }
    }
    AllMentioned(actions);
  }

  lemma MentionGrows(actions: seq<Action>, i: nat)
    requires i < |actions|
    ensures Mentioned(actions, actions[i].actionId)
    ensures forall id :: Mentioned(actions[..i + 1], id) <==> Mentioned(actions[..i], id) || id == actions[i].actionId
  {
    forall id | Mentioned(actions[..i + 1], id) ensures Mentioned(actions[..i], id) || id == actions[i].actionId {
      var k :| 0 <= k < i + 1 && actions[..i + 1][k].actionId == id;
      if k < i { assert actions[..i][k].actionId == id; }
    }
    forall id | Mentioned(actions[..i], id) ensures Mentioned(actions[..i + 1], id) {
      var k :| 0 <= k < i && actions[..i][k].actionId == id;
      assert actions[..i + 1][k].actionId == id;
    }
    assert actions[..i + 1][i].actionId == actions[i].actionId;
  }

  lemma AllMentioned(actions: seq<Action>)
    ensures actions[..|actions|] == actions
    ensures forall a :: a in actions ==> Mentioned(actions, a.actionId)
  {}

  /** The accepted revision of one mentioned action is that action's, and the only one. */
  method ResolveOne(actions: seq<Action>, id: string) returns (last: Option<Action>)
    requires Mentioned(actions, id)
    ensures last.None? ==> forall a :: !Accepts(Group(actions, id), a)
    ensures last.Some? ==> last.value.actionId == id && last.value in actions
    ensures last.Some? ==> forall a :: Accepts(Group(actions, id), a) <==> a == last.value
  {
    var revisions := GroupRows(actions, id);
    last := Resolve(revisions);
    if last.Some? {
      AcceptedBelongs(Group(actions, id), last.value);
      forall a | Accepts(Group(actions, id), a) ensures a == last.value {
        AcceptedIsUnique(Group(actions, id), a, last.value);
      }
    }
  }

  lemma AcceptedBelongs(revisions: set<Action>, last: Action)
    requires Accepts(revisions, last)
    ensures last in revisions
  {
    var path: seq<Action> :| IsPath(path, revisions) && path[|path| - 1] == last;
    assert last in path;
  }

  /** The outcome ignores input order and duplicates: it depends on the set of records only. */
  lemma OrderAndDuplicatesIgnored(a: seq<Action>, b: seq<Action>, x: set<Action>, y: set<Action>, cx: set<string>,
                                  cy: set<string>)
    requires Elements(a) == Elements(b)
    requires Resolves(a, x, cx) && Resolves(b, y, cy)
    ensures x == y && cx == cy
  {
    SameRecords(a, b);
    assert forall r :: r in x <==> r in y;
    assert forall id :: id in cx <==> id in cy;
  }

  lemma SameRecords(a: seq<Action>, b: seq<Action>)
    requires Elements(a) == Elements(b)
    ensures forall r :: r in a <==> r in b
    ensures forall id :: Group(a, id) == Group(b, id) && (Mentioned(a, id) <==> Mentioned(b, id))
  {
    forall r ensures r in a <==> r in b { assert r in Elements(a) <==> r in Elements(b); }
    forall id ensures Group(a, id) == Group(b, id) && (Mentioned(a, id) <==> Mentioned(b, id)) {
      MentionedByGroup(a, id);
      MentionedByGroup(b, id);
    }
  }

  lemma MentionedByGroup(actions: seq<Action>, id: string)
    ensures Mentioned(actions, id) <==> Group(actions, id) != {}
  {
    if Mentioned(actions, id) {
      var i :| 0 <= i < |actions| && actions[i].actionId == id;
      assert actions[i] in Group(actions, id);
    }
    if Group(actions, id) != {} {
      var a :| a in Group(actions, id);
      var i :| 0 <= i < |actions| && actions[i] == a;
    }
  }

  // --- the causal view ---

  function Candidates(actions: seq<Action>, decision: Option<int>): (r: seq<Action>)
    ensures forall a :: a in r <==> a in actions && KnownBy(a.knowledgeAt, decision)
  {
    if actions == [] then []
    else
      var last := actions[|actions| - 1];
      assert actions == actions[..|actions| - 1] + [last];
      Candidates(actions[..|actions| - 1], decision) + if KnownBy(last.knowledgeAt, decision) then [last] else []
  }

  /** Records that were not known by the decision time cannot change its result, wherever they are inserted. */
  lemma LaterRecordsChangeNothing(before: seq<Action>, after: seq<Action>, decision: int,
                                  x: set<Action>, y: set<Action>, cx: set<string>, cy: set<string>)
    requires forall a :: a in before ==> a in after
    requires forall a :: a in after && a !in before ==> !KnownBy(a.knowledgeAt, Some(decision))
    requires Resolves(Candidates(before, Some(decision)), x, cx) && Resolves(Candidates(after, Some(decision)), y, cy)
    ensures x == y && cx == cy
  {
    var a, b := Candidates(before, Some(decision)), Candidates(after, Some(decision));
    assert forall r :: r in a <==> r in b;
    assert Elements(a) == Elements(b);
    OrderAndDuplicatesIgnored(a, b, x, y, cx, cy);
  }
}
