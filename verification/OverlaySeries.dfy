/** The accounting equity overlay at each mark, read back from the ledger's postings. */
module OverlaySeries {
  import opened Common
  import opened Ledger
  import opened PaperBroker

  /** An earlier flow has the same logical key. */
  predicate Repeats(flows: seq<Posting>, i: nat)
    requires i < |flows|
  {
    flows[i].logicalKey.Some? && exists j :: 0 <= j < i && flows[j].logicalKey == flows[i].logicalKey
  }

  /** The flows that count: the first of each key, unless it is unavailable. */
  function Counted(flows: seq<Posting>): seq<Posting> {
    if flows == [] then []
    else
      var n := |flows| - 1;
      var front := Counted(flows[..n]);
      if Repeats(flows, n) || flows[n].unavailable then front else front + [flows[n]]
  }

  function Unavailable(flows: seq<Posting>): nat {
    if flows == [] then 0
    else
      var n := |flows| - 1;
      Unavailable(flows[..n]) + if !Repeats(flows, n) && flows[n].unavailable then 1 else 0
  }

  function At(p: Posting, t: int): Amounts { if p.occurredAt <= t then p.amounts else ZERO }

  /** What the rows add up to by time `t`. */
  function UpTo(rows: seq<Posting>, t: int): Amounts {
    if rows == [] then ZERO else UpTo(rows[..|rows| - 1], t).Plus(At(rows[|rows| - 1], t))
  }

  predicate InTime(rows: seq<Posting>) {
    forall i, j :: 0 <= i < j < |rows| ==> rows[i].occurredAt <= rows[j].occurredAt
  }

  lemma UpToNext(rows: seq<Posting>, p: Posting, t: int)
    ensures UpTo(rows + [p], t) == UpTo(rows, t).Plus(At(p, t))
  {
    assert (rows + [p])[..|rows|] == rows;
  }

  lemma PlusSwaps(a: Amounts, x: Amounts, y: Amounts)
    ensures a.Plus(x).Plus(y) == a.Plus(y).Plus(x)
  {}

  /** Where a row is put does not matter to the sums. */
  lemma {:induction false} InsertedSum(before: seq<Posting>, p: Posting, after: seq<Posting>, t: int)
    ensures UpTo(before + [p] + after, t) == UpTo(before + after, t).Plus(At(p, t))
  {
    if after == [] {
      assert before + [p] + after == before + [p] && before + after == before;
      UpToNext(before, p, t);
    } else {
      var front, last := after[..|after| - 1], after[|after| - 1];
      assert before + [p] + after == (before + [p] + front) + [last] && before + after == (before + front) + [last];
      InsertedSum(before, p, front, t);
      UpToNext(before + [p] + front, last, t);
      UpToNext(before + front, last, t);
      PlusSwaps(UpTo(before + front, t), At(p, t), At(last, t));
    }
  }

  /** The sums of `after` are those of `before` and one more row. */
  ghost predicate Adds(before: seq<Posting>, p: Posting, after: seq<Posting>) {
    forall t :: UpTo(after, t) == UpTo(before, t).Plus(At(p, t))
  }

  ghost predicate SameSums(a: seq<Posting>, b: seq<Posting>) { forall t :: UpTo(a, t) == UpTo(b, t) }

  lemma SumsNext(rows: seq<Posting>, more: seq<Posting>, counted: seq<Posting>, p: Posting)
    requires SameSums(rows, counted) && Adds(rows, p, more)
    ensures SameSums(more, counted + [p])
  {
    forall t ensures UpTo(more, t) == UpTo(counted + [p], t) { UpToNext(counted, p, t); }
  }

  /** Put a row behind every row that is not later. */
  method InsertRow(rows: seq<Posting>, p: Posting) returns (r: seq<Posting>)
    requires InTime(rows)
    ensures InTime(r) && Adds(rows, p, r)
  {
    var i := |rows|;
    while i > 0 && rows[i - 1].occurredAt > p.occurredAt
      invariant 0 <= i <= |rows| && forall k :: i <= k < |rows| ==> rows[k].occurredAt > p.occurredAt
    {
      i := i - 1;
    }
    r := rows[..i] + [p] + rows[i..];
    InsertedAdds(rows, p, i);
    InsertedInTime(rows, p, i);
  }

  lemma InsertedAdds(rows: seq<Posting>, p: Posting, i: nat)
    requires i <= |rows|
    ensures Adds(rows, p, rows[..i] + [p] + rows[i..])
  {
    assert rows[..i] + rows[i..] == rows;
    forall t ensures UpTo(rows[..i] + [p] + rows[i..], t) == UpTo(rows, t).Plus(At(p, t)) {
      InsertedSum(rows[..i], p, rows[i..], t);
    }
  }

  lemma InsertedInTime(rows: seq<Posting>, p: Posting, i: nat)
    requires InTime(rows) && i <= |rows| && (i > 0 ==> rows[i - 1].occurredAt <= p.occurredAt)
    requires forall k :: i <= k < |rows| ==> rows[k].occurredAt > p.occurredAt
    ensures InTime(rows[..i] + [p] + rows[i..])
  {
    assert forall k :: 0 <= k < i ==> rows[k].occurredAt <= rows[i - 1].occurredAt;
  }

  /** The keys of the first flows. */
  ghost predicate Seen(seen: set<string>, flows: seq<Posting>, n: nat)
    requires n <= |flows|
  {
    forall key :: key in seen <==> exists j :: 0 <= j < n && flows[j].logicalKey == Some(key)
  }

  lemma SeenNext(seen: set<string>, flows: seq<Posting>, n: nat)
    requires n < |flows| && Seen(seen, flows, n)
    ensures Repeats(flows, n) <==> flows[n].logicalKey.Some? && flows[n].logicalKey.value in seen
    ensures Seen(if flows[n].logicalKey.Some? then seen + {flows[n].logicalKey.value} else seen, flows, n + 1)
  {
    var more := if flows[n].logicalKey.Some? then seen + {flows[n].logicalKey.value} else seen;
    forall key ensures key in more <==> exists j :: 0 <= j < n + 1 && flows[j].logicalKey == Some(key) {
      if key in more {
        if key in seen {
          var j :| 0 <= j < n && flows[j].logicalKey == Some(key);
        } else {
          assert flows[n].logicalKey == Some(key);
        }
      }
    }
  }

  /** Drop repeats, count the unavailable and sort the rest by occurrence. */
  method CollectRows(flows: seq<Posting>) returns (rows: seq<Posting>, unavailable: nat)
    ensures InTime(rows) && unavailable == Unavailable(flows) && SameSums(rows, Counted(flows))
  {
    var seen: set<string> := {};
    rows, unavailable := [], 0;
    for i := 0 to |flows|
      invariant Seen(seen, flows, i) && InTime(rows)
      invariant unavailable == Unavailable(flows[..i]) && SameSums(rows, Counted(flows[..i]))
    {
      var flow := flows[i];
      NextFlow(flows, i);
      SeenNext(seen, flows, i);
      if flow.logicalKey.Some? && flow.logicalKey.value in seen {
        assert seen + {flow.logicalKey.value} == seen;
        continue;
      }
      if flow.logicalKey.Some? { seen := seen + {flow.logicalKey.value}; }
      if flow.unavailable {
        unavailable := unavailable + 1;
        continue;
      }
      var more := InsertRow(rows, flow);
      SumsNext(rows, more, Counted(flows[..i]), flow);
      rows := more;
    }
    assert flows[..|flows|] == flows;
  }

  lemma NextFlow(flows: seq<Posting>, i: nat)
    requires i < |flows|
    ensures Counted(flows[..i + 1]) ==
      if Repeats(flows, i) || flows[i].unavailable then Counted(flows[..i]) else Counted(flows[..i]) + [flows[i]]
    ensures Unavailable(flows[..i + 1]) == Unavailable(flows[..i])
      + if !Repeats(flows, i) && flows[i].unavailable then 1 else 0
  {
    var more := flows[..i + 1];
    assert more[..i] == flows[..i];
    SameRepeats(flows, i + 1, i);
  }

  /** Whether a flow repeats depends on the flows before it only. */
  lemma SameRepeats(flows: seq<Posting>, n: nat, i: nat)
    requires i < n <= |flows|
    ensures Repeats(flows[..n], i) <==> Repeats(flows, i)
  {
    assert forall j :: 0 <= j <= i ==> flows[..n][j] == flows[j];
    if Repeats(flows, i) {
      var j :| 0 <= j < i && flows[j].logicalKey == flows[i].logicalKey;
      assert flows[..n][j].logicalKey == flows[..n][i].logicalKey;
    }
  }

  /** The latest of the first marks; the cursor never goes back. */
  function Latest(marks: seq<int>): int
    requires marks != []
  {
    if |marks| == 1 then marks[0] else Max(Latest(marks[..|marks| - 1]), marks[|marks| - 1])
  }

  predicate Ascending(marks: seq<int>) { forall i, j :: 0 <= i < j < |marks| ==> marks[i] <= marks[j] }

  lemma LatestIsLast(marks: seq<int>)
    requires marks != [] && Ascending(marks)
    ensures Latest(marks) == marks[|marks| - 1]
  {
    if |marks| == 1 {
    } else {
      LatestIsLast(marks[..|marks| - 1]);
    }
  }

  lemma NothingAdded(a: Amounts)
    ensures a.Plus(ZERO) == a
  {}

  lemma LatestNext(marks: seq<int>, k: nat)
    requires k < |marks|
    ensures Latest(marks[..k + 1]) == if k == 0 then marks[0] else Max(Latest(marks[..k]), marks[k])
  {
    assert marks[..k + 1][..k] == marks[..k];
  }

  /** Rows up to the cursor are those by time `t`. */
  lemma CursorSum(rows: seq<Posting>, cursor: nat, t: int)
    requires Split(rows, cursor, t)
    ensures UpTo(rows, t) == Balances(rows[..cursor])
  {
    AllInTime(rows[..cursor], t);
    LaterAddsNothing(rows[..cursor], rows[cursor..], t);
    assert rows[..cursor] + rows[cursor..] == rows;
  }

  lemma {:induction false} LaterAddsNothing(rows: seq<Posting>, later: seq<Posting>, t: int)
    requires forall i :: 0 <= i < |later| ==> later[i].occurredAt > t
    ensures UpTo(rows + later, t) == UpTo(rows, t)
    decreases |later|
  {
    if later == [] {
      assert rows + later == rows;
    } else {
      LaterAdds(rows, later[0], t);
      LaterAddsNothing(rows + [later[0]], later[1..], t);
      FirstMoves(rows, later);
    }
  }

  lemma LaterAdds(rows: seq<Posting>, p: Posting, t: int)
    requires p.occurredAt > t
    ensures UpTo(rows + [p], t) == UpTo(rows, t)
  {
    UpToNext(rows, p, t);
    NothingAdded(UpTo(rows, t));
  }

  lemma {:induction false} AllInTime(rows: seq<Posting>, t: int)
    requires forall i :: 0 <= i < |rows| ==> rows[i].occurredAt <= t
    ensures UpTo(rows, t) == Balances(rows)
  {
    if rows == [] {
    } else {
      AllInTime(rows[..|rows| - 1], t);
    }
  }

  /** Each value is the equity of what had occurred by the latest mark so far. */
  ghost predicate Traces(values: seq<real>, rows: seq<Posting>, marks: seq<int>) {
    |values| <= |marks| && forall k :: 0 <= k < |values| ==> values[k] == Worth(UpTo(rows, Latest(marks[..k + 1])))
  }

  /** Each value is the equity of what had occurred by its own mark. */
  ghost predicate Marked(values: seq<real>, rows: seq<Posting>, marks: seq<int>) {
    |values| <= |marks| && forall k :: 0 <= k < |values| ==> values[k] == Worth(UpTo(rows, marks[k]))
  }

  lemma AscendingIsMarked(values: seq<real>, rows: seq<Posting>, marks: seq<int>)
    requires Traces(values, rows, marks) && Ascending(marks)
    ensures Marked(values, rows, marks)
  {
    forall k | 0 <= k < |values| ensures values[k] == Worth(UpTo(rows, marks[k])) { LatestIsLast(marks[..k + 1]); }
  }

  lemma TracesNext(values: seq<real>, rows: seq<Posting>, marks: seq<int>, value: real)
    requires Traces(values, rows, marks) && |values| < |marks|
      && value == Worth(UpTo(rows, Latest(marks[..|values| + 1])))
    ensures Traces(values + [value], rows, marks)
  {}

  /** The overlay at every mark, the balances after the last and the number of unavailable flows. */
  method AccountingEquitySeries(flows: seq<Posting>, marks: seq<int>)
    returns (values: seq<real>, states: Amounts, unavailable: nat)
    ensures |values| == |marks| && Traces(values, Counted(flows), marks) && unavailable == Unavailable(flows)
    ensures Ascending(marks) ==> Marked(values, Counted(flows), marks)
    ensures states == if marks == [] then ZERO else UpTo(Counted(flows), Latest(marks))
  {
    var rows;
    rows, unavailable := CollectRows(flows);
    values, states := [], ZERO;
    var cursor: nat := 0;
    for k := 0 to |marks|
      invariant |values| == k && Traces(values, Counted(flows), marks)
      invariant cursor <= |rows| && states == Balances(rows[..cursor])
      invariant if k == 0 then cursor == 0 else Split(rows, cursor, Latest(marks[..k]))
    {
      LatestNext(marks, k);
      cursor, states := Advance(rows, cursor, states, marks[k], Latest(marks[..k + 1]));
      CursorSum(rows, cursor, Latest(marks[..k + 1]));
      var equity := EquityOf(states);
      TracesNext(values, Counted(flows), marks, equity);
      values := values + [equity];
    }
    assert marks[..|marks|] == marks;
    if marks != [] { CursorSum(rows, cursor, Latest(marks)); }
    if Ascending(marks) { AscendingIsMarked(values, Counted(flows), marks); }
  }

  method EquityOf(a: Amounts) returns (equity: real)
    ensures equity == Worth(a)
  {
    equity := a.cash + a.receivable + a.refund - a.payable - a.borrow - a.repayment;
  }

  predicate Split(rows: seq<Posting>, cursor: nat, t: int) {
    && cursor <= |rows| && (forall i :: 0 <= i < cursor ==> rows[i].occurredAt <= t)
    && forall i :: cursor <= i < |rows| ==> rows[i].occurredAt > t
  }

  /** Move the cursor over everything that occurred by the mark. */
  method Advance(rows: seq<Posting>, start: nat, before: Amounts, mark: int, ghost latest: int)
    returns (cursor: nat, states: Amounts)
    requires InTime(rows) && start <= |rows| && before == Balances(rows[..start]) && mark <= latest
    requires forall i :: 0 <= i < start ==> rows[i].occurredAt <= latest
    requires mark < latest ==> forall i :: start <= i < |rows| ==> rows[i].occurredAt > latest
    ensures Split(rows, cursor, latest) && states == Balances(rows[..cursor])
  {
    cursor, states := start, before;
    while cursor < |rows| && rows[cursor].occurredAt <= mark
      invariant start <= cursor <= |rows| && states == Balances(rows[..cursor])
      invariant forall i :: 0 <= i < cursor ==> rows[i].occurredAt <= latest
    {
      assert rows[..cursor + 1][..cursor] == rows[..cursor];
      states := Add(states, rows[cursor].amounts);
      cursor := cursor + 1;
    }
  }

  // --- against the broker's overlay ---

  /** Without repeats, and once everything has occurred, the series ends at the broker's running overlay. */
  lemma {:induction false} SeriesEndsAtOverlay(rows: seq<Posting>, gaps: nat, t: int)
    requires Running(rows, gaps).Ok? && forall i :: 0 <= i < |rows| ==> rows[i].occurredAt <= t && !Repeats(rows, i)
    ensures UpTo(Counted(rows), t) == Running(rows, gaps).value.amounts
    ensures Unavailable(rows) + gaps == Running(rows, gaps).value.unavailable
  {
    if rows == [] {
    } else {
      var front, last := rows[..|rows| - 1], rows[|rows| - 1];
      forall i | 0 <= i < |front| ensures !Repeats(front, i) { SameRepeats(rows, |front|, i); }
      SeriesEndsAtOverlay(front, gaps, t);
      assert !Repeats(rows, |rows| - 1);
      if !last.unavailable { UpToNext(Counted(front), last, t); }
    }
  }
}
