/** Feeding accounting events to the ledger and the broker in the order they became available. */
module AccountingReplay {
  import opened Common
  import opened Ledger
  import opened PaperBroker

  /** A supplied event. `keyed` and `reasoned` say whether it has a logical_key and an unavailable_reason entry at
      all, even an empty one. */
  datatype Event = Event(posting: Posting, keyed: bool, reasoned: bool, knowledgeAt: Option<int>)

  datatype Mode = CausalCapitalRerun | FixedTradeRestatement

  /** An event with the time it may be posted, the key that breaks ties, and its place in the input. */
  datatype Scheduled = Scheduled(posting: Posting, at: int, key: Option<string>, place: nat, origin: Event)

  function Label(e: Event): string {
    if e.keyed then (if e.posting.logicalKey.Some? then e.posting.logicalKey.value else "None") else e.posting.kind
  }

  /** How the amounts of a blocking event are written, and what its key ends with. */
  const ZEROS := "0"
  const UNKNOWN := ":unknown-knowledge"

  function AvailableAt(e: Event, mode: Mode): int {
    if mode.FixedTradeRestatement? || e.knowledgeAt.None? then e.posting.occurredAt
    else Max(e.posting.occurredAt, e.knowledgeAt.value)
  }

  /** A causal event nobody knows the knowledge time of becomes an explicit zero-value blocking event. */
  function Schedule(e: Event, mode: Mode, place: nat): Scheduled {
    if mode.CausalCapitalRerun? && e.knowledgeAt.None? then
      var key := Some(Label(e) + UNKNOWN);
      Scheduled(e.posting.(logicalKey := key, unavailable := !e.reasoned || e.posting.unavailable, amounts := ZERO,
                             written := ZEROS),
                e.posting.occurredAt, key, place, e)
    else
      Scheduled(e.posting.(occurredAt := AvailableAt(e, mode)), AvailableAt(e, mode),
                if e.keyed then e.posting.logicalKey else Some(""), place, e)
  }

  /** Never before the event happened; in causal mode never before it was known, and without value if that is
      unknown, and then blocking unless the event brought a reason entry of its own. */
  predicate Timely(s: Scheduled, mode: Mode) {
    && s.at >= s.origin.posting.occurredAt && s.posting.occurredAt == s.at
    && (mode.CausalCapitalRerun? ==>
      if s.origin.knowledgeAt.Some? then s.at >= s.origin.knowledgeAt.value
      else s.posting.amounts == ZERO && (s.posting.unavailable <==> !s.origin.reasoned || s.origin.posting.unavailable))
  }

  // --- the order of events ---

  /** Character by character, a prefix before what it is a prefix of. */
  predicate TextLess(a: string, b: string)
    decreases |a|
  {
    b != "" && (a == "" || a[0] < b[0] || (a[0] == b[0] && TextLess(a[1..], b[1..])))
  }

  /** The first difference decides: a smaller character there, or an end. */
  lemma {:induction false} TextLessAt(a: string, b: string)
    ensures TextLess(a, b) <==>
      exists k :: 0 <= k <= |a| && k < |b| && a[..k] == b[..k] && (k < |a| ==> a[k] < b[k])
    decreases |a|
  {
    if a == "" {
      if b != "" { assert a[..0] == b[..0]; }
    } else if b != "" {
      TextLessAt(a[1..], b[1..]);
      if a[0] < b[0] { assert a[..0] == b[..0]; }
      if a[0] == b[0] { ShiftDifference(a, b); }
      if k: nat :| 0 <= k <= |a| && k < |b| && a[..k] == b[..k] && (k < |a| ==> a[k] < b[k]) {
        if k > 0 { assert a[..k][0] == b[..k][0]; }
      }
    }
  }

  lemma ShiftDifference(a: string, b: string)
    requires a != "" && b != "" && a[0] == b[0]
    ensures (exists k :: 0 <= k <= |a| && k < |b| && a[..k] == b[..k] && (k < |a| ==> a[k] < b[k])) <==>
      exists k :: 0 <= k <= |a[1..]| && k < |b[1..]| && a[1..][..k] == b[1..][..k]
                  && (k < |a[1..]| ==> a[1..][k] < b[1..][k])
  {
    var c, d := a[1..], b[1..];
    if k :| 0 <= k <= |a| && k < |b| && a[..k] == b[..k] && (k < |a| ==> a[k] < b[k]) {
      assert k > 0;
      assert c[..k - 1] == a[..k][1..] && d[..k - 1] == b[..k][1..];
    }
    if k :| 0 <= k <= |c| && k < |d| && c[..k] == d[..k] && (k < |c| ==> c[k] < d[k]) {
      assert a[..k + 1] == [a[0]] + c[..k] && b[..k + 1] == [b[0]] + d[..k];
    }
  }

  /** Comparing None with a text is an error. */
  predicate Comparable(a: Option<string>, b: Option<string>) { a.None? == b.None? }

  predicate KeyLess(a: Option<string>, b: Option<string>) {
    a.Some? && b.Some? && TextLess(a.value, b.value)
  }

  /** Earlier availability first, then the smaller key, then the earlier place in the input. */
  predicate Before(a: Scheduled, b: Scheduled) {
    a.at < b.at || (a.at == b.at && (KeyLess(a.key, b.key) || (a.key == b.key && a.place < b.place)))
  }

  lemma {:induction false} TextTotal(a: string, b: string)
    requires !TextLess(a, b) && !TextLess(b, a)
    ensures a == b
    decreases |a|
  {
    if a != "" && b != "" {
      TextTotal(a[1..], b[1..]);
      assert a == [a[0]] + a[1..] && b == [b[0]] + b[1..];
    }
  }

  lemma {:induction false} TextTransitive(a: string, b: string, c: string)
    requires TextLess(a, b) && TextLess(b, c)
    ensures TextLess(a, c)
    decreases |a|
  {
    if a != "" && a[0] == b[0] && b[0] == c[0] { TextTransitive(a[1..], b[1..], c[1..]); }
  }

  lemma {:induction false} TextIrreflexive(a: string)
    ensures !TextLess(a, a)
  {
    if a != "" { TextIrreflexive(a[1..]); }
  }

  lemma {:induction false} TextAsymmetric(a: string, b: string)
    requires TextLess(a, b)
    ensures !TextLess(b, a)
    decreases |a|
  {
    if a != "" && a[0] == b[0] { TextAsymmetric(a[1..], b[1..]); }
  }

  lemma KeysTotal(a: Option<string>, b: Option<string>)
    requires Comparable(a, b)
    ensures KeyLess(a, b) || a == b || KeyLess(b, a)
  {
    if a.Some? && b.Some? && !TextLess(a.value, b.value) && !TextLess(b.value, a.value) { TextTotal(a.value, b.value); }
  }

  lemma KeysAsymmetric(a: Option<string>, b: Option<string>)
    requires KeyLess(a, b)
    ensures !KeyLess(b, a) && a != b
  {
    if a.Some? {
      TextAsymmetric(a.value, b.value);
      TextIrreflexive(a.value);
    }
  }

  lemma KeysTransitive(a: Option<string>, b: Option<string>, c: Option<string>)
    requires KeyLess(a, b) && KeyLess(b, c)
    ensures KeyLess(a, c)
  {
    if a.Some? { TextTransitive(a.value, b.value, c.value); }
  }

  lemma BeforeTransitive(a: Scheduled, b: Scheduled, c: Scheduled)
    requires Before(a, b) && Before(b, c)
    ensures Before(a, c)
  {
    if a.at == b.at && b.at == c.at && KeyLess(a.key, b.key) && KeyLess(b.key, c.key) {
      KeysTransitive(a.key, b.key, c.key);
    }
  }

  predicate Follows(events: seq<Scheduled>, i: nat, j: nat)
    requires i < |events| && j < |events|
  {
    Before(events[i], events[j])
  }

  predicate InOrder(events: seq<Scheduled>) {
    forall i, j :: 0 <= i < j < |events| ==> Follows(events, i, j)
  }

  predicate AllTimely(events: seq<Scheduled>, mode: Mode) {
    forall i :: 0 <= i < |events| ==> Timely(events[i], mode)
  }

  /** The two events are compared by key, and cannot be. */
  predicate Clashing(a: Scheduled, b: Scheduled) { a.at == b.at && !Comparable(a.key, b.key) }

  /** Events of one time have comparable keys. */
  predicate Homogeneous(events: seq<Scheduled>) {
    forall i, j :: 0 <= i < |events| && 0 <= j < |events| ==> !Clashing(events[i], events[j])
  }

  /** Put an event behind every event that is not after it, comparing from the end; None is the TypeError of the first
      comparison that fails. All places so far are smaller. */
  method InsertScheduled(events: seq<Scheduled>, s: Scheduled) returns (r: Option<seq<Scheduled>>)
    requires InOrder(events) && Homogeneous(events) && forall k :: 0 <= k < |events| ==> events[k].place < s.place
    ensures r.None? <==> exists k :: 0 <= k < |events| && Clashing(s, events[k])
    ensures r.Some? ==> InOrder(r.value) && Homogeneous(r.value) && multiset(r.value) == multiset(events) + multiset{s}
  {
    var i := |events|;
    while i > 0
      invariant 0 <= i <= |events|
      invariant forall k :: i <= k < |events| ==> Before(s, events[k]) && !Clashing(s, events[k])
    {
      var prior := events[i - 1];
      if prior.at < s.at { break; }
      if prior.at == s.at {
        if (s.key.None? && prior.key.Some?) || (s.key.Some? && prior.key.None?) { return None; }
        if s.key.None? || !TextLess(s.key.value, prior.key.value) { break; }
      }
      i := i - 1;
    }
    RestIsBefore(events, s, i);
    InsertedInOrder(events, s, i);
    StaysHomogeneous(events, s, i);
    r := Some(events[..i] + [s] + events[i..]);
  }

  /** Where the comparisons stop, everything further down is before the event and comparable with it. */
  lemma RestIsBefore(events: seq<Scheduled>, s: Scheduled, i: nat)
    requires InOrder(events) && Homogeneous(events) && forall k :: 0 <= k < |events| ==> events[k].place < s.place
    requires i <= |events| && (i > 0 ==> !Clashing(s, events[i - 1]))
    requires i > 0 ==> events[i - 1].at < s.at || (s.at == events[i - 1].at && !KeyLess(s.key, events[i - 1].key))
    ensures forall k :: 0 <= k < i ==> Before(events[k], s) && !Clashing(s, events[k])
  {
    if i > 0 {
      if s.at == events[i - 1].at { KeysTotal(s.key, events[i - 1].key); }
      assert Before(events[i - 1], s);
      forall k | 0 <= k < i ensures Before(events[k], s) && !Clashing(s, events[k]) {
        assert !Clashing(events[k], events[i - 1]);
        if k < i - 1 {
          assert Follows(events, k, i - 1);
          BeforeTransitive(events[k], events[i - 1], s);
        }
      }
    }
  }

  lemma StaysHomogeneous(events: seq<Scheduled>, s: Scheduled, i: nat)
    requires Homogeneous(events) && i <= |events| && forall k :: 0 <= k < |events| ==> !Clashing(s, events[k])
    ensures Homogeneous(events[..i] + [s] + events[i..])
  {
    var r := events[..i] + [s] + events[i..];
    forall k | 0 <= k < |r| ensures r[k] == s || r[k] in events {}
    forall k, l | 0 <= k < |r| && 0 <= l < |r| ensures !Clashing(r[k], r[l]) {}
  }

  lemma InsertedInOrder(events: seq<Scheduled>, s: Scheduled, i: nat)
    requires InOrder(events) && i <= |events| && forall k :: 0 <= k < i ==> Before(events[k], s)
    requires forall k :: i <= k < |events| ==> Before(s, events[k])
    ensures InOrder(events[..i] + [s] + events[i..])
    ensures multiset(events[..i] + [s] + events[i..]) == multiset(events) + multiset{s}
  {
    SameElements(events, s, i);
    var r := events[..i] + [s] + events[i..];
    forall k, l | 0 <= k < l < |r| ensures Follows(r, k, l) {
      if k != i && l != i { assert Follows(events, if k < i then k else k - 1, if l < i then l else l - 1); }
    }
  }

  lemma SameElements<T>(elements: seq<T>, x: T, i: nat)
    requires i <= |elements|
    ensures multiset(elements[..i] + [x] + elements[i..]) == multiset(elements) + multiset{x}
  {
    assert elements == elements[..i] + elements[i..];
  }

  /** The events ordered are exactly the ones scheduled, and the order leaves no choice. */
  lemma {:induction false} OrderIsUnique(a: seq<Scheduled>, b: seq<Scheduled>)
    requires InOrder(a) && InOrder(b) && multiset(a) == multiset(b)
    ensures a == b
  {
    if a == [] {
      SameSize(a, b);
    } else {
      SameSize(a, b);
      FirstIsSame(a, b);
      Tails(a, b);
      TailInOrder(a);
      TailInOrder(b);
      OrderIsUnique(a[1..], b[1..]);
      assert a == [a[0]] + a[1..] && b == [b[0]] + b[1..];
    }
  }

  lemma SameSize<T>(a: seq<T>, b: seq<T>)
    requires multiset(a) == multiset(b)
    ensures |a| == |b|
  {
    assert |multiset(a)| == |a| && |multiset(b)| == |b|;
  }

  lemma Tails<T>(a: seq<T>, b: seq<T>)
    requires a != [] && b != [] && a[0] == b[0] && multiset(a) == multiset(b)
    ensures multiset(a[1..]) == multiset(b[1..])
  {
    assert a == [a[0]] + a[1..] && b == [b[0]] + b[1..];
    assert multiset(a[1..]) == multiset(a) - multiset{a[0]} && multiset(b[1..]) == multiset(b) - multiset{b[0]};
  }

  lemma FirstIsSame(a: seq<Scheduled>, b: seq<Scheduled>)
    requires InOrder(a) && InOrder(b) && multiset(a) == multiset(b) && a != [] && b != []
    ensures a[0] == b[0]
  {
    assert a[0] in multiset(b) && b[0] in multiset(a);
    var k :| 0 <= k < |b| && b[k] == a[0];
    var l :| 0 <= l < |a| && a[l] == b[0];
    if k > 0 && l > 0 {
      assert Follows(b, 0, k) && Follows(a, 0, l);
      NotBoth(b[0], a[0]);
    }
  }

  lemma NotBoth(a: Scheduled, b: Scheduled)
    requires Before(a, b)
    ensures !Before(b, a) && a != b
  {
    if KeyLess(a.key, b.key) { KeysAsymmetric(a.key, b.key); }
    if KeyLess(b.key, a.key) { KeysAsymmetric(b.key, a.key); }
  }

  /** The first `n` events as scheduled. */
  function ScheduleAll(events: seq<Event>, mode: Mode): multiset<Scheduled> {
    if events == [] then multiset{}
    else ScheduleAll(events[..|events| - 1], mode) + multiset{Schedule(events[|events| - 1], mode, |events| - 1)}
  }

  /** Two of the first events are of one time, one with the key None and one with a text. */
  predicate Incomparable(events: seq<Event>, mode: Mode) {
    exists i, j :: 0 <= i < |events| && 0 <= j < |events|
      && Clashing(Schedule(events[i], mode, i), Schedule(events[j], mode, j))
  }

  /** When one event is posted, and as what. */
  method ScheduleEvent(e: Event, mode: Mode, place: nat) returns (s: Scheduled)
    ensures s == Schedule(e, mode, place)
  {
    var p := e.posting;
    if mode.CausalCapitalRerun? && e.knowledgeAt.None? {
      var name := p.kind;
      if e.keyed { name := if p.logicalKey.None? then "None" else p.logicalKey.value; }
      var key := Some(name + ":unknown-knowledge");
      p := p.(logicalKey := key, unavailable := p.unavailable || !e.reasoned, written := "0",
              amounts := Amounts(0.0, 0.0, 0.0, 0.0, 0.0, 0.0));
      return Scheduled(p, p.occurredAt, key, place, e);
    }
    var at := p.occurredAt;
    if mode.CausalCapitalRerun? && e.knowledgeAt.value > at { at := e.knowledgeAt.value; }
    s := Scheduled(p.(occurredAt := at), at, if e.keyed then p.logicalKey else Some(""), place, e);
  }

  /** Schedule every event and sort by the time it becomes available; None is the TypeError of the sort. */
  method PrepareAccountingEvents(events: seq<Event>, mode: Mode) returns (prepared: Option<seq<Scheduled>>)
    ensures prepared.None? <==> Incomparable(events, mode)
    ensures prepared.Some? ==> InOrder(prepared.value) && AllTimely(prepared.value, mode)
    ensures prepared.Some? ==> multiset(prepared.value) == ScheduleAll(events, mode)
  {
    var sorted: seq<Scheduled> := [];
    for i := 0 to |events|
      invariant InOrder(sorted) && Homogeneous(sorted) && multiset(sorted) == ScheduleAll(events[..i], mode)
      invariant forall k :: 0 <= k < |sorted| ==> sorted[k].place < i
    {
      assert events[..i + 1][..i] == events[..i];
      var scheduled := ScheduleEvent(events[i], mode, i);
      var more := InsertScheduled(sorted, scheduled);
      if more.None? {
        ClashIsIncomparable(events, mode, sorted, i);
        return None;
      }
      sorted := more.value;
      AllScheduled(sorted, events[..i + 1], mode);
    }
    assert events[..|events|] == events;
    AllScheduled(sorted, events, mode);
    HomogeneousIsComparable(events, mode, sorted);
    prepared := Some(sorted);
  }

  lemma ClashIsIncomparable(events: seq<Event>, mode: Mode, sorted: seq<Scheduled>, i: nat)
    requires i < |events| && multiset(sorted) == ScheduleAll(events[..i], mode)
    requires exists k :: 0 <= k < |sorted| && Clashing(Schedule(events[i], mode, i), sorted[k])
    ensures Incomparable(events, mode)
  {
    var k :| 0 <= k < |sorted| && Clashing(Schedule(events[i], mode, i), sorted[k]);
    assert sorted[k] in multiset(sorted);
    ScheduledIsThere(events[..i], mode, sorted[k]);
    assert events[..i][sorted[k].place] == events[sorted[k].place];
  }

  lemma HomogeneousIsComparable(events: seq<Event>, mode: Mode, sorted: seq<Scheduled>)
    requires multiset(sorted) == ScheduleAll(events, mode) && Homogeneous(sorted)
    ensures !Incomparable(events, mode)
  {
    forall i, j | 0 <= i < |events| && 0 <= j < |events|
      ensures !Clashing(Schedule(events[i], mode, i), Schedule(events[j], mode, j))
    {
      EventIsScheduled(events, mode, i);
      EventIsScheduled(events, mode, j);
      assert Schedule(events[i], mode, i) in sorted && Schedule(events[j], mode, j) in sorted;
    }
  }

  /** What is scheduled is the event at its place. */
  lemma {:induction false} ScheduledIsThere(events: seq<Event>, mode: Mode, s: Scheduled)
    requires s in ScheduleAll(events, mode)
    ensures s.place < |events| && s == Schedule(events[s.place], mode, s.place)
  {
    if s != Schedule(events[|events| - 1], mode, |events| - 1) { ScheduledIsThere(events[..|events| - 1], mode, s); }
  }

  /** And every event is. */
  lemma {:induction false} EventIsScheduled(events: seq<Event>, mode: Mode, i: nat)
    requires i < |events|
    ensures Schedule(events[i], mode, i) in ScheduleAll(events, mode)
  {
    if i < |events| - 1 { EventIsScheduled(events[..|events| - 1], mode, i); }
  }

  lemma AllScheduled(sorted: seq<Scheduled>, events: seq<Event>, mode: Mode)
    requires multiset(sorted) == ScheduleAll(events, mode)
    ensures AllTimely(sorted, mode) && forall k :: 0 <= k < |sorted| ==> sorted[k].place < |events|
  {
    forall k | 0 <= k < |sorted| ensures Timely(sorted[k], mode) && sorted[k].place < |events| {
      assert sorted[k] in multiset(sorted);
      ScheduledIsThere(events, mode, sorted[k]);
    }
  }

  function Postings(events: seq<Scheduled>): (r: seq<Posting>)
    ensures |r| == |events| && forall i :: 0 <= i < |r| ==> r[i] == events[i].posting
  {
    seq(|events|, i requires 0 <= i < |events| => events[i].posting)
  }

  /** The ledger holds what was applied, and the overlay is what its rows add up to. */
  ghost predicate Tracks(applied: seq<Scheduled>, book: Book, overlay: Overlay, gaps: nat) {
    book == RecordAll(Postings(applied)) && Running(book.rows, gaps) == Ok(overlay)
  }

  lemma FirstTaken(pending: seq<Scheduled>, applied: seq<Scheduled>, mode: Mode)
    requires pending != [] && InOrder(pending) && AllTimely(pending, mode) && AllTimely(applied, mode)
    ensures InOrder(pending[1..]) && AllTimely(pending[1..], mode) && AllTimely(applied + [pending[0]], mode)
  {
    TailInOrder(pending);
  }

  lemma TailInOrder(events: seq<Scheduled>)
    requires events != [] && InOrder(events)
    ensures InOrder(events[1..])
  {
    var rest := events[1..];
    forall i, j | 0 <= i < j < |rest| ensures Follows(rest, i, j) { assert Follows(events, i + 1, j + 1); }
  }

  predicate AllDue(events: seq<Scheduled>, through: int) {
    forall i :: 0 <= i < |events| ==> events[i].at <= through
  }

  predicate NoneDue(events: seq<Scheduled>, through: int) {
    forall i :: 0 <= i < |events| ==> events[i].at > through
  }

  lemma FirstDecides(events: seq<Scheduled>, through: int)
    requires InOrder(events) && (events != [] ==> events[0].at > through)
    ensures NoneDue(events, through)
  {
    forall i | 0 <= i < |events| ensures events[i].at > through {
      if i > 0 { assert Follows(events, 0, i); }
    }
  }

  lemma TracksOneMore(applied: seq<Scheduled>, event: Scheduled, book: Book, overlay: Overlay, gaps: nat)
    requires Tracks(applied, book, overlay, gaps)
    ensures var moved :=
        if Recorded(book, event.posting).1.Inserted? then Applied(overlay, event.posting) else Ok(overlay);
      moved.Ok? ==> Tracks(applied + [event], Recorded(book, event.posting).0, moved.value, gaps)
  {
    PostingsMore(applied, event);
    RecordedNext(Postings(applied), event.posting);
    OverlayNext(book, event.posting, overlay, gaps);
  }

  lemma PostingsMore(applied: seq<Scheduled>, event: Scheduled)
    ensures Postings(applied + [event]) == Postings(applied) + [event.posting]
  {}

  lemma OverlayNext(book: Book, p: Posting, overlay: Overlay, gaps: nat)
    requires Running(book.rows, gaps) == Ok(overlay)
    ensures var moved := if Recorded(book, p).1.Inserted? then Applied(overlay, p) else Ok(overlay);
      moved.Ok? ==> Running(Recorded(book, p).0.rows, gaps) == moved
  {
    if Match(book.rows, p).None? { RunningNext(book.rows, p, gaps); }
  }

  lemma RunningNext(rows: seq<Posting>, p: Posting, gaps: nat)
    requires Running(rows, gaps).Ok?
    ensures Running(rows + [p], gaps) == Applied(Running(rows, gaps).value, p)
  {
    Front(rows, p);
  }

  lemma MoreDue(applied: seq<Scheduled>, event: Scheduled, n: nat, through: int)
    requires n <= |applied| && AllDue(applied[n..], through) && event.at <= through
    ensures AllDue((applied + [event])[n..], through)
  {
    assert (applied + [event])[n..] == applied[n..] + [event];
  }

  lemma Front<T>(s: seq<T>, x: T)
    ensures (s + [x])[..|s + [x]| - 1] == s && (s + [x])[|s + [x]| - 1] == x
  {}

  /** The replay's accounting side: the ledger, the broker it funds, and what is not available yet. */
  class AccountingRun {
    const store: LedgerStore
    const broker: PaperBroker
    const mode: Mode
    /** Coverage gaps known before the first event. */
    const gaps: nat
    var pending: seq<Scheduled>
    ghost var applied: seq<Scheduled>

    ghost predicate Valid()
      reads this, store, broker
    {
      && InOrder(pending) && AllTimely(pending, mode) && AllTimely(applied, mode)
      && Tracks(applied, store.book, Overlay(broker.overlay, broker.unavailable), gaps)
    }

    /** A run over events already prepared. */
    constructor (prepared: seq<Scheduled>, accountingMode: Mode, knownGaps: nat, b: PaperBroker, ledger: LedgerStore)
      requires b.overlay == ZERO && b.unavailable == knownGaps && ledger.book == Book([], {})
      requires InOrder(prepared) && AllTimely(prepared, accountingMode)
      ensures Valid() && broker == b && store == ledger && mode == accountingMode && gaps == knownGaps
      ensures applied == [] && pending == prepared
    {
      store, broker, mode, gaps := ledger, b, accountingMode, knownGaps;
      applied, pending := [], prepared;
    }

    /** Post everything available through a boundary, in order and once; false is an account driven negative, which
        stops the replay. */
    method ApplyAccountingEvents(through: int) returns (ok: bool)
      requires Valid()
      modifies this, store, broker`overlay, broker`unavailable, broker`blocked
      ensures applied + pending == old(applied + pending) && |applied| >= |old(applied)|
      ensures AllDue(applied[|old(applied)|..], through)
      ensures ok ==> Valid() && NoneDue(pending, through)
    {
      ok := true;
      ghost var n := |applied|;
      while pending != [] && pending[0].at <= through
        invariant Valid() && n <= |applied| && applied + pending == old(applied + pending)
        invariant AllDue(applied[n..], through)
        decreases |pending|
      {
        MoreDue(applied, pending[0], n, through);
        ok := ApplyFirst();
        if !ok { return; }
      }
      FirstDecides(pending, through);
    }

    method ApplyFirst() returns (ok: bool)
      requires Valid() && pending != []
      modifies this, store, broker`overlay, broker`unavailable, broker`blocked
      ensures applied == old(applied) + [old(pending)[0]] && pending == old(pending)[1..]
      ensures applied + pending == old(applied + pending)
      ensures ok ==> Valid()
    {
      var event := pending[0];
      FirstTaken(pending, applied, mode);
      FirstMoves(applied, pending);
      pending := pending[1..];
      TracksOneMore(applied, event, store.book, Overlay(broker.overlay, broker.unavailable), gaps);
      applied := applied + [event];
      ok := Post(event.posting);
    }

    /** Record a posting; only one the ledger inserted reaches the broker. */
    method Post(p: Posting) returns (ok: bool)
      modifies store, broker`overlay, broker`unavailable, broker`blocked
      ensures store.book == Recorded(old(store.book), p).0
      ensures var before := Overlay(old(broker.overlay), old(broker.unavailable));
        var moved := if Recorded(old(store.book), p).1.Inserted? then Applied(before, p) else Ok(before);
        && (ok <==> moved.Ok?)
        && (ok ==> Overlay(broker.overlay, broker.unavailable) == moved.value)
    {
      var status := store.RecordCashflowPosting(p);
      ok := true;
      if status.Inserted? { ok := broker.ApplyAccountingPosting(p); }
    }

    /** A second broker restored from the ledger summary; the overlays agree exactly when the postings skipped add up to
        nothing, so they do when every event that was applied without value carried none. */
    method RestoreInto(restored: PaperBroker) returns (ok: bool)
      requires Valid() && restored != broker
      modifies restored
      ensures Valid()
      ensures (ok && restored.overlay == broker.overlay && restored.unavailable == broker.unavailable)
        <==> SkippedBalances(store.book.rows) == ZERO
      ensures AllWorthless(applied) ==>
        ok && restored.overlay == broker.overlay && restored.unavailable == broker.unavailable
    {
      hide SkippedBalances, Balances, UnavailableCount, AllWorthless, AllTimely, InOrder, Tracks;
      RestoringDecides(applied, store.book, Overlay(broker.overlay, broker.unavailable), gaps);
      var balances, count := store.CashflowSummary(gaps);
      ok := restored.RestoreAccountingState(balances, count);
    }
  }

  /** Marked unavailable, a posting carries nothing. */
  predicate Worthless(p: Posting) { p.unavailable ==> p.amounts == ZERO }

  /** If no posting marked unavailable carries amounts, nothing is skipped that the ledger sums. */
  lemma {:induction false} WorthlessWhenUnavailable(rows: seq<Posting>)
    requires forall i :: 0 <= i < |rows| ==> Worthless(rows[i])
    ensures SkippedBalances(rows) == ZERO
  {
    if rows == [] {
    } else {
      var front, last := rows[..|rows| - 1], rows[|rows| - 1];
      WorthlessWhenUnavailable(front);
      assert Worthless(last);
      AddingNothing(SkippedBalances(front), last.amounts);
    }
  }

  lemma AddingNothing(a: Amounts, b: Amounts)
    requires a == ZERO
    ensures b == ZERO ==> a.Plus(b) == ZERO
  {}

  lemma RestoringDecides(applied: seq<Scheduled>, book: Book, overlay: Overlay, gaps: nat)
    requires Tracks(applied, book, overlay, gaps)
    ensures Restored(Balances(book.rows), UnavailableCount(book.rows) + gaps) == Ok(overlay)
      <==> SkippedBalances(book.rows) == ZERO
    ensures AllWorthless(applied) ==> SkippedBalances(book.rows) == ZERO
  {
    OverlayAgreesExactly(book.rows, gaps);
    if AllWorthless(applied) { AppliedWorthless(applied, book, overlay, gaps); }
  }

  predicate AllWorthless(applied: seq<Scheduled>) {
    forall i :: 0 <= i < |applied| ==> Worthless(applied[i].posting)
  }

  lemma {:induction false} AppliedWorthless(applied: seq<Scheduled>, book: Book, overlay: Overlay, gaps: nat)
    requires Tracks(applied, book, overlay, gaps) && AllWorthless(applied)
    ensures SkippedBalances(book.rows) == ZERO
  {
    var stream := Postings(applied);
    forall k | 0 <= k < |book.rows| ensures Worthless(book.rows[k]) {
      RowsAreSupplied(stream, k);
      var i :| 0 <= i < |stream| && stream[i] == book.rows[k];
      assert Worthless(applied[i].posting);
    }
    WorthlessWhenUnavailable(book.rows);
  }

  // --- events nobody knows the knowledge time of ---

  /** Scheduled without a knowledge time in causal mode. */
  predicate Blocking(s: Scheduled) {
    s.origin.knowledgeAt.None? && s == Schedule(s.origin, CausalCapitalRerun, s.place)
  }

  lemma BlockingKey(s: Scheduled)
    requires Blocking(s)
    ensures s.posting.logicalKey == Some(Label(s.origin) + UNKNOWN)
      && KeyOf(s.posting) == Given(Label(s.origin) + UNKNOWN)
  {
    assert |Label(s.origin) + UNKNOWN| > 0;
  }

  lemma SameSuffix(a: string, b: string, suffix: string)
    ensures a + suffix == b + suffix <==> a == b
  {
    if a + suffix == b + suffix { assert a == (a + suffix)[..|a|] && b == (b + suffix)[..|b|]; }
  }

  /** Two such events get one key exactly when they have one label: the logical key if they were built with the entry
      ("None" if it is empty), else the kind. The second is inserted exactly if neither its label nor its payment is
      taken, is a duplicate if it is the same posting or a matching payment, and is quarantined otherwise; only an
      inserted one is counted. */
  lemma {:induction false} UnknownKnowledgeCollides(a: Scheduled, b: Scheduled)
    requires Blocking(a) && Blocking(b)
    ensures KeyOf(a.posting) == KeyOf(b.posting) <==> Label(a.origin) == Label(b.origin)
    ensures var p, q := a.posting, b.posting;
      var (book, status) := Recorded(RecordAll([p]), q);
      && (status.Inserted? <==> Label(a.origin) != Label(b.origin) && !(q.payment.Some? && p.payment == q.payment))
      && (!status.Inserted? ==> (status.Duplicate? <==> p == q || (q.payment.Some? && PaymentMatches(p, q))))
      && UnavailableCount(book.rows)
         == (if p.unavailable then 1 else 0) + if status.Inserted? && q.unavailable then 1 else 0
  {
    BlockingKey(a);
    BlockingKey(b);
    SameSuffix(Label(a.origin), Label(b.origin), UNKNOWN);
    OneRow(a.posting);
    MatchOne(a.posting, b.posting);
    CountOne(a.posting, b.posting);
  }

  lemma OneRow(p: Posting)
    ensures RecordAll([p]) == Book([p], {})
  {
    assert [p][..0] == [] && RecordAll([]) == Book([], {}) && [] + [p] == [p];
    assert Match([], p).None?;
  }

  lemma MatchOne(p: Posting, q: Posting)
    ensures Match([p], q) == if Same(p, q) then Some(0) else None
  {
    MatchIsSame([p], q);
    if Same(p, q) { assert Same([p][0], q); }
  }

  lemma CountOne(p: Posting, q: Posting)
    ensures UnavailableCount([p]) == if p.unavailable then 1 else 0
    ensures UnavailableCount([p] + [q]) == (if p.unavailable then 1 else 0) + if q.unavailable then 1 else 0
  {
    assert [p][..0] == [] && ([p] + [q])[..1] == [p];
  }

  /** The labels of the first `n` events without a knowledge time. */
  function Labels(events: seq<Scheduled>, n: nat): set<string>
    requires n <= |events|
  {
    if n == 0 then {}
    else Labels(events, n - 1) + if events[n - 1].origin.knowledgeAt.None? then {Label(events[n - 1].origin)} else {}
  }

  /** An event without a knowledge time blocks, as it does unless it brought an empty reason; any other is available
      and has a key of its own. */
  predicate Apart(events: seq<Scheduled>, i: nat)
    requires i < |events|
  {
    if events[i].origin.knowledgeAt.None? then Blocking(events[i]) && events[i].posting.unavailable
    else
      && !events[i].posting.unavailable
      && forall j {:trigger OtherKey(events[i].posting, events[j].posting)} ::
           0 <= j < |events| && events[j].origin.knowledgeAt.None? ==> OtherKey(events[i].posting, events[j].posting)
  }

  predicate OtherKey(p: Posting, q: Posting) { KeyOf(p) != KeyOf(q) }

  predicate AllApart(events: seq<Scheduled>) { forall i :: 0 <= i < |events| ==> Apart(events, i) }

  lemma CountNext(rows: seq<Posting>, p: Posting)
    ensures UnavailableCount(rows + [p]) == UnavailableCount(rows) + if p.unavailable then 1 else 0
  {
    assert (rows + [p])[..|rows|] == rows;
  }

  lemma {:induction false} LabelsAre(events: seq<Scheduled>, n: nat, text: string)
    requires n <= |events|
    ensures text in Labels(events, n) <==>
      exists i :: 0 <= i < n && events[i].origin.knowledgeAt.None? && Label(events[i].origin) == text
  {
    if n == 0 {
    } else {
      LabelsAre(events, n - 1, text);
    }
  }

  /** The key of an event without a knowledge time is taken exactly when its label is. */
  lemma {:induction false} LabelTaken(events: seq<Scheduled>, n: nat)
    requires n < |events| && Blocking(events[n]) && AllApart(events)
    ensures KeyTaken(Postings(events), n) <==> Label(events[n].origin) in Labels(events, n)
  {
    var stream := Postings(events);
    LabelsAre(events, n, Label(events[n].origin));
    BlockingKey(events[n]);
    forall i | 0 <= i < n
      ensures KeyOf(stream[i]) == KeyOf(stream[n])
        <==> events[i].origin.knowledgeAt.None? && Label(events[i].origin) == Label(events[n].origin)
    {
      assert Apart(events, i);
      if Blocking(events[i]) {
        BlockingKey(events[i]);
        SameSuffix(Label(events[i].origin), Label(events[n].origin), UNKNOWN);
      } else {
        assert OtherKey(events[i].posting, events[n].posting);
      }
    }
  }

  /** One more event is one more counted exactly if it is one more label. */
  ghost predicate CountsNext(events: seq<Scheduled>, n: nat)
    requires n < |events|
  {
    UnavailableCount(Uncovered(Postings(events), n + 1)) - UnavailableCount(Uncovered(Postings(events), n))
      == |Labels(events, n + 1)| - |Labels(events, n)|
  }

  lemma {:induction false} CountedNext(events: seq<Scheduled>, n: nat)
    requires n < |events| && PaymentsKeyed(Postings(events)) && AllApart(events)
    ensures CountsNext(events, n)
  {
    var stream := Postings(events);
    assert Apart(events, n);
    CoveredIsTaken(stream, n);
    if Blocking(events[n]) { LabelTaken(events, n); }
    UncoveredNext(stream, n);
    LabelsNext(events, n);
    CountNext(Uncovered(stream, n), stream[n]);
  }

  lemma LabelsNext(events: seq<Scheduled>, n: nat)
    requires n < |events|
    ensures var e := events[n].origin;
      |Labels(events, n + 1)| - |Labels(events, n)| ==
        if e.knowledgeAt.None? && Label(e) !in Labels(events, n) then 1 else 0
  {
    var before := Labels(events, n);
    if events[n].origin.knowledgeAt.None? {
      assert Labels(events, n + 1) == before + {Label(events[n].origin)};
      if Label(events[n].origin) in before { assert Labels(events, n + 1) == before; }
    } else {
      assert Labels(events, n + 1) == before;
    }
  }

  lemma UncoveredNext(stream: seq<Posting>, n: nat)
    requires n < |stream|
    ensures Uncovered(stream, n + 1) ==
      if Covered(stream, n) then Uncovered(stream, n) else Uncovered(stream, n) + [stream[n]]
  {}

  lemma {:induction false} CountedByLabel(events: seq<Scheduled>, n: nat)
    requires n <= |events| && PaymentsKeyed(Postings(events)) && AllApart(events)
    ensures CountsSoFar(events, n)
  {
    if n == 0 {
      NoCounts(events);
    } else {
      CountedByLabel(events, n - 1);
      CountedNext(events, n - 1);
      OneMoreCount(events, n - 1);
    }
  }

  lemma NoCounts(events: seq<Scheduled>)
    ensures CountsSoFar(events, 0)
  {}

  ghost predicate CountsSoFar(events: seq<Scheduled>, n: nat)
    requires n <= |events|
  {
    UnavailableCount(Uncovered(Postings(events), n)) == |Labels(events, n)|
  }

  lemma OneMoreCount(events: seq<Scheduled>, n: nat)
    requires n < |events| && CountsSoFar(events, n) && CountsNext(events, n)
    ensures CountsSoFar(events, n + 1)
  {}

  /** In a causal replay where payments do not cross keys, nothing else posts under the key of an event without a
      knowledge time and nothing else is unavailable, the summary counts as many events as such events have labels. */
  lemma {:induction false} UnknownsAreCountedByLabel(events: seq<Scheduled>, stream: seq<Posting>)
    requires stream == Postings(events) && PaymentsKeyed(stream) && AllApart(events)
    ensures UnavailableCount(RecordAll(stream).rows) == |Labels(events, |events|)|
  {
    CountedByLabel(events, |events|);
    UncoveredAreCounted(stream, |Labels(events, |events|)|);
  }
}
