/** The accounting ledger of one scope: postings recorded once, conflicts kept aside, balances summed. Cents. */
module Ledger {
  import opened Common

  /** The six balance components of a posting, in cents. */
  datatype Amounts = Amounts(cash: real, receivable: real, payable: real, borrow: real, refund: real, repayment: real) {
    function Plus(o: Amounts): Amounts {
      Amounts(cash + o.cash, receivable + o.receivable, payable + o.payable, borrow + o.borrow,
              refund + o.refund, repayment + o.repayment)
    }

    /** No balance account is negative; cash may be. */
    predicate Sound() { receivable >= 0.0 && payable >= 0.0 && borrow >= 0.0 && refund >= 0.0 && repayment >= 0.0 }

    /** Position of the first negative balance account in writing order; 6 if there is none. */
    function FirstNegative(): nat {
      if receivable < 0.0 then 1 else if payable < 0.0 then 2 else if borrow < 0.0 then 3 else if refund < 0.0 then 4
      else if repayment < 0.0 then 5 else 6
    }

    /** The first `n` accounts as they are here, the others as they were. */
    function Over(was: Amounts, n: nat): Amounts {
      Amounts(if n > 0 then cash else was.cash, if n > 1 then receivable else was.receivable,
              if n > 2 then payable else was.payable, if n > 3 then borrow else was.borrow,
              if n > 4 then refund else was.refund, if n > 5 then repayment else was.repayment)
    }
  }

  const ZERO := Amounts(0.0, 0.0, 0.0, 0.0, 0.0, 0.0)

  /** Equity of a set of balances: cash and what is owed to us, less what we owe. */
  function Worth(a: Amounts): real { a.cash + a.receivable + a.refund - a.payable - a.borrow - a.repayment }

  /** A posting as handed to the ledger. `written` is how the amounts are written as canonical decimal text, which
      keeps trailing zeros; `evidence` stands for whatever else the payload says. */
  datatype Posting = Posting(
    logicalKey: Option<string>, kind: string, occurredAt: int,
    action: Option<string>, revision: Option<string>, allocation: Option<string>,
    chargeKey: Option<string>, accrual: Option<string>, payment: Option<string>,
    unavailable: bool, amounts: Amounts, written: string, evidence: nat)

  /** The immutable identity of a posting; hashing is injective. */
  datatype Key =
    | Given(text: string)
    | ByPayment(kind: string, payment: string)
    | ByIdentity(kind: string, action: Option<string>, revision: Option<string>, allocation: Option<string>,
                 chargeKey: Option<string>, accrual: Option<string>, accruedAt: Option<int>)

  function EndsWith(text: string, suffix: string): bool {
    |suffix| <= |text| && text[|text| - |suffix|..] == suffix
  }

  /** A payment id is an identity of its own; accruals include revision, allocation and, if nothing better is
      given, their occurrence. */
  function StableKey(p: Posting): Key {
    var accrual := if p.accrual == Some("") then None else p.accrual;
    if p.payment.Some? && p.payment.value != "" then ByPayment(p.kind, p.payment.value)
    else ByIdentity(p.kind, p.action, p.revision, p.allocation, p.chargeKey, accrual,
                    if accrual.None? && EndsWith(p.kind, "accrual") then Some(p.occurredAt) else None)
  }

  function KeyOf(p: Posting): Key {
    if p.logicalKey.Some? && p.logicalKey.value != "" then Given(p.logicalKey.value) else StableKey(p)
  }

  datatype Status = Inserted | Duplicate | Conflict

  /** A conflicting payload under an existing row. */
  datatype Clash = Clash(key: Key, existing: Posting, incoming: Posting)

  datatype Book = Book(rows: seq<Posting>, clashes: set<Clash>)

  /** A contradiction is kept once per key and incoming payload, whatever row it ran into. */
  function Quarantined(clashes: set<Clash>, clash: Clash): set<Clash> {
    if exists c :: c in clashes && c.key == clash.key && c.incoming == clash.incoming then clashes
    else clashes + {clash}
  }

  /** Revision metadata may differ between two sightings of a payment; its cash and balances, and how they are
      written, may not: 1.0 and 1.00 do not match. */
  predicate PaymentMatches(existing: Posting, p: Posting) {
    && existing.payment == p.payment && existing.kind == p.kind && existing.occurredAt == p.occurredAt
    && existing.action == p.action && existing.allocation == p.allocation
    && existing.amounts == p.amounts && existing.written == p.written
  }

  function FindKey(rows: seq<Posting>, key: Key): (r: Option<nat>)
    ensures r.Some? ==> r.value < |rows| && KeyOf(rows[r.value]) == key
    ensures r.None? ==> forall i :: 0 <= i < |rows| ==> KeyOf(rows[i]) != key
  {
    if rows == [] then None
    else
      var front := FindKey(rows[..|rows| - 1], key);
      if front.Some? then front else if KeyOf(rows[|rows| - 1]) == key then Some(|rows| - 1) else None
  }

  function FindPayment(rows: seq<Posting>, payment: string): (r: Option<nat>)
    ensures r.Some? ==> r.value < |rows| && rows[r.value].payment == Some(payment)
    ensures r.None? ==> forall i :: 0 <= i < |rows| ==> rows[i].payment != Some(payment)
  {
    if rows == [] then None
    else
      var front := FindPayment(rows[..|rows| - 1], payment);
      if front.Some? then front else if rows[|rows| - 1].payment == Some(payment) then Some(|rows| - 1) else None
  }

  /** The row an incoming posting runs into: the one with its key, else the one with its payment. */
  function Match(rows: seq<Posting>, p: Posting): (r: Option<nat>)
    ensures r.Some? ==> r.value < |rows|
  {
    var byKey := FindKey(rows, KeyOf(p));
    if byKey.Some? then byKey
    else if p.payment.Some? then FindPayment(rows, p.payment.value) else None
  }

  /** Append once, answer a repeat, quarantine a contradiction. */
  function Recorded(book: Book, p: Posting): (Book, Status) {
    match Match(book.rows, p)
    case None => (book.(rows := book.rows + [p]), Inserted)
    case Some(i) =>
      var existing := book.rows[i];
      if existing == p || (p.payment.Some? && PaymentMatches(existing, p)) then (book, Duplicate)
      else (book.(clashes := Quarantined(book.clashes, Clash(KeyOf(p), existing, p))), Conflict)
  }

  function Balances(rows: seq<Posting>): Amounts {
    if rows == [] then ZERO else Balances(rows[..|rows| - 1]).Plus(rows[|rows| - 1].amounts)
  }

  function UnavailableCount(rows: seq<Posting>): nat {
    if rows == [] then 0 else UnavailableCount(rows[..|rows| - 1]) + if rows[|rows| - 1].unavailable then 1 else 0
  }

  method KeyFor(p: Posting) returns (key: Key)
    ensures key == KeyOf(p)
  {
    if p.logicalKey.Some? && |p.logicalKey.value| > 0 { return Given(p.logicalKey.value); }
    if p.payment.Some? && |p.payment.value| > 0 { return ByPayment(p.kind, p.payment.value); }
    var accrual, at := p.accrual, None;
    if accrual.Some? && |accrual.value| == 0 { accrual := None; }
    if accrual.None? && |p.kind| >= 7 && p.kind[|p.kind| - 7..] == "accrual" { at := Some(p.occurredAt); }
    key := ByIdentity(p.kind, p.action, p.revision, p.allocation, p.chargeKey, accrual, at);
  }

  method Add(a: Amounts, b: Amounts) returns (sum: Amounts)
    ensures sum == a.Plus(b)
  {
    sum := Amounts(a.cash + b.cash, a.receivable + b.receivable, a.payable + b.payable, a.borrow + b.borrow,
                   a.refund + b.refund, a.repayment + b.repayment);
  }

  method SamePayment(existing: Posting, p: Posting) returns (same: bool)
    ensures same == PaymentMatches(existing, p)
  {
    if existing.payment != p.payment || existing.kind != p.kind || existing.action != p.action { return false; }
    if existing.occurredAt != p.occurredAt || existing.allocation != p.allocation { return false; }
    same := existing.written == p.written && existing.amounts == p.amounts;
  }

  class LedgerStore {
    var book: Book

    constructor ()
      ensures book == Book([], {})
    {
      book := Book([], {});
    }

    method RecordCashflowPosting(p: Posting) returns (status: Status)
      modifies this
      ensures (book, status) == Recorded(old(book), p)
    {
      var rows := book.rows;
      var key := KeyFor(p);
      var existing := SelectByKey(rows, key);
      if existing.Some? {
        if rows[existing.value] == p { return Duplicate; }
        var repeated := SamePayment(rows[existing.value], p);
        if p.payment.Some? && repeated { return Duplicate; }
        Quarantine(Clash(key, rows[existing.value], p));
        return Conflict;
      }
      if p.payment.Some? {
        var payment := SelectByPayment(rows, p.payment.value);
        if payment.Some? {
          PaymentIdentifies(rows, payment.value, p);
          var repeated := SamePayment(rows[payment.value], p);
          if repeated { return Duplicate; }
          Quarantine(Clash(key, rows[payment.value], p));
          return Conflict;
        }
      }
      book := book.(rows := rows + [p]);
      status := Inserted;
    }

    method Quarantine(clash: Clash)
      modifies this
      ensures book == old(book).(clashes := Quarantined(old(book.clashes), clash))
    {
      var known := set c | c in book.clashes && c.incoming == clash.incoming && c.key == clash.key;
      if known == {} {
        assert forall c :: c in book.clashes && c.key == clash.key && c.incoming == clash.incoming ==> c in known;
        book := book.(clashes := book.clashes + {clash});
      } else {
        assert exists c :: c in known;
      }
    }

    method SelectByKey(rows: seq<Posting>, key: Key) returns (row: Option<nat>)
      ensures row == FindKey(rows, key)
    {
      row := None;
      for i := 0 to |rows|
        invariant row == FindKey(rows[..i], key)
      {
        assert rows[..i + 1][..i] == rows[..i];
        var stored := KeyFor(rows[i]);
        if row.None? && stored == key { row := Some(i); }
      }
      assert rows[..|rows|] == rows;
    }

    method SelectByPayment(rows: seq<Posting>, payment: string) returns (row: Option<nat>)
      ensures row == FindPayment(rows, payment)
    {
      row := None;
      for i := 0 to |rows|
        invariant row == FindPayment(rows[..i], payment)
      {
        assert rows[..i + 1][..i] == rows[..i];
        if row.None? && rows[i].payment == Some(payment) { row := Some(i); }
      }
      assert rows[..|rows|] == rows;
    }

    /** Exact balances over all rows, and how many were unavailable. */
    method CashflowSummary(coverageGaps: nat) returns (balances: Amounts, unavailable: nat)
      ensures balances == Balances(book.rows) && unavailable == UnavailableCount(book.rows) + coverageGaps
    {
      var rows := book.rows;
      balances, unavailable := ZERO, 0;
      for i := 0 to |rows|
        invariant balances == Balances(rows[..i]) && unavailable == UnavailableCount(rows[..i])
      {
        assert rows[..i + 1][..i] == rows[..i];
        balances := Add(balances, rows[i].amounts);
        if rows[i].unavailable { unavailable := unavailable + 1; }
      }
      assert rows[..|rows|] == rows;
      unavailable := unavailable + coverageGaps;
    }
  }

  /** Where only the payment id agrees the two postings differ, so an equal one was already answered by its key. */
  lemma PaymentIdentifies(rows: seq<Posting>, i: nat, p: Posting)
    requires i < |rows| && FindKey(rows, KeyOf(p)).None?
    ensures rows[i] != p
  {}

  // --- what the ledger promises ---

  predicate KeysUnique(rows: seq<Posting>) {
    forall i, j :: 0 <= i < j < |rows| ==> KeyOf(rows[i]) != KeyOf(rows[j])
  }

  predicate PaymentsUnique(rows: seq<Posting>) {
    forall i, j :: 0 <= i < j < |rows| && rows[i].payment.Some? ==> rows[i].payment != rows[j].payment
  }

  /** The book after any stream of postings. */
  function RecordAll(stream: seq<Posting>): Book {
    if stream == [] then Book([], {}) else Recorded(RecordAll(stream[..|stream| - 1]), stream[|stream| - 1]).0
  }

  lemma RecordedNext(stream: seq<Posting>, p: Posting)
    ensures RecordAll(stream + [p]) == Recorded(RecordAll(stream), p).0
  {
    assert (stream + [p])[..|stream|] == stream;
  }

  /** For any stream with repeats and contradictions every logical key and every payment id is posted at most once. */
  lemma {:induction false} PostedAtMostOnce(stream: seq<Posting>)
    ensures KeysUnique(RecordAll(stream).rows) && PaymentsUnique(RecordAll(stream).rows)
  {
    if stream == [] {
    } else {
      PostedAtMostOnce(stream[..|stream| - 1]);
      RecordingKeepsUnique(RecordAll(stream[..|stream| - 1]), stream[|stream| - 1]);
    }
  }

  lemma RecordingKeepsUnique(book: Book, p: Posting)
    requires KeysUnique(book.rows) && PaymentsUnique(book.rows)
    ensures KeysUnique(Recorded(book, p).0.rows) && PaymentsUnique(Recorded(book, p).0.rows)
  {}

  /** The ledger has a row for `p`: by its key, or by its payment. */
  predicate Known(rows: seq<Posting>, p: Posting) { Match(rows, p).Some? }

  lemma RecordingMakesKnown(book: Book, p: Posting)
    ensures Known(Recorded(book, p).0.rows, p)
  {
    if Match(book.rows, p).None? {
      var rows := Recorded(book, p).0.rows;
      assert rows[|book.rows|] == p;
      assert FindKey(rows, KeyOf(p)).Some?;
    }
  }

  /** What a posting of the stream became: a row, a repeat of a payment already posted, or a quarantined
      contradiction. */
  predicate Accounted(book: Book, p: Posting) {
    || p in book.rows
    || (exists i :: 0 <= i < |book.rows| && p.payment.Some? && PaymentMatches(book.rows[i], p))
    || exists c :: c in book.clashes && c.key == KeyOf(p) && c.incoming == p
  }

  lemma RecordingAccounts(book: Book, p: Posting)
    ensures Accounted(Recorded(book, p).0, p)
  {
    var after := Recorded(book, p).0;
    var m := Match(book.rows, p);
    if m.None? {
      assert after.rows[|book.rows|] == p;
    } else if book.rows[m.value] != p && !(p.payment.Some? && PaymentMatches(book.rows[m.value], p)) {
      if !(exists c :: c in book.clashes && c.key == KeyOf(p) && c.incoming == p) {
        assert Clash(KeyOf(p), book.rows[m.value], p) in after.clashes;
      }
    }
  }

  lemma RecordingAdds(book: Book, p: Posting)
    ensures book.rows <= Recorded(book, p).0.rows && book.clashes <= Recorded(book, p).0.clashes
  {}

  lemma AccountedStays(book: Book, more: Book, p: Posting)
    requires Accounted(book, p) && book.rows <= more.rows && book.clashes <= more.clashes
    ensures Accounted(more, p)
  {
    if exists i :: 0 <= i < |book.rows| && p.payment.Some? && PaymentMatches(book.rows[i], p) {
      var i :| 0 <= i < |book.rows| && p.payment.Some? && PaymentMatches(book.rows[i], p);
      assert more.rows[i] == book.rows[i];
    }
  }

  /** Nothing supplied disappears: every posting of any stream is a row, a repeated payment or in quarantine. */
  lemma {:induction false} NothingIsLost(stream: seq<Posting>, i: nat)
    requires i < |stream|
    ensures Accounted(RecordAll(stream), stream[i])
  {
    var front := stream[..|stream| - 1];
    if i < |front| {
      NothingIsLost(front, i);
      RecordingAdds(RecordAll(front), stream[|front|]);
      AccountedStays(RecordAll(front), Recorded(RecordAll(front), stream[|front|]).0, stream[i]);
    } else {
      RecordingAccounts(RecordAll(front), stream[i]);
    }
  }

  lemma KnownStays(rows: seq<Posting>, more: seq<Posting>, p: Posting)
    requires Known(rows, p) && rows <= more
    ensures Known(more, p)
  {
    var i := Match(rows, p).value;
    assert more[i] == rows[i];
  }

  lemma {:induction false} RowsOnlyGrow(stream: seq<Posting>, n: nat)
    requires n <= |stream|
    ensures RecordAll(stream[..n]).rows <= RecordAll(stream).rows
  {
    if n < |stream| {
      var front := stream[..|stream| - 1];
      RowsOnlyGrow(front, n);
      assert front[..n] == stream[..n];
    } else {
      assert stream[..n] == stream;
    }
  }

  /** The book after more postings. */
  function RecordOnto(book: Book, more: seq<Posting>): Book {
    if more == [] then book else Recorded(RecordOnto(book, more[..|more| - 1]), more[|more| - 1]).0
  }

  lemma {:induction false} KnownChangeNothing(book: Book, more: seq<Posting>)
    requires forall i :: 0 <= i < |more| ==> Known(book.rows, more[i])
    ensures RecordOnto(book, more).rows == book.rows
  {
    if more == [] {
    } else {
      KnownChangeNothing(book, more[..|more| - 1]);
      KnownIsNotInserted(RecordOnto(book, more[..|more| - 1]), more[|more| - 1]);
    }
  }

  /** Replaying any earlier events, in any order and any number of times, changes no row and so no balance. */
  lemma {:induction false} ReplayChangesNothing(stream: seq<Posting>, replay: seq<Posting>)
    requires forall i :: 0 <= i < |replay| ==> replay[i] in stream
    ensures RecordOnto(RecordAll(stream), replay).rows == RecordAll(stream).rows
    ensures Balances(RecordOnto(RecordAll(stream), replay).rows) == Balances(RecordAll(stream).rows)
  {
    forall i | 0 <= i < |replay| ensures Known(RecordAll(stream).rows, replay[i]) {
      var k :| 0 <= k < |stream| && stream[k] == replay[i];
      StreamIsKnown(stream, k);
    }
    KnownChangeNothing(RecordAll(stream), replay);
  }

  lemma KnownIsNotInserted(book: Book, p: Posting)
    requires Known(book.rows, p)
    ensures Recorded(book, p).0.rows == book.rows && !Recorded(book, p).1.Inserted?
  {}

  lemma StreamIsKnown(stream: seq<Posting>, i: nat)
    requires i < |stream|
    ensures Known(RecordAll(stream).rows, stream[i])
  {
    assert stream[..i + 1][..i] == stream[..i] && stream[..i + 1][i] == stream[i];
    RecordingMakesKnown(RecordAll(stream[..i]), stream[i]);
    RowsOnlyGrow(stream, i + 1);
    KnownStays(RecordAll(stream[..i + 1]).rows, RecordAll(stream).rows, stream[i]);
  }

  /** Every row was supplied. */
  lemma {:induction false} RowsAreSupplied(stream: seq<Posting>, k: nat)
    requires k < |RecordAll(stream).rows|
    ensures exists i :: 0 <= i < |stream| && stream[i] == RecordAll(stream).rows[k]
  {
    var n := |stream| - 1;
    var before := RecordAll(stream[..n]).rows;
    if k < |before| {
      RowsAreSupplied(stream[..n], k);
      var i :| 0 <= i < n && stream[..n][i] == before[k];
      assert stream[i] == RecordAll(stream).rows[k];
    } else {
      assert stream[n] == RecordAll(stream).rows[k];
    }
  }

  // --- what gets in ---

  /** A stream is recorded in full exactly when no key and no payment id repeats in it. */
  lemma {:induction false} RecordedInFullExactly(stream: seq<Posting>)
    ensures RecordAll(stream).rows == stream <==> KeysUnique(stream) && PaymentsUnique(stream)
  {
    PostedAtMostOnce(stream);
    if KeysUnique(stream) && PaymentsUnique(stream) { AllInserted(stream); }
  }

  lemma {:induction false} AllInserted(stream: seq<Posting>)
    requires KeysUnique(stream) && PaymentsUnique(stream)
    ensures RecordAll(stream).rows == stream
  {
    if stream == [] {
    } else {
      var front, last := stream[..|stream| - 1], stream[|stream| - 1];
      AllInserted(front);
      NoMatch(stream);
      assert front + [last] == stream;
    }
  }

  lemma NoMatch(stream: seq<Posting>)
    requires stream != [] && KeysUnique(stream) && PaymentsUnique(stream)
    ensures Match(stream[..|stream| - 1], stream[|stream| - 1]).None?
  {
    var front, last := stream[..|stream| - 1], stream[|stream| - 1];
    assert forall i :: 0 <= i < |front| ==> front[i] == stream[i];
    assert FindKey(front, KeyOf(last)).None?;
    if last.payment.Some? { assert FindPayment(front, last.payment.value).None?; }
  }

  /** What the postings that were not inserted would have added. */
  function Dropped(stream: seq<Posting>): Amounts {
    if stream == [] then ZERO
    else
      var front, last := stream[..|stream| - 1], stream[|stream| - 1];
      if Match(RecordAll(front).rows, last).None? then Dropped(front) else Dropped(front).Plus(last.amounts)
  }

  /** Two sets of balances add up to a third, account by account. */
  predicate AddUp(a: Amounts, b: Amounts, c: Amounts) {
    && a.cash + b.cash == c.cash && a.receivable + b.receivable == c.receivable && a.payable + b.payable == c.payable
    && a.borrow + b.borrow == c.borrow && a.refund + b.refund == c.refund && a.repayment + b.repayment == c.repayment
  }

  /** Every posting's amounts are on the books or were dropped. */
  lemma {:induction false} BooksAndDropped(stream: seq<Posting>)
    ensures AddUp(Balances(RecordAll(stream).rows), Dropped(stream), Balances(stream))
  {
    if stream == [] {
    } else {
      var front, last := stream[..|stream| - 1], stream[|stream| - 1];
      BooksAndDropped(front);
      var before, after := RecordAll(front).rows, RecordAll(stream).rows;
      if Match(before, last).None? { assert after == before + [last] && after[..|before|] == before; }
    }
  }

  /** A payment id that was posted once is not posted again, whatever amount comes with it. */
  lemma PaymentsAreNotRepeated(stream: seq<Posting>, i: nat, j: nat)
    requires i < j < |stream| && stream[i].payment.Some? && stream[j].payment == stream[i].payment
    requires stream[i].payment.value != "" && stream[i].logicalKey.None?
    ensures Match(RecordAll(stream[..j]).rows, stream[j]).Some?
  {
    var front := stream[..j];
    StreamIsKnown(front, i);
    var rows := RecordAll(front).rows;
    var m := Match(rows, front[i]).value;
    assert rows[m].payment == stream[i].payment by {
      if FindKey(rows, KeyOf(front[i])).Some? {
        assert KeyOf(rows[m]) == ByPayment(stream[i].kind, stream[i].payment.value);
      }
    }
  }

  // --- which postings get in, told without the ledger ---

  /** The second runs into the first: one key, or one payment. */
  predicate Same(p: Posting, q: Posting) {
    KeyOf(p) == KeyOf(q) || (q.payment.Some? && p.payment == q.payment)
  }

  /** An earlier posting that got in itself is in the way. */
  predicate Covered(stream: seq<Posting>, j: nat)
    requires j < |stream|
    decreases j
  {
    exists i :: 0 <= i < j && Same(stream[i], stream[j]) && !Covered(stream, i)
  }

  /** The first `n` postings without the covered ones. */
  function Uncovered(stream: seq<Posting>, n: nat): seq<Posting>
    requires n <= |stream|
  {
    if n == 0 then []
    else Uncovered(stream, n - 1) + if Covered(stream, n - 1) then [] else [stream[n - 1]]
  }

  /** What the covered ones would have added. */
  function CoveredAmounts(stream: seq<Posting>, n: nat): Amounts
    requires n <= |stream|
  {
    if n == 0 then ZERO
    else if Covered(stream, n - 1) then CoveredAmounts(stream, n - 1).Plus(stream[n - 1].amounts)
    else CoveredAmounts(stream, n - 1)
  }

  lemma {:induction false} UncoveredAre(stream: seq<Posting>, n: nat, p: Posting)
    requires n <= |stream|
    ensures p in Uncovered(stream, n) <==> exists i :: 0 <= i < n && stream[i] == p && !Covered(stream, i)
  {
    if n == 0 {
    } else {
      UncoveredAre(stream, n - 1, p);
    }
  }

  lemma MatchIsSame(rows: seq<Posting>, p: Posting)
    ensures Match(rows, p).Some? <==> exists k :: 0 <= k < |rows| && Same(rows[k], p)
  {
    if Match(rows, p).Some? { assert Same(rows[Match(rows, p).value], p); }
  }

  /** A posting runs into a row exactly when it is covered. */
  lemma MatchIsCovered(stream: seq<Posting>, n: nat)
    requires n < |stream|
    ensures Match(Uncovered(stream, n), stream[n]).Some? <==> Covered(stream, n)
  {
    var rows, p := Uncovered(stream, n), stream[n];
    MatchIsSame(rows, p);
    if Match(rows, p).Some? {
      var k :| 0 <= k < |rows| && Same(rows[k], p);
      UncoveredAre(stream, n, rows[k]);
    }
    if Covered(stream, n) {
      var i :| 0 <= i < n && Same(stream[i], p) && !Covered(stream, i);
      UncoveredAre(stream, n, stream[i]);
    }
  }

  /** For every stream the rows are exactly the uncovered postings, in order, and the covered ones are dropped. */
  lemma {:induction false} CoveredAreDropped(stream: seq<Posting>, n: nat)
    requires n <= |stream|
    ensures RecordAll(stream[..n]).rows == Uncovered(stream, n)
    ensures Dropped(stream[..n]) == CoveredAmounts(stream, n)
  {
    if n == 0 {
    } else {
      CoveredAreDropped(stream, n - 1);
      assert stream[..n][..n - 1] == stream[..n - 1];
      MatchIsCovered(stream, n - 1);
    }
  }

  /** Every posting's amounts are on the books or were covered. */
  lemma CoveredAreMissing(stream: seq<Posting>)
    ensures AddUp(Balances(RecordAll(stream).rows), CoveredAmounts(stream, |stream|), Balances(stream))
  {
    AllCoveredDropped(stream);
    BooksAndDropped(stream);
  }

  lemma AllCoveredDropped(stream: seq<Posting>)
    ensures RecordAll(stream).rows == Uncovered(stream, |stream|)
    ensures Dropped(stream) == CoveredAmounts(stream, |stream|)
  {
    var n := |stream|;
    CoveredAreDropped(stream, n);
    WholePrefix(stream, n);
  }

  /** What is unavailable among the uncovered is what the summary counts. */
  lemma UncoveredAreCounted(stream: seq<Posting>, count: nat)
    requires UnavailableCount(Uncovered(stream, |stream|)) == count
    ensures UnavailableCount(RecordAll(stream).rows) == count
  {
    AllCoveredDropped(stream);
  }

  lemma WholePrefix<T>(s: seq<T>, n: nat)
    requires n == |s|
    ensures s[..n] == s
  {}

  /** An earlier posting has the same key. */
  predicate KeyTaken(stream: seq<Posting>, j: nat)
    requires j < |stream|
  {
    exists i :: 0 <= i < j && KeyOf(stream[i]) == KeyOf(stream[j])
  }

  /** Postings for one payment have one key. */
  predicate PaymentKeyed(p: Posting, q: Posting) {
    p.payment.Some? && q.payment == p.payment ==> KeyOf(p) == KeyOf(q)
  }

  predicate PaymentsKeyed(stream: seq<Posting>) {
    forall i, j {:trigger PaymentKeyed(stream[i], stream[j])} :: 0 <= i < j < |stream| ==>
      PaymentKeyed(stream[i], stream[j])
  }

  /** Where payments do not cross keys, the key alone decides: exactly the first posting of a key gets in. */
  lemma {:induction false} CoveredIsTaken(stream: seq<Posting>, j: nat)
    requires j < |stream| && PaymentsKeyed(stream)
    ensures Covered(stream, j) <==> KeyTaken(stream, j)
  {
    if Covered(stream, j) { FirstOfKey(stream, j); }
    if KeyTaken(stream, j) {
      var i :| 0 <= i < j && KeyOf(stream[i]) == KeyOf(stream[j]);
      if Covered(stream, i) { FirstOfKey(stream, i); }
    }
  }

  /** A covered posting has an uncovered one of its key before it. */
  lemma FirstOfKey(stream: seq<Posting>, j: nat)
    requires j < |stream| && PaymentsKeyed(stream) && Covered(stream, j)
    ensures exists i :: 0 <= i < j && KeyOf(stream[i]) == KeyOf(stream[j]) && !Covered(stream, i)
  {
    var i :| 0 <= i < j && Same(stream[i], stream[j]) && !Covered(stream, i);
    assert PaymentKeyed(stream[i], stream[j]);
  }
}
