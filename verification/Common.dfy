/** Small vocabulary shared by every component: optional values, results, and sums over sequences. */
module Common {

  datatype Option<+T> = None | Some(value: T)

  datatype Result<+T> = Ok(value: T) | Err

  datatype Direction = Long | Short {
    /** The amount times +1 for LONG, -1 for SHORT. */
    function Signed(n: int): int { if Long? then n else -n }

    function SignedAmount(x: real): real { if Long? then x else -x }
  }

  function Min(a: int, b: int): int { if a <= b then a else b }

  function Max(a: int, b: int): int { if a >= b then a else b }

  function MinR(a: real, b: real): real { if a <= b then a else b }

  function MaxR(a: real, b: real): real { if a >= b then a else b }

  function Max0(x: real): real { if x > 0.0 then x else 0.0 }

  /** Sum of a sequence of integers; table-wide totals are sums of one weight per row. */
  function Sum(s: seq<int>): int {
    if s == [] then 0 else Sum(s[..|s| - 1]) + s[|s| - 1]
  }

  lemma {:induction false} SumUpdate(s: seq<int>, i: nat, v: int)
    requires i < |s|
    ensures Sum(s[i := v]) == Sum(s) - s[i] + v
  {
    var last := |s| - 1;
    if i == last {
      assert s[i := v][..last] == s[..last];
    } else {
      SumUpdate(s[..last], i, v);
      assert s[i := v][..last] == s[..last][i := v];
    }
  }

  lemma SumAppend(s: seq<int>, v: int)
    ensures Sum(s + [v]) == Sum(s) + v
  {
    assert (s + [v])[..|s|] == s;
  }

  lemma {:induction false} SumZero(s: seq<int>)
    requires forall i :: 0 <= i < |s| ==> s[i] == 0
    ensures Sum(s) == 0
  {
    if s == [] {
    } else {
      SumZero(s[..|s| - 1]);
    }
  }

  /** Sums of sequences that differ in one entry only. */
  lemma SumChange(a: seq<int>, b: seq<int>, i: nat)
    requires i < |a| == |b|
    requires forall k :: 0 <= k < |a| && k != i ==> a[k] == b[k]
    ensures Sum(b) == Sum(a) - a[i] + b[i]
  {
    SumUpdate(a, i, b[i]);
    assert a[i := b[i]] == b;
  }

  /** Sums of sequences where one extends the other by one entry. */
  lemma SumExtend(a: seq<int>, b: seq<int>)
    requires |b| == |a| + 1
    requires forall k :: 0 <= k < |a| ==> a[k] == b[k]
    ensures Sum(b) == Sum(a) + b[|a|]
  {
    SumAppend(a, b[|a|]);
    assert a + [b[|a|]] == b;
  }

  lemma SumPadded(a: seq<int>, b: seq<int>)
    requires |a| <= |b| <= |a| + 1
    requires forall k :: 0 <= k < |a| ==> a[k] == b[k]
    requires forall k :: |a| <= k < |b| ==> b[k] == 0
    ensures Sum(b) == Sum(a)
  {
    if |b| == |a| { assert a == b; } else { SumExtend(a, b); }
  }

  /** Zeros at the end add nothing. */
  lemma {:induction false} SumTail(a: seq<int>, b: seq<int>)
    requires |a| <= |b|
    requires forall k :: 0 <= k < |a| ==> a[k] == b[k]
    requires forall k :: |a| <= k < |b| ==> b[k] == 0
    ensures Sum(b) == Sum(a)
  {
    if |a| == |b| {
      assert a == b;
    } else {
      SumTail(a, b[..|b| - 1]);
    }
  }

  /** Sums of sequences that differ in one entry and in zeros at the end. */
  lemma SumChangeTail(a: seq<int>, b: seq<int>, i: nat)
    requires i < |a| <= |b|
    requires forall k :: 0 <= k < |a| && k != i ==> a[k] == b[k]
    requires forall k :: |a| <= k < |b| ==> b[k] == 0
    ensures Sum(b) == Sum(a) - a[i] + b[i]
  {
    SumUpdate(a, i, b[i]);
    SumTail(a[i := b[i]], b);
  }

  /** Two pointwise comparable sequences have comparable sums. */
  lemma {:induction false} SumMonotone(a: seq<int>, b: seq<int>)
    requires |a| == |b|
    requires forall i :: 0 <= i < |a| ==> a[i] <= b[i]
    ensures Sum(a) <= Sum(b)
  {
    if a == [] {
    } else {
      SumMonotone(a[..|a| - 1], b[..|b| - 1]);
    }
  }

  /** Sums add pointwise. */
  lemma {:induction false} SumPointwise(a: seq<int>, b: seq<int>, c: seq<int>)
    requires |a| == |b| == |c|
    requires forall i :: 0 <= i < |a| ==> c[i] == a[i] + b[i]
    ensures Sum(c) == Sum(a) + Sum(b)
  {
    if a == [] {
    } else {
      SumPointwise(a[..|a| - 1], b[..|b| - 1], c[..|c| - 1]);
    }
  }

  /** If at most one entry is non-zero, the sum is that entry (or zero). */
  lemma {:induction false} SumSingle(s: seq<int>, i: nat)
    requires i < |s|
    requires forall k :: 0 <= k < |s| && k != i ==> s[k] == 0
    ensures Sum(s) == s[i]
  {
    var zeros := s[i := 0];
    SumZero(zeros);
    SumUpdate(zeros, i, s[i]);
    assert zeros[i := s[i]] == s;
  }

  /** Sum of a sequence of exact amounts. */
  function SumR(s: seq<real>): real {
    if s == [] then 0.0 else SumR(s[..|s| - 1]) + s[|s| - 1]
  }

  lemma {:induction false} SumRChange(a: seq<real>, b: seq<real>, i: nat)
    requires i < |a| == |b|
    requires forall k :: 0 <= k < |a| && k != i ==> a[k] == b[k]
    ensures SumR(b) == SumR(a) - a[i] + b[i]
  {
    var last := |a| - 1;
    if i == last { assert a[..last] == b[..last]; } else { SumRChange(a[..last], b[..last], i); }
  }

  lemma SumRPadded(a: seq<real>, b: seq<real>)
    requires |a| <= |b| <= |a| + 1
    requires forall k :: 0 <= k < |a| ==> a[k] == b[k]
    requires forall k :: |a| <= k < |b| ==> b[k] == 0.0
    ensures SumR(b) == SumR(a)
  {
    if |b| == |a| { assert a == b; } else { assert b[..|a|] == a; }
  }

  lemma {:induction false} SumRZero(s: seq<real>)
    requires forall i :: 0 <= i < |s| ==> s[i] == 0.0
    ensures SumR(s) == 0.0
  {
    if s == [] {
    } else {
      SumRZero(s[..|s| - 1]);
    }
  }

  function Abs(x: real): real { if x >= 0.0 then x else -x }

  /** Python's round(x, 2) on an exact amount: nearest cent, ties to the even cent. */
  function RoundEven2(x: real): (r: real)
    ensures Abs(r - x) <= 0.005
  {
    var cents := x * 100.0;
    var low := cents.Floor;
    var rest := cents - low as real;
    var n := if rest < 0.5 || (rest == 0.5 && low % 2 == 0) then low else low + 1;
    n as real / 100.0
  }

  /** Rounding gives whole cents, leaves them alone, and sends half a cent to the even one. */
  lemma RoundEven2IsCents(x: real, n: int)
    ensures (RoundEven2(x) * 100.0).Floor as real == RoundEven2(x) * 100.0
    ensures RoundEven2(n as real / 100.0) == n as real / 100.0
    ensures RoundEven2((n as real + 0.5) / 100.0) == (if n % 2 == 0 then n else n + 1) as real / 100.0
  {
    assert n as real / 100.0 * 100.0 == n as real && (n as real).Floor == n;
    assert (n as real + 0.5) / 100.0 * 100.0 == n as real + 0.5 && (n as real + 0.5).Floor == n;
    var low := (x * 100.0).Floor;
    WholeCents(low);
    WholeCents(low + 1);
  }

  lemma WholeCents(n: int)
    ensures (n as real / 100.0 * 100.0).Floor as real == n as real / 100.0 * 100.0
  {
    assert n as real / 100.0 * 100.0 == n as real;
    assert (n as real).Floor == n;
  }

  /** Rounding is symmetric in sign. */
  lemma RoundEven2Negates(x: real)
    ensures RoundEven2(-x) == -RoundEven2(x)
  {
    var cents := x * 100.0;
    var low := cents.Floor;
    assert (-x) * 100.0 == -cents;
    if low as real == cents { assert (-cents).Floor == -low; } else { assert (-cents).Floor == -low - 1; }
  }

  /** A record was known by the decision time; without one everything is known. */
  predicate KnownBy(knowledgeAt: Option<int>, decision: Option<int>) {
    decision.None? || (knowledgeAt.Some? && knowledgeAt.value <= decision.value)
  }

  lemma FirstMoves<T>(done: seq<T>, rest: seq<T>)
    requires rest != []
    ensures (done + [rest[0]]) + rest[1..] == done + rest
  {}

  lemma TakeThenDrop<T>(s: seq<T>, k: nat)
    requires k <= |s|
    ensures s[..k] + s[k..] == s
  {}

  lemma LastSplits<T>(s: seq<T>)
    requires s != []
    ensures s[..|s| - 1] + [s[|s| - 1]] == s
  {}
}
