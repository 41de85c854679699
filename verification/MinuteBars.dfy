/** Live minutes into five-minute bars, and completed bars into batches. Times are whole minutes. */
module MinuteBars {
  import opened Common

  datatype Minute = Minute(symbol: nat, ts: nat, open: real, high: real, low: real, close: real, volume: real)

  datatype Bar = Bar(start: nat, open: real, high: real, low: real, close: real, volume: real)

  /** A five-minute bar under construction and the clock minutes it has seen. */
  datatype Bucket = Bucket(bar: Bar, minutes: set<int>)

  datatype Emitted = Emitted(symbol: nat, bar: Bar)

  /** The bars of one start time by symbol, handed to the trader in one call. */
  datatype Batch = Batch(ts: nat, bars: map<nat, Bar>)

  type Ready = map<nat, map<nat, Bar>>

  function Floor5(ts: nat): nat { ts - ts % 5 }

  /** The accepted minutes of one symbol and one five-minute bar. */
  function MinutesOf(accepted: seq<Minute>, symbol: nat, start: nat): seq<Minute> {
    if accepted == [] then []
    else
      var front, last := MinutesOf(accepted[..|accepted| - 1], symbol, start), accepted[|accepted| - 1];
      if last.symbol == symbol && Floor5(last.ts) == start then front + [last] else front
  }

  lemma MinutesOfMore(accepted: seq<Minute>, m: Minute, symbol: nat, start: nat)
    ensures MinutesOf(accepted + [m], symbol, start) ==
      if m.symbol == symbol && Floor5(m.ts) == start then MinutesOf(accepted, symbol, start) + [m]
      else MinutesOf(accepted, symbol, start)
  {
    assert (accepted + [m])[..|accepted|] == accepted;
  }

  lemma {:induction false} MinutesBelong(accepted: seq<Minute>, symbol: nat, start: nat)
    ensures forall i :: 0 <= i < |MinutesOf(accepted, symbol, start)| ==>
      var m := MinutesOf(accepted, symbol, start)[i];
      m in accepted && m.symbol == symbol && Floor5(m.ts) == start
  {
    if accepted == [] {
    } else {
      MinutesBelong(accepted[..|accepted| - 1], symbol, start);
      assert accepted == accepted[..|accepted| - 1] + [accepted[|accepted| - 1]];
    }
  }

  /** Minute by minute aggregation. */
  function Aggregate(start: nat, minutes: seq<Minute>): Bar
    requires minutes != []
  {
    var last := minutes[|minutes| - 1];
    if |minutes| == 1 then Bar(start, last.open, last.high, last.low, last.close, last.volume)
    else
      var front := Aggregate(start, minutes[..|minutes| - 1]);
      front.(high := MaxR(front.high, last.high), low := MinR(front.low, last.low), close := last.close,
             volume := front.volume + last.volume)
  }

  function Volumes(minutes: seq<Minute>): seq<real> {
    seq(|minutes|, i requires 0 <= i < |minutes| => minutes[i].volume)
  }

  /** Aggregating as the minutes come gives the first open, the highest high, the lowest low, the last close and the
      total volume. */
  lemma {:induction false} AggregateIsBatch(start: nat, minutes: seq<Minute>)
    requires minutes != []
    ensures var bar := Aggregate(start, minutes);
      && bar.start == start && bar.open == minutes[0].open && bar.close == minutes[|minutes| - 1].close
      && (forall i :: 0 <= i < |minutes| ==> bar.low <= minutes[i].low && minutes[i].high <= bar.high)
      && (exists i :: 0 <= i < |minutes| && minutes[i].high == bar.high)
      && (exists i :: 0 <= i < |minutes| && minutes[i].low == bar.low)
      && bar.volume == SumR(Volumes(minutes))
  {
    var last := |minutes| - 1;
    assert Volumes(minutes)[..last] == Volumes(minutes[..last]);
    if last == 0 {
      assert Volumes(minutes)[..0] == [];
      assert minutes[0].high == Aggregate(start, minutes).high && minutes[0].low == Aggregate(start, minutes).low;
    } else {
      AggregateIsBatch(start, minutes[..last]);
      var front, bar := Aggregate(start, minutes[..last]), Aggregate(start, minutes);
      var h :| 0 <= h < last && minutes[..last][h].high == front.high;
      var l :| 0 <= l < last && minutes[..last][l].low == front.low;
      assert minutes[if bar.high == front.high then h else last].high == bar.high;
      assert minutes[if bar.low == front.low then l else last].low == bar.low;
    }
  }

  predicate Rising(minutes: seq<Minute>) {
    forall i, j :: 0 <= i < j < |minutes| ==> minutes[i].ts < minutes[j].ts
  }

  /** Rising minutes of one bar are at most five, and five of them are all of its minutes. */
  lemma {:induction false} WindowFills(minutes: seq<Minute>, start: int)
    requires Rising(minutes) && forall i :: 0 <= i < |minutes| ==> start <= minutes[i].ts < start + 5
    ensures |minutes| <= 5
    ensures forall i :: 0 <= i < |minutes| ==> minutes[i].ts >= start + i
    ensures |minutes| == 5 ==> forall i :: 0 <= i < 5 ==> minutes[i].ts == start + i
  {
    AtLeast(minutes, start);
    if |minutes| > 0 { assert minutes[|minutes| - 1].ts >= start + |minutes| - 1; }
    if |minutes| == 5 {
      forall i | 0 <= i < 5 ensures minutes[i].ts == start + i { AtMost(minutes, i, start); }
    }
  }

  lemma {:induction false} AtLeast(minutes: seq<Minute>, start: int)
    requires Rising(minutes) && forall i :: 0 <= i < |minutes| ==> start <= minutes[i].ts
    ensures forall i :: 0 <= i < |minutes| ==> minutes[i].ts >= start + i
  {
    if |minutes| > 1 {
      var last := |minutes| - 1;
      AtLeast(minutes[..last], start);
      assert minutes[last - 1].ts < minutes[last].ts;
    }
  }

  lemma {:induction false} AtMost(minutes: seq<Minute>, i: nat, start: int)
    requires Rising(minutes) && |minutes| == 5 && i < 5 && forall k :: 0 <= k < 5 ==> start <= minutes[k].ts < start + 5
    ensures minutes[i].ts <= start + i
    decreases 5 - i
  {
    if i < 4 { AtMost(minutes, i + 1, start); }
  }

  /** A bar stands for all five accepted minutes of its window. */
  predicate Complete(accepted: seq<Minute>, e: Emitted) {
    var minutes := MinutesOf(accepted, e.symbol, e.bar.start);
    && |minutes| == 5 && e.bar == Aggregate(e.bar.start, minutes)
    && forall i :: 0 <= i < 5 ==> minutes[i].ts == e.bar.start + i
  }

  // --- the invariant, on values ---

  /** Accepted minutes come later and later for each symbol. */
  ghost predicate InOrder(accepted: seq<Minute>, lastMinute: map<nat, nat>) {
    && (forall i :: 0 <= i < |accepted| ==>
      accepted[i].symbol in lastMinute && accepted[i].ts <= lastMinute[accepted[i].symbol])
    && (forall i, j :: 0 <= i < j < |accepted| && accepted[i].symbol == accepted[j].symbol ==>
      accepted[i].ts < accepted[j].ts)
  }

  /** An open bucket is the aggregate of its accepted minutes, newer than the last closed bar. */
  ghost predicate BucketOk(s: nat, b: Bucket, accepted: seq<Minute>, lastMinute: map<nat, nat>,
                           lastClosed: map<nat, nat>)
  {
    var minutes := MinutesOf(accepted, s, b.bar.start);
    && minutes != [] && b.bar == Aggregate(b.bar.start, minutes)
    && (s in lastClosed ==> b.bar.start > lastClosed[s])
    && s in lastMinute && Floor5(lastMinute[s]) == b.bar.start && minutes[|minutes| - 1].ts == lastMinute[s]
    && |b.minutes| == |minutes| && forall x :: x in b.minutes ==> x <= lastMinute[s] % 60
  }

  /** An accepted minute belongs to a closed bar or to the open bucket of its symbol. */
  predicate Placed(m: Minute, buckets: map<nat, Bucket>, lastClosed: map<nat, nat>) {
    (m.symbol in lastClosed && Floor5(m.ts) <= lastClosed[m.symbol])
    || (m.symbol in buckets && Floor5(m.ts) == buckets[m.symbol].bar.start)
  }

  ghost predicate EmittedOk(emitted: seq<Emitted>, accepted: seq<Minute>, lastClosed: map<nat, nat>) {
    && (forall k :: 0 <= k < |emitted| ==>
      Complete(accepted, emitted[k])
      && emitted[k].symbol in lastClosed && emitted[k].bar.start <= lastClosed[emitted[k].symbol])
    && (forall k, l :: 0 <= k < l < |emitted| && emitted[k].symbol == emitted[l].symbol ==>
      emitted[k].bar.start < emitted[l].bar.start)
  }

  ghost predicate FeedOk(accepted: seq<Minute>, emitted: seq<Emitted>, buckets: map<nat, Bucket>,
                         lastMinute: map<nat, nat>, lastClosed: map<nat, nat>) {
    && InOrder(accepted, lastMinute)
    && (forall s :: s in buckets ==> BucketOk(s, buckets[s], accepted, lastMinute, lastClosed))
    && (forall i :: 0 <= i < |accepted| ==> Placed(accepted[i], buckets, lastClosed))
    && EmittedOk(emitted, accepted, lastClosed)
  }

  lemma {:induction false} RisingOf(accepted: seq<Minute>, lastMinute: map<nat, nat>, s: nat, start: nat)
    requires InOrder(accepted, lastMinute)
    ensures Rising(MinutesOf(accepted, s, start))
    decreases |accepted|
  {
    if accepted == [] {
    } else {
      var front, last := accepted[..|accepted| - 1], accepted[|accepted| - 1];
      RisingOf(front, lastMinute, s, start);
      MinutesBelong(front, s, start);
      forall i | last.symbol == s && 0 <= i < |MinutesOf(front, s, start)|
        ensures MinutesOf(front, s, start)[i].ts < last.ts {
        var m := MinutesOf(front, s, start)[i];
        var k :| 0 <= k < |front| && front[k] == m;
        assert accepted[k] == m;
      }
    }
  }

  /** A bucket with five clock minutes holds every minute of its window; no bucket holds more. */
  lemma BucketFills(s: nat, b: Bucket, accepted: seq<Minute>, lastMinute: map<nat, nat>, lastClosed: map<nat, nat>)
    requires InOrder(accepted, lastMinute) && BucketOk(s, b, accepted, lastMinute, lastClosed)
    ensures |b.minutes| <= 5
    ensures |b.minutes| == 5 ==> Complete(accepted, Emitted(s, b.bar))
  {
    var minutes := MinutesOf(accepted, s, b.bar.start);
    RisingOf(accepted, lastMinute, s, b.bar.start);
    MinutesBelong(accepted, s, b.bar.start);
    WindowFills(minutes, b.bar.start);
  }

  lemma CloseKeepsFeed(accepted: seq<Minute>, emitted: seq<Emitted>, buckets: map<nat, Bucket>,
                       lastMinute: map<nat, nat>, lastClosed: map<nat, nat>, s: nat)
    requires FeedOk(accepted, emitted, buckets, lastMinute, lastClosed) && s in buckets
    ensures var b := buckets[s];
      var emitted' := if |b.minutes| == 5 then emitted + [Emitted(s, b.bar)] else emitted;
      FeedOk(accepted, emitted', buckets - {s}, lastMinute, lastClosed[s := b.bar.start])
  {
    var b := buckets[s];
    assert BucketOk(s, b, accepted, lastMinute, lastClosed);
    BucketFills(s, b, accepted, lastMinute, lastClosed);
    var left, closed := buckets - {s}, lastClosed[s := b.bar.start];
    forall u | u in left ensures BucketOk(u, left[u], accepted, lastMinute, closed) {
      assert BucketOk(u, buckets[u], accepted, lastMinute, lastClosed);
    }
    forall i | 0 <= i < |accepted| ensures Placed(accepted[i], left, closed) {
      assert Placed(accepted[i], buckets, lastClosed);
    }
  }

  predicate Misses(m: Minute, s: nat, start: nat) { m.symbol != s || Floor5(m.ts) != start }

  lemma {:induction false} NoMinutes(accepted: seq<Minute>, s: nat, start: nat)
    requires forall i :: 0 <= i < |accepted| ==> Misses(accepted[i], s, start)
    ensures MinutesOf(accepted, s, start) == []
  {
    if accepted == [] {
    } else {
      NoMinutes(accepted[..|accepted| - 1], s, start);
      assert Misses(accepted[|accepted| - 1], s, start);
    }
  }

  /** A minute that starts a bar finds no accepted minute of that bar. */
  lemma NoneYet(accepted: seq<Minute>, buckets: map<nat, Bucket>, lastClosed: map<nat, nat>, s: nat, start: nat)
    requires forall i :: 0 <= i < |accepted| ==> Placed(accepted[i], buckets, lastClosed)
    requires s !in buckets && (s in lastClosed ==> start > lastClosed[s])
    ensures MinutesOf(accepted, s, start) == []
  {
    forall i | 0 <= i < |accepted| ensures Misses(accepted[i], s, start) {
      assert Placed(accepted[i], buckets, lastClosed);
    }
    NoMinutes(accepted, s, start);
  }

  /** The bucket after one more minute. */
  function Extended(buckets: map<nat, Bucket>, m: Minute): Bucket {
    if m.symbol in buckets then
      var b := buckets[m.symbol];
      Bucket(b.bar.(high := MaxR(b.bar.high, m.high), low := MinR(b.bar.low, m.low), close := m.close,
                    volume := b.bar.volume + m.volume), b.minutes + {m.ts % 60})
    else Bucket(Bar(Floor5(m.ts), m.open, m.high, m.low, m.close, m.volume), {m.ts % 60})
  }

  lemma ExtendedOk(accepted: seq<Minute>, buckets: map<nat, Bucket>, lastMinute: map<nat, nat>,
                   lastClosed: map<nat, nat>, m: Minute)
    requires InOrder(accepted, lastMinute)
    requires forall i :: 0 <= i < |accepted| ==> Placed(accepted[i], buckets, lastClosed)
    requires m.symbol in lastMinute ==> m.ts > lastMinute[m.symbol]
    requires m.symbol in lastClosed ==> Floor5(m.ts) > lastClosed[m.symbol]
    requires m.symbol in buckets ==>
      buckets[m.symbol].bar.start == Floor5(m.ts)
        && BucketOk(m.symbol, buckets[m.symbol], accepted, lastMinute, lastClosed)
    ensures BucketOk(m.symbol, Extended(buckets, m), accepted + [m], lastMinute[m.symbol := m.ts], lastClosed)
  {
    var s, start := m.symbol, Floor5(m.ts);
    MinutesOfMore(accepted, m, s, start);
    var before := MinutesOf(accepted, s, start);
    assert (before + [m])[..|before|] == before;
    if s in buckets {
      var b := buckets[s];
      LaterClock(lastMinute[s], m.ts);
      assert m.ts % 60 !in b.minutes;
      assert |b.minutes + {m.ts % 60}| == |b.minutes| + 1;
    } else {
      NoneYet(accepted, buckets, lastClosed, s, start);
    }
  }

  /** Within five aligned minutes the clock minute grows with the time. */
  lemma LaterClock(a: nat, b: nat)
    requires a < b && Floor5(a) == Floor5(b)
    ensures a % 60 < b % 60
  {
    HourOfWindow(a);
    HourOfWindow(b);
  }

  lemma HourOfWindow(a: nat)
    ensures a / 60 == (a - a % 5) / 60
  {
    var start := a - a % 5;
    var hour := start / 60;
    assert start == 5 * (a / 5);
    assert start - 60 * hour == 5 * (a / 5 - 12 * hour);
  }

  lemma AcceptKeepsFeed(accepted: seq<Minute>, emitted: seq<Emitted>, buckets: map<nat, Bucket>,
                        lastMinute: map<nat, nat>, lastClosed: map<nat, nat>, m: Minute)
    requires FeedOk(accepted, emitted, buckets, lastMinute, lastClosed)
    requires m.symbol in lastMinute ==> m.ts > lastMinute[m.symbol]
    requires m.symbol in lastClosed ==> Floor5(m.ts) > lastClosed[m.symbol]
    requires m.symbol in buckets ==> buckets[m.symbol].bar.start == Floor5(m.ts)
    ensures FeedOk(accepted + [m], emitted, buckets[m.symbol := Extended(buckets, m)], lastMinute[m.symbol := m.ts],
                   lastClosed)
  {
    AcceptKeepsBuckets(accepted, emitted, buckets, lastMinute, lastClosed, m);
    AcceptPlaces(accepted, buckets, lastClosed, m);
    InOrderMore(accepted, lastMinute, m);
    EmittedMore(accepted, emitted, lastClosed, m);
  }

  lemma AcceptKeepsBuckets(accepted: seq<Minute>, emitted: seq<Emitted>, buckets: map<nat, Bucket>,
                           lastMinute: map<nat, nat>, lastClosed: map<nat, nat>, m: Minute)
    requires FeedOk(accepted, emitted, buckets, lastMinute, lastClosed)
    requires m.symbol in lastMinute ==> m.ts > lastMinute[m.symbol]
    requires m.symbol in lastClosed ==> Floor5(m.ts) > lastClosed[m.symbol]
    requires m.symbol in buckets ==> buckets[m.symbol].bar.start == Floor5(m.ts)
    ensures var minutes, extended := lastMinute[m.symbol := m.ts], buckets[m.symbol := Extended(buckets, m)];
      forall u :: u in extended ==> BucketOk(u, extended[u], accepted + [m], minutes, lastClosed)
  {
    var minutes, extended := lastMinute[m.symbol := m.ts], buckets[m.symbol := Extended(buckets, m)];
    ExtendedOk(accepted, buckets, lastMinute, lastClosed, m);
    forall u | u in extended ensures BucketOk(u, extended[u], accepted + [m], minutes, lastClosed) {
      if u != m.symbol {
        assert BucketOk(u, buckets[u], accepted, lastMinute, lastClosed);
        MinutesOfMore(accepted, m, u, buckets[u].bar.start);
      }
    }
  }

  lemma AcceptPlaces(accepted: seq<Minute>, buckets: map<nat, Bucket>, lastClosed: map<nat, nat>, m: Minute)
    requires forall i :: 0 <= i < |accepted| ==> Placed(accepted[i], buckets, lastClosed)
    requires m.symbol in buckets ==> buckets[m.symbol].bar.start == Floor5(m.ts)
    ensures var more, extended := accepted + [m], buckets[m.symbol := Extended(buckets, m)];
      forall i :: 0 <= i < |more| ==> Placed(more[i], extended, lastClosed)
  {
    var more, extended := accepted + [m], buckets[m.symbol := Extended(buckets, m)];
    forall i | 0 <= i < |more| ensures Placed(more[i], extended, lastClosed) {
      if i < |accepted| { assert Placed(accepted[i], buckets, lastClosed); }
    }
  }

  lemma InOrderMore(accepted: seq<Minute>, lastMinute: map<nat, nat>, m: Minute)
    requires InOrder(accepted, lastMinute) && (m.symbol in lastMinute ==> m.ts > lastMinute[m.symbol])
    ensures InOrder(accepted + [m], lastMinute[m.symbol := m.ts])
  {}

  lemma EmittedMore(accepted: seq<Minute>, emitted: seq<Emitted>, lastClosed: map<nat, nat>, m: Minute)
    requires EmittedOk(emitted, accepted, lastClosed)
      && (m.symbol in lastClosed ==> Floor5(m.ts) > lastClosed[m.symbol])
    ensures EmittedOk(emitted, accepted + [m], lastClosed)
  {
    forall k | 0 <= k < |emitted| ensures Complete(accepted + [m], emitted[k]) {
      MinutesOfMore(accepted, m, emitted[k].symbol, emitted[k].bar.start);
    }
  }

  /** A symbol with an open bucket never drops a newer minute as already closed. */
  lemma OpenBucketTakes(accepted: seq<Minute>, emitted: seq<Emitted>, buckets: map<nat, Bucket>,
                        lastMinute: map<nat, nat>, lastClosed: map<nat, nat>, s: nat, ts: nat)
    requires FeedOk(accepted, emitted, buckets, lastMinute, lastClosed) && (s in lastMinute ==> ts > lastMinute[s])
    ensures s in buckets && s in lastClosed ==> Floor5(ts) > lastClosed[s]
  {
    if s in buckets { assert BucketOk(s, buckets[s], accepted, lastMinute, lastClosed); }
  }

  /** A minute that is dropped only moves the symbol's clock, and never while its bucket is open. */
  lemma DropKeepsFeed(accepted: seq<Minute>, emitted: seq<Emitted>, buckets: map<nat, Bucket>,
                      lastMinute: map<nat, nat>, lastClosed: map<nat, nat>, s: nat, ts: nat)
    requires FeedOk(accepted, emitted, buckets, lastMinute, lastClosed)
    requires (s in lastMinute ==> ts > lastMinute[s]) && s in lastClosed && Floor5(ts) <= lastClosed[s]
    ensures FeedOk(accepted, emitted, buckets, lastMinute[s := ts], lastClosed)
  {
    OpenBucketTakes(accepted, emitted, buckets, lastMinute, lastClosed, s, ts);
    forall u | u in buckets ensures BucketOk(u, buckets[u], accepted, lastMinute[s := ts], lastClosed) {
      assert BucketOk(u, buckets[u], accepted, lastMinute, lastClosed);
    }
  }

  lemma WindowsRise(a: nat, b: nat)
    requires a <= b
    ensures Floor5(a) <= Floor5(b)
  {
    assert Floor5(a) == 5 * (a / 5) && Floor5(b) == 5 * (b / 5);
  }

  /** The clock of a symbol without an open bucket may move on. */
  lemma ClockKeepsFeed(accepted: seq<Minute>, emitted: seq<Emitted>, buckets: map<nat, Bucket>,
                       lastMinute: map<nat, nat>, lastClosed: map<nat, nat>, s: nat, ts: nat)
    requires FeedOk(accepted, emitted, buckets, lastMinute, lastClosed)
    requires s !in buckets && (s in lastMinute ==> ts > lastMinute[s])
    ensures FeedOk(accepted, emitted, buckets, lastMinute[s := ts], lastClosed)
  {
    forall u | u in buckets ensures BucketOk(u, buckets[u], accepted, lastMinute[s := ts], lastClosed) {
      assert BucketOk(u, buckets[u], accepted, lastMinute, lastClosed);
    }
  }

  ghost predicate InHours(session: int -> Option<(int, int)>, t: int) {
    session(t).Some? && session(t).value.0 <= t < session(t).value.1
  }

  // --- from finished bars to batches ---

  predicate Has(bars: map<nat, Bar>, e: Emitted) { e.symbol in bars && bars[e.symbol] == e.bar }

  predicate Waits(ready: Ready, e: Emitted) { e.bar.start in ready && Has(ready[e.bar.start], e) }

  predicate Went(batch: Batch, e: Emitted) { batch.ts == e.bar.start && Has(batch.bars, e) }

  predicate Somewhere(emitted: seq<Emitted>, ready: Ready, handed: seq<Batch>, k: nat)
    requires k < |emitted|
  {
    Waits(ready, emitted[k]) || GoneOn(handed, emitted[k])
  }

  predicate GoneOn(handed: seq<Batch>, e: Emitted) { exists h :: 0 <= h < |handed| && Went(handed[h], e) }

  /** Bars listed under a time are finished bars of that time. */
  predicate Genuine(emitted: seq<Emitted>, ts: nat, bars: map<nat, Bar>) {
    forall s :: s in bars ==> bars[s].start == ts && Emitted(s, bars[s]) in emitted
  }

  predicate Apart(a: Batch, b: Batch) { a.ts != b.ts || a.bars.Keys !! b.bars.Keys }

  /** Every finished bar waits or was handed on, never both and never twice, and nothing else is handed on. */
  ghost predicate Flow(emitted: seq<Emitted>, ready: Ready, handed: seq<Batch>) {
    && (forall k {:trigger Somewhere(emitted, ready, handed, k)} :: 0 <= k < |emitted| ==>
      Somewhere(emitted, ready, handed, k))
    && (forall t {:trigger Genuine(emitted, t, ready[t])} :: t in ready ==> Genuine(emitted, t, ready[t]))
    && (forall h {:trigger GenuineBatch(emitted, handed, h)} :: 0 <= h < |handed| ==> GenuineBatch(emitted, handed, h))
    && (forall h, t {:trigger ApartFrom(ready, handed, h, t)} :: 0 <= h < |handed| && t in ready ==>
      ApartFrom(ready, handed, h, t))
    && (forall h, l {:trigger ApartEach(handed, h, l)} :: 0 <= h < l < |handed| ==> ApartEach(handed, h, l))
  }

  predicate GenuineBatch(emitted: seq<Emitted>, handed: seq<Batch>, h: nat)
    requires h < |handed|
  {
    Genuine(emitted, handed[h].ts, handed[h].bars)
  }

  predicate ApartFrom(ready: Ready, handed: seq<Batch>, h: nat, t: nat)
    requires h < |handed| && t in ready
  {
    Apart(handed[h], Batch(t, ready[t]))
  }

  predicate ApartEach(handed: seq<Batch>, h: nat, l: nat)
    requires h < |handed| && l < |handed|
  {
    Apart(handed[h], handed[l])
  }

  /** Handing a ready time on moves its bars and loses none. */
  lemma HandOn(emitted: seq<Emitted>, ready: Ready, handed: seq<Batch>, ts: nat)
    requires Flow(emitted, ready, handed) && ts in ready
    ensures Flow(emitted, ready - {ts}, handed + [Batch(ts, ready[ts])])
  {
    var more, left := handed + [Batch(ts, ready[ts])], ready - {ts};
    forall k | 0 <= k < |emitted| ensures Somewhere(emitted, left, more, k) {
      assert Somewhere(emitted, ready, handed, k);
      if Waits(ready, emitted[k]) {
        if emitted[k].bar.start == ts { assert Went(more[|handed|], emitted[k]); }
      } else {
        var h :| 0 <= h < |handed| && Went(handed[h], emitted[k]);
        assert Went(more[h], emitted[k]);
      }
    }
    forall t | t in left ensures Genuine(emitted, t, left[t]) { assert Genuine(emitted, t, ready[t]); }
    forall h | 0 <= h < |more| ensures GenuineBatch(emitted, more, h) {
      if h < |handed| { assert GenuineBatch(emitted, handed, h); } else { assert Genuine(emitted, ts, ready[ts]); }
    }
    forall h, t | 0 <= h < |more| && t in left ensures ApartFrom(left, more, h, t) {
      if h < |handed| { assert ApartFrom(ready, handed, h, t); }
    }
    forall h, l | 0 <= h < l < |more| ensures ApartEach(more, h, l) {
      if l < |handed| { assert ApartEach(handed, h, l); } else { assert ApartFrom(ready, handed, h, ts); }
    }
  }

  /** When nothing waits every finished bar has reached the trader. */
  lemma NothingWaits(emitted: seq<Emitted>, ready: Ready, handed: seq<Batch>)
    requires Flow(emitted, ready, handed) && ready.Keys == {}
    ensures forall k :: 0 <= k < |emitted| ==> GoneOn(handed, emitted[k])
  {
    forall k | 0 <= k < |emitted| ensures GoneOn(handed, emitted[k]) { assert Somewhere(emitted, ready, handed, k); }
  }

  function Listed(ready: Ready, s: nat, bar: Bar): Ready {
    ready[bar.start := (if bar.start in ready then ready[bar.start] else map[])[s := bar]]
  }

  /** A finished bar no earlier bar of its symbol shares a start with starts to wait. */
  lemma ListBar(emitted: seq<Emitted>, ready: Ready, handed: seq<Batch>, s: nat, bar: Bar)
    requires Flow(emitted, ready, handed)
    requires forall k :: 0 <= k < |emitted| && emitted[k].symbol == s ==> emitted[k].bar.start < bar.start
    ensures Flow(emitted + [Emitted(s, bar)], Listed(ready, s, bar), handed)
  {
    var more, listed := emitted + [Emitted(s, bar)], Listed(ready, s, bar);
    assert more[|emitted|] == Emitted(s, bar);
    NotYet(emitted, ready, handed, s, bar);
    forall k | 0 <= k < |more| ensures Somewhere(more, listed, handed, k) {
      if k < |emitted| { assert Somewhere(emitted, ready, handed, k); }
    }
    forall t | t in listed ensures Genuine(more, t, listed[t]) {
      if t in ready { assert Genuine(emitted, t, ready[t]); }
    }
    forall h | 0 <= h < |handed| ensures GenuineBatch(more, handed, h) { assert GenuineBatch(emitted, handed, h); }
    forall h, t | 0 <= h < |handed| && t in listed ensures ApartFrom(listed, handed, h, t) {
      if t in ready { assert ApartFrom(ready, handed, h, t); }
    }
    forall h, l | 0 <= h < l < |handed| ensures ApartEach(handed, h, l) { assert ApartEach(handed, h, l); }
  }

  lemma NotYet(emitted: seq<Emitted>, ready: Ready, handed: seq<Batch>, s: nat, bar: Bar)
    requires Flow(emitted, ready, handed)
    requires forall k :: 0 <= k < |emitted| && emitted[k].symbol == s ==> emitted[k].bar.start < bar.start
    ensures bar.start in ready ==> s !in ready[bar.start]
    ensures forall h :: 0 <= h < |handed| && handed[h].ts == bar.start ==> s !in handed[h].bars
  {
    assert bar.start in ready ==> Genuine(emitted, bar.start, ready[bar.start]);
    forall h | 0 <= h < |handed| && handed[h].ts == bar.start ensures s !in handed[h].bars {
      assert GenuineBatch(emitted, handed, h);
    }
  }

  /** From `ready` to `left` the times of `added` were handed on, earliest first, and none earlier stays. */
  ghost predicate Drained(ready: Ready, left: Ready, added: seq<Batch>) {
    && (forall i {:trigger TakenFrom(ready, left, added, i)} :: 0 <= i < |added| ==> TakenFrom(ready, left, added, i))
    && (forall i, j {:trigger Sooner(added, i, j)} :: 0 <= i < j < |added| ==> Sooner(added, i, j))
    && (forall t {:trigger Kept(ready, left, added, t)} :: t in ready || t in left ==> Kept(ready, left, added, t))
  }

  /** The batch is the one of its ready time, and earlier than all that stay. */
  predicate TakenFrom(ready: Ready, left: Ready, added: seq<Batch>, i: nat)
    requires i < |added|
  {
    && added[i].ts in ready && added[i].ts !in left && added[i].bars == ready[added[i].ts]
    && forall t :: t in left ==> added[i].ts < t
  }

  predicate Sooner(added: seq<Batch>, i: nat, j: nat)
    requires i < |added| && j < |added|
  {
    added[i].ts < added[j].ts
  }

  /** A ready time stays as it was or was handed on. */
  predicate Kept(ready: Ready, left: Ready, added: seq<Batch>, t: nat) {
    if t in left then t in ready && left[t] == ready[t] else exists i :: 0 <= i < |added| && added[i].ts == t
  }

  lemma DrainOne(ready: Ready, left: Ready, added: seq<Batch>, ts: nat)
    requires Drained(ready, left, added) && ts in left && forall t :: t in left ==> ts <= t
    ensures Drained(ready, left - {ts}, added + [Batch(ts, left[ts])])
  {
    var more, rest := added + [Batch(ts, left[ts])], left - {ts};
    assert Kept(ready, left, added, ts);
    forall i | 0 <= i < |more| ensures TakenFrom(ready, rest, more, i) {
      if i < |added| { assert TakenFrom(ready, left, added, i); }
    }
    forall i, j | 0 <= i < j < |more| ensures Sooner(more, i, j) {
      if j < |added| { assert Sooner(added, i, j); } else { assert TakenFrom(ready, left, added, i); }
    }
    forall t | t in ready || t in rest ensures Kept(ready, rest, more, t) {
      assert Kept(ready, left, added, t);
      if t == ts {
        assert more[|added|].ts == t;
      } else if t !in left {
        var i :| 0 <= i < |added| && added[i].ts == t;
        assert more[i].ts == t;
      }
    }
  }

  /** Every symbol, and nothing else, has its bar. */
  predicate HasAll(bars: map<nat, Bar>, symbols: nat) {
    (forall s :: 0 <= s < symbols ==> s in bars) && forall s :: s in bars ==> s < symbols
  }

  predicate AllComplete(batches: seq<Batch>, symbols: nat) {
    forall i :: 0 <= i < |batches| ==> HasAll(batches[i].bars, symbols)
  }

  /** Draining goes to the end when forced, else over complete times up to the first incomplete one. */
  ghost predicate Stops(left: Ready, added: seq<Batch>, symbols: nat, force: bool) {
    if force then left.Keys == {}
    else
      && AllComplete(added, symbols)
      && (left.Keys != {} ==> exists t :: t in left && !HasAll(left[t], symbols) && forall u :: u in left ==> t <= u)
  }

  /** Hand ready times on; false is an error raised by the trader, which ends it with that batch gone and not
      retried. */
  method Drain(ghost emitted: seq<Emitted>, ready: Ready, ghost handed: seq<Batch>, symbols: nat, force: bool)
    returns (left: Ready, ghost added: seq<Batch>, ok: bool)
    requires Flow(emitted, ready, handed)
    ensures Flow(emitted, left, handed + added) && Drained(ready, left, added)
    ensures if ok then Stops(left, added, symbols, force) else added != [] && (force || AllComplete(added, symbols))
  {
    left, added, ok := ready, [], true;
    assert handed + added == handed;
    while left.Keys != {}
      invariant Flow(emitted, left, handed + added)
      invariant Drained(ready, left, added)
      invariant force || AllComplete(added, symbols)
      decreases |left.Keys|
    {
      var ts := Earliest(left.Keys);
      if !force {
        var full := Full(left[ts], symbols);
        if !full { return; }
      }
      HandOn(emitted, left, handed + added, ts);
      DrainOne(ready, left, added, ts);
      OneLess(left, ts);
      assert handed + (added + [Batch(ts, left[ts])]) == (handed + added) + [Batch(ts, left[ts])];
      added := added + [Batch(ts, left[ts])];
      left := left - {ts};
      // The trader processes the batch, or raises.
      ok := *;
      if !ok { return; }
    }
  }

  lemma OneLess(ready: Ready, ts: nat)
    requires ts in ready
    ensures |(ready - {ts}).Keys| < |ready.Keys|
  {
    assert ready.Keys == (ready - {ts}).Keys + {ts};
  }

  /** The start of the five minutes a minute belongs to. */
  method WindowStart(ts: nat) returns (start: nat)
    ensures start == Floor5(ts)
  {
    start := ts / 5 * 5;
  }

  method Extend(buckets: map<nat, Bucket>, m: Minute) returns (bucket: Bucket)
    ensures bucket == Extended(buckets, m)
  {
    if m.symbol !in buckets {
      var start := WindowStart(m.ts);
      return Bucket(Bar(start, m.open, m.high, m.low, m.close, m.volume), {m.ts % 60});
    }
    var b := buckets[m.symbol];
    var high := if m.high > b.bar.high then m.high else b.bar.high;
    var low := if m.low < b.bar.low then m.low else b.bar.low;
    bucket := Bucket(Bar(b.bar.start, b.bar.open, high, low, m.close, b.bar.volume + m.volume),
                     b.minutes + {m.ts % 60});
  }

  /** All symbols have their bars. */
  method Full(bars: map<nat, Bar>, symbols: nat) returns (full: bool)
    ensures full <==> HasAll(bars, symbols)
  {
    var rest := bars.Keys;
    for s := 0 to symbols
      invariant rest == bars.Keys - set t | t in bars && t < s
      invariant forall t :: 0 <= t < s ==> t in bars
    {
      if s !in bars { return false; }
      rest := rest - {s};
    }
    assert forall t :: t in rest <==> t in bars && t >= symbols;
    full := rest == {};
  }

  class BarFeed {
    const symbols: nat
    const session: int -> Option<(int, int)>
    const lateness: nat
    var lastMinute: map<nat, nat>
    var lastClosed: map<nat, nat>
    var buckets: map<nat, Bucket>
    var ready: Ready
    ghost var accepted: seq<Minute>
    ghost var emitted: seq<Emitted>
    /** The batches handed to the trader. */
    ghost var handed: seq<Batch>

    /** Every bar finished so far is the aggregate of exactly the five accepted minutes of its window, each symbol's
        bars come once each in increasing order, and each waits or was handed on once. */
    ghost predicate Valid()
      reads this`accepted, this`emitted, this`buckets, this`lastMinute, this`lastClosed, this`ready, this`handed
    {
      Feeding() && Flowing()
    }

    ghost predicate Feeding()
      reads this`accepted, this`emitted, this`buckets, this`lastMinute, this`lastClosed
    {
      FeedOk(accepted, emitted, buckets, lastMinute, lastClosed)
    }

    ghost predicate Flowing()
      reads this`emitted, this`ready, this`handed
    {
      Flow(emitted, ready, handed)
    }

    /** A feed whose symbols may have been seeded with older bars. */
    constructor (count: nat, sessions: int -> Option<(int, int)>, late: nat, seeded: map<nat, nat>)
      ensures Valid() && symbols == count && session == sessions && lateness == late
      ensures accepted == [] && emitted == [] && handed == [] && lastClosed == seeded
      ensures lastMinute == map[] && buckets == map[] && ready == map[]
    {
      symbols, session, lateness := count, sessions, late;
      lastMinute, lastClosed, buckets, ready := map[], seeded, map[], map[];
      accepted, emitted, handed := [], [], [];
    }

    ghost predicate InRegularHours(t: int) { InHours(session, t) }

    /** Hand ready times on in order: all of them when forced, else only while every symbol has its bar; an error ends
        it with the batch that raised. */
    method DrainReady(force: bool) returns (ok: bool)
      requires Flowing()
      modifies this`ready, this`handed
      ensures Flowing() && old(handed) <= handed
      ensures Drained(old(ready), ready, handed[|old(handed)|..])
      ensures if ok then Stops(ready, handed[|old(handed)|..], symbols, force)
        else handed != old(handed) && (force || AllComplete(handed[|old(handed)|..], symbols))
    {
      var left;
      ghost var added;
      left, added, ok := Drain(emitted, ready, handed, symbols, force);
      ready, handed := left, handed + added;
      assert handed[|old(handed)|..] == added;
    }

    /** Close the bucket of a symbol; only one with all five minutes becomes a bar, and then complete times go on, until
        the trader raises. */
    method Finish(s: nat) returns (bar: Option<Bar>, ok: bool)
      requires Valid() && s in buckets
      modifies this`buckets, this`lastClosed, this`ready, this`emitted, this`handed
      ensures Valid() && buckets == old(buckets) - {s} && lastClosed == old(lastClosed)[s := old(buckets)[s].bar.start]
      ensures bar == Completed(old(buckets)[s])
      ensures emitted == old(emitted) + if bar.Some? then [Emitted(s, bar.value)] else []
      ensures old(handed) <= handed && (bar.None? ==> ok && ready == old(ready) && handed == old(handed))
      ensures bar.Some? ==> Drained(Listed(old(ready), s, bar.value), ready, handed[|old(handed)|..])
      ensures bar.Some? ==>
        if ok then Stops(ready, handed[|old(handed)|..], symbols, false)
        else handed != old(handed) && AllComplete(handed[|old(handed)|..], symbols)
    {
      NewerBar(s);
      bar := CloseBucket(s);
      ok := true;
      if bar.None? {
        assert emitted == old(emitted);
        return;
      }
      ListBar(old(emitted), ready, handed, s, bar.value);
      var start := bar.value.start;
      var others: map<nat, Bar> := if start in ready then ready[start] else map[];
      ready := ready[start := others[s := bar.value]];
      ok := DrainReady(false);
    }

    /** The open bucket of a symbol is newer than all its finished bars. */
    lemma NewerBar(s: nat)
      requires Feeding() && s in buckets
      ensures forall k :: 0 <= k < |emitted| && emitted[k].symbol == s ==> emitted[k].bar.start < buckets[s].bar.start
    {
      assert BucketOk(s, buckets[s], accepted, lastMinute, lastClosed);
    }

    method CloseBucket(s: nat) returns (bar: Option<Bar>)
      requires Feeding() && s in buckets
      modifies this`buckets, this`lastClosed, this`emitted
      ensures Feeding() && buckets == old(buckets) - {s}
        && lastClosed == old(lastClosed)[s := old(buckets)[s].bar.start]
      ensures bar == Completed(old(buckets)[s])
      ensures emitted == old(emitted) + if bar.Some? then [Emitted(s, bar.value)] else []
    {
      var b := buckets[s];
      CloseKeepsFeed(accepted, emitted, buckets, lastMinute, lastClosed, s);
      buckets := buckets - {s};
      lastClosed := lastClosed[s := b.bar.start];
      bar := None;
      if |b.minutes| == 5 {
        bar := Some(b.bar);
        emitted := emitted + [Emitted(s, b.bar)];
      }
    }

    /** One minute from the stream: stale ones are dropped, a new window closes the bucket of the old one. An error
        raised by the trader meanwhile loses this minute: only the clock of its symbol has moved. */
    method OnMinuteBar(m: Minute) returns (bar: Option<Bar>, ok: bool)
      requires Valid()
      modifies this
      ensures Valid()
      ensures ok || (bar.None? && old(Finishes(m)).Some? && handed != old(handed))
      ensures ok ==> bar == old(Finishes(m))
      ensures accepted == old(accepted) + if ok && old(Takes(m)) then [m] else []
      ensures emitted == old(emitted)
        + if old(Finishes(m)).Some? then [Emitted(m.symbol, old(Finishes(m)).value)] else []
      ensures old(handed) <= handed && (old(Finishes(m)).None? ==> handed == old(handed) && ready == old(ready))
      ensures buckets ==
        var kept := if old(Takes(m) && Rolls(m)) then old(buckets) - {m.symbol} else old(buckets);
        if ok && old(Takes(m)) then kept[m.symbol := Extended(kept, m)] else kept
      ensures lastClosed ==
        if old(Takes(m) && Rolls(m)) then old(lastClosed)[m.symbol := old(buckets)[m.symbol].bar.start]
        else old(lastClosed)
      ensures lastMinute == if old(Moves(m)) then old(lastMinute)[m.symbol := m.ts] else old(lastMinute)
    {
      bar, ok := None, true;
      hide Floor5, Flow, FeedOk, Extended;
      var s, bounds := m.symbol, session(m.ts);
      var start := WindowStart(m.ts);
      if s >= symbols || bounds.None? || m.ts < bounds.value.0 || bounds.value.1 <= m.ts { return; }
      if s in lastMinute && m.ts <= lastMinute[s] { return; }
      if s in lastClosed && start <= lastClosed[s] {
        DropKeepsFeed(accepted, emitted, buckets, lastMinute, lastClosed, s, m.ts);
        lastMinute := lastMinute[s := m.ts];
        return;
      }
      if s in buckets && buckets[s].bar.start != start {
        bar, ok := Roll(m);
        if !ok { return None, false; }
      }
      Accept(m);
    }

    /** Close the bucket of the old window; an error raised by the trader moves the symbol's clock only. */
    method Roll(m: Minute) returns (bar: Option<Bar>, ok: bool)
      requires Valid() && Takes(m) && Rolls(m)
      modifies this
      ensures Valid() && bar == old(Finishes(m)) && accepted == old(accepted)
      ensures ok || (bar.Some? && handed != old(handed))
      ensures emitted == old(emitted) + if bar.Some? then [Emitted(m.symbol, bar.value)] else []
      ensures old(handed) <= handed && (bar.None? ==> handed == old(handed) && ready == old(ready))
      ensures buckets == old(buckets) - {m.symbol}
      ensures lastClosed == old(lastClosed)[m.symbol := old(buckets)[m.symbol].bar.start]
      ensures lastMinute == if ok then old(lastMinute) else old(lastMinute)[m.symbol := m.ts]
      ensures Floor5(m.ts) > lastClosed[m.symbol]
    {
      WindowsAdvance(m.symbol, m.ts);
      bar, ok := Finish(m.symbol);
      if !ok {
        ClockKeepsFeed(accepted, emitted, buckets, lastMinute, lastClosed, m.symbol, m.ts);
        lastMinute := lastMinute[m.symbol := m.ts];
      }
    }

    /** The bar the minute finishes, if it does. */
    ghost function Finishes(m: Minute): Option<Bar>
      reads this`lastMinute, this`lastClosed, this`buckets
    {
      if Takes(m) && Rolls(m) then Completed(buckets[m.symbol]) else None
    }

    /** Start a bucket with the minute or add it to the open one. */
    method Accept(m: Minute)
      requires Feeding() && (m.symbol in lastMinute ==> m.ts > lastMinute[m.symbol])
      requires m.symbol in lastClosed ==> Floor5(m.ts) > lastClosed[m.symbol]
      requires m.symbol in buckets ==> buckets[m.symbol].bar.start == Floor5(m.ts)
      modifies this`lastMinute, this`buckets, this`accepted
      ensures Feeding() && accepted == old(accepted) + [m]
      ensures lastMinute == old(lastMinute)[m.symbol := m.ts]
        && buckets == old(buckets)[m.symbol := Extended(old(buckets), m)]
    {
      AcceptKeepsFeed(accepted, emitted, buckets, lastMinute, lastClosed, m);
      lastMinute := lastMinute[m.symbol := m.ts];
      var bucket := Extend(buckets, m);
      buckets := buckets[m.symbol := bucket];
      accepted := accepted + [m];
    }

    /** The minute is for a known symbol, in session and newer than its predecessor. */
    ghost predicate Moves(m: Minute)
      reads this`lastMinute
    {
      m.symbol < symbols && InRegularHours(m.ts) && (m.symbol in lastMinute ==> m.ts > lastMinute[m.symbol])
    }

    /** And newer than the last closed bar. */
    ghost predicate Takes(m: Minute)
      reads this`lastMinute, this`lastClosed
    {
      Moves(m) && (m.symbol in lastClosed ==> Floor5(m.ts) > lastClosed[m.symbol])
    }

    /** The minute belongs to another window than the open bucket of its symbol. */
    predicate Rolls(m: Minute)
      reads this`buckets
    {
      m.symbol in buckets && Floor5(m.ts) != buckets[m.symbol].bar.start
    }

    lemma WindowsAdvance(s: nat, ts: nat)
      requires Feeding() && s in buckets && (s in lastMinute ==> ts > lastMinute[s])
        && Floor5(ts) != buckets[s].bar.start
      ensures Floor5(ts) > buckets[s].bar.start
    {
      assert BucketOk(s, buckets[s], accepted, lastMinute, lastClosed);
      WindowsRise(lastMinute[s], ts);
    }

    /** The heartbeat: exactly the overdue buckets are closed, and whatever is ready is handed on, complete or not. An
        error raised by the trader leaves the buckets of the later symbols, or the later ready times, for the next. */
    method Tick(now: int) returns (ok: bool, ghost reached: nat)
      requires Valid()
      modifies this`buckets, this`lastClosed, this`ready, this`emitted, this`handed
      ensures Valid() && old(emitted) <= emitted && old(handed) <= handed
      ensures Closed(old(buckets), buckets, emitted, reached, now - 5 - lateness)
      ensures reached <= symbols && (ok ==> reached == symbols)
      ensures ok ==> ready.Keys == {} && forall k :: 0 <= k < |emitted| ==> GoneOn(handed, emitted[k])
    {
      ghost var before := buckets;
      reached := 0;
      for s := 0 to symbols
        invariant reached == s && Valid() && Closed(before, buckets, emitted, s, now - 5 - lateness)
        invariant old(emitted) <= emitted && old(handed) <= handed
      {
        ok := FinishOverdue(before, s, now);
        reached := s + 1;
        if !ok { return; }
      }
      ok := DrainReady(true);
      if ok { NothingWaits(emitted, ready, handed); }
    }

    method FinishOverdue(ghost before: map<nat, Bucket>, s: nat, now: int) returns (ok: bool)
      requires Valid() && Closed(before, buckets, emitted, s, now - 5 - lateness)
      modifies this`buckets, this`lastClosed, this`ready, this`emitted, this`handed
      ensures Valid() && Closed(before, buckets, emitted, s + 1, now - 5 - lateness)
      ensures old(emitted) <= emitted && old(handed) <= handed
    {
      ghost var was, finished := buckets, emitted;
      ok := true;
      if s in buckets && now >= buckets[s].bar.start + 5 + lateness {
        var bar;
        bar, ok := Finish(s);
      }
      CloseOne(before, was, buckets, finished, emitted, s, now - 5 - lateness);
    }
  }

  function Completed(b: Bucket): Option<Bar> { if |b.minutes| == 5 then Some(b.bar) else None }

  predicate Overdue(b: Bucket, limit: int) { b.bar.start <= limit }

  /** Of the first `n` symbols exactly the overdue buckets were closed, and each complete one became a bar. */
  predicate Closed(before: map<nat, Bucket>, now: map<nat, Bucket>, emitted: seq<Emitted>, n: nat, limit: int) {
    && now.Keys <= before.Keys
    && forall s :: s in before ==>
      if s < n && Overdue(before[s], limit) then
        s !in now && (Completed(before[s]).Some? ==> Emitted(s, before[s].bar) in emitted)
      else s in now && now[s] == before[s]
  }

  lemma CloseOne(before: map<nat, Bucket>, was: map<nat, Bucket>, now: map<nat, Bucket>, finished: seq<Emitted>,
                 emitted: seq<Emitted>, s: nat, limit: int)
    requires Closed(before, was, finished, s, limit)
    requires if s in was && Overdue(was[s], limit) then
        now == was - {s} && emitted == finished + if Completed(was[s]).Some? then [Emitted(s, was[s].bar)] else []
      else now == was && emitted == finished
    ensures Closed(before, now, emitted, s + 1, limit)
  {
    if emitted != finished { assert emitted[|finished|] == Emitted(s, was[s].bar); }
  }

  method Earliest(times: set<nat>) returns (ts: nat)
    requires times != {}
    ensures ts in times && forall t :: t in times ==> ts <= t
  {
    ts :| ts in times;
    var rest := times - {ts};
    while rest != {}
      invariant ts in times && rest <= times && forall t :: t in times && t !in rest ==> ts <= t
      decreases |rest|
    {
      var t: nat :| t in rest;
      rest := rest - {t};
      if t < ts { ts := t; }
    }
  }

  // --- what the trader makes of the batches ---

  /** The trader's watermark after the first `n` batches: it follows every batch in session hours that is later. */
  ghost function Watermark(session: int -> Option<(int, int)>, handed: seq<Batch>, n: nat): Option<nat>
    requires n <= |handed|
  {
    if n == 0 then None
    else
      var before, ts := Watermark(session, handed, n - 1), handed[n - 1].ts;
      if InHours(session, ts) && (before.None? || ts > before.value) then Some(ts) else before
  }

  /** The trader processes a batch in session hours that is later than its watermark, and ignores any other. */
  ghost predicate Processed(session: int -> Option<(int, int)>, handed: seq<Batch>, h: nat)
    requires h < |handed|
  {
    var mark := Watermark(session, handed, h);
    InHours(session, handed[h].ts) && (mark.None? || handed[h].ts > mark.value)
  }

  lemma {:induction false} WatermarkIsLatest(session: int -> Option<(int, int)>, handed: seq<Batch>, n: nat)
    requires n <= |handed|
    ensures var mark := Watermark(session, handed, n);
      && (forall l :: 0 <= l < n && InHours(session, handed[l].ts) ==> mark.Some? && handed[l].ts <= mark.value)
      && (mark.Some? ==> exists l :: 0 <= l < n && InHours(session, handed[l].ts) && handed[l].ts == mark.value)
  {
    if n == 0 {
    } else {
      WatermarkIsLatest(session, handed, n - 1);
    }
  }

  /** A finished bar is never processed exactly when its batch lies outside session hours, or an earlier batch in
      session hours was as late or later: bars handed on at or before the watermark are lost. */
  lemma LateBarsAreIgnored(session: int -> Option<(int, int)>, emitted: seq<Emitted>, ready: Ready, handed: seq<Batch>,
                           k: nat, h: nat)
    requires Flow(emitted, ready, handed) && k < |emitted| && h < |handed| && Went(handed[h], emitted[k])
    ensures forall l :: 0 <= l < |handed| && l != h ==> !Went(handed[l], emitted[k])
    ensures Processed(session, handed, h) <==>
      && InHours(session, emitted[k].bar.start)
      && forall l :: 0 <= l < h && InHours(session, handed[l].ts) ==> handed[l].ts < emitted[k].bar.start
  {
    forall l | 0 <= l < |handed| && l != h ensures !Went(handed[l], emitted[k]) {
      if l < h { assert ApartEach(handed, l, h); } else { assert ApartEach(handed, h, l); }
    }
    WatermarkIsLatest(session, handed, h);
  }
}
