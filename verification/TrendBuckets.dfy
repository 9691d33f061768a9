/** Zero filling of usage trend charts (src/api/console.rs).

One pass walks the expected buckets and the query's rows side by side.  It is exact when no row is
older than the first bucket; a single older row makes it return zeros everywhere, and the query's
lower bound always leaves room for such a row. */
module TrendBuckets {

  datatype Point = Point(ts: int, calls: int, inputTokens: int, outputTokens: int, cost: real)

  function Zero(ts: int): Point {
    Point(ts, 0, 0, 0, 0.0)
  }

  /** The i-th bucket of a window. */
  function Slot(start: int, bucket: int, i: int): int {
    start + i * bucket
  }

  /** On the bucket grid. */
  ghost predicate Aligned(ts: int, bucket: int) {
    exists k :: ts == Slot(0, bucket, k)
  }

  /** The start of the bucket that holds an instant. */
  function BucketOf(instant: int, bucket: int): int
    requires bucket > 0
  {
    instant - instant % bucket
  }

  function WindowStart(now: int, bucket: int, count: nat): int
    requires bucket > 0
  {
    BucketOf(now, bucket) - (count - 1) * bucket
  }

  /** Rows as the query returns them: one per bucket with calls, oldest first. */
  ghost predicate QueryRows(rows: seq<Point>, bucket: int)
    requires bucket > 0
  {
    && (forall i :: 0 <= i < |rows| ==> Aligned(rows[i].ts, bucket) && rows[i].calls > 0)
    && (forall i, j :: 0 <= i < j < |rows| ==> rows[i].ts < rows[j].ts)
  }

  /** What the chart should show for a bucket. */
  function PointAt(rows: seq<Point>, ts: int): Point {
    if rows == [] then Zero(ts)
    else if rows[0].ts == ts then rows[0]
    else PointAt(rows[1..], ts)
  }

  ghost predicate Exact(out: seq<Point>, rows: seq<Point>, start: int, bucket: int, count: nat) {
    |out| == count && forall i :: 0 <= i < count ==> out[i] == PointAt(rows, Slot(start, bucket, i))
  }

  ghost predicate AllZero(out: seq<Point>, start: int, bucket: int, count: nat) {
    |out| == count && forall i :: 0 <= i < count ==> out[i] == Zero(Slot(start, bucket, i))
  }

  /** The single pass, from the bucket `ts` on. */
  function Fill(rows: seq<Point>, ts: int, bucket: int, count: nat): seq<Point>
    decreases count
  {
    if count == 0 then []
    else if rows != [] && rows[0].ts == ts then [rows[0]] + Fill(rows[1..], ts + bucket, bucket, count - 1)
    else [Zero(ts)] + Fill(rows, ts + bucket, bucket, count - 1)
  }

  lemma NextSlot(start: int, bucket: int, i: int)
    ensures Slot(start, bucket, i) + bucket == Slot(start, bucket, i + 1)
    ensures Slot(start + bucket, bucket, i) == Slot(start, bucket, i + 1)
    ensures Slot(start, bucket, 0) == start
  {
  }

  lemma FillStep(rows: seq<Point>, out: seq<Point>, ts: int, bucket: int, n: nat)
    requires n > 0
    ensures var hit := rows != [] && rows[0].ts == ts;
      (out + [if hit then rows[0] else Zero(ts)])
      + Fill(if hit then rows[1..] else rows, ts + bucket, bucket, n - 1)
      == out + Fill(rows, ts, bucket, n)
  {
  }

  /** `fill_bucket_gaps_at`. */
  method FillBucketGaps(rows: seq<Point>, now: int, bucket: int, count: nat) returns (out: seq<Point>)
    requires bucket > 0
    ensures out == Fill(rows, WindowStart(now, bucket, count), bucket, count)
  {
    var start := now - now % bucket - (count - 1) * bucket;
    out := [];
    var next := 0;
    for i := 0 to count
      invariant next <= |rows|
      invariant out + Fill(rows[next..], Slot(start, bucket, i), bucket, count - i) == Fill(rows, start, bucket, count)
    {
      var ts := Slot(start, bucket, i);
      NextSlot(start, bucket, i);
      FillStep(rows[next..], out, ts, bucket, count - i);
      if next < |rows| && rows[next].ts == ts {
        assert rows[next..][1..] == rows[next + 1..];
        out := out + [rows[next]];
        next := next + 1;
      } else {
        out := out + [Zero(ts)];
      }
    }
  }

  // ---------- when the pass is exact ----------

  lemma SlotsAscend(start: int, bucket: int, i: int, j: int)
    requires bucket > 0 && i < j
    ensures Slot(start, bucket, i) + bucket <= Slot(start, bucket, j)
  {
    assert (j - i - 1) * bucket >= 0;
  }

  lemma AlignedGap(a: int, b: int, bucket: int)
    requires bucket > 0 && Aligned(a, bucket) && Aligned(b, bucket) && a < b
    ensures a + bucket <= b
  {
    var i :| a == Slot(0, bucket, i);
    var j :| b == Slot(0, bucket, j);
    if j < i {
      SlotsAscend(0, bucket, j, i);
    } else if i < j {
      SlotsAscend(0, bucket, i, j);
    }
  }

  lemma AlignedNext(a: int, bucket: int)
    requires Aligned(a, bucket)
    ensures Aligned(a + bucket, bucket)
  {
    var i :| a == Slot(0, bucket, i);
    NextSlot(0, bucket, i);
  }

  lemma AlignedPrevious(a: int, bucket: int)
    requires Aligned(a, bucket)
    ensures Aligned(a - bucket, bucket)
  {
    var i :| a == Slot(0, bucket, i);
    NextSlot(0, bucket, i - 1);
  }

  lemma {:induction false} NoRowAt(rows: seq<Point>, ts: int)
    requires !RowAt(rows, ts)
    ensures PointAt(rows, ts) == Zero(ts)
  {
    if rows != [] {
      assert rows[0].ts != ts;
      assert !RowAt(rows[1..], ts);
      NoRowAt(rows[1..], ts);
    }
  }

  lemma ExactCons(out: seq<Point>, p: Point, rows: seq<Point>, rest: seq<Point>, ts: int, bucket: int, count: nat)
    requires bucket > 0 && Exact(out, rest, ts + bucket, bucket, count) && p == PointAt(rows, ts)
    requires rows == rest || (rows != [] && rows[0].ts == ts && rest == rows[1..])
    ensures Exact([p] + out, rows, ts, bucket, count + 1)
  {
    forall i | 0 <= i < count + 1 ensures ([p] + out)[i] == PointAt(rows, Slot(ts, bucket, i)) {
      if i == 0 {
        NextSlot(ts, bucket, 0);
      } else {
        ExactLater(out, rows, rest, ts, bucket, count, i);
      }
    }
  }

  lemma ExactLater(out: seq<Point>, rows: seq<Point>, rest: seq<Point>, ts: int, bucket: int, count: nat, i: nat)
    requires bucket > 0 && Exact(out, rest, ts + bucket, bucket, count) && 0 < i <= count
    requires rows == rest || (rows != [] && rows[0].ts == ts && rest == rows[1..])
    ensures out[i - 1] == PointAt(rows, Slot(ts, bucket, i))
  {
    NextSlot(ts, bucket, i - 1);
    LaterPoint(rows, rest, ts, bucket, i);
    assert out[i - 1] == PointAt(rest, Slot(ts + bucket, bucket, i - 1));
  }

  lemma LaterPoint(rows: seq<Point>, rest: seq<Point>, ts: int, bucket: int, i: nat)
    requires bucket > 0 && i > 0
    requires rows == rest || (rows != [] && rows[0].ts == ts && rest == rows[1..])
    ensures PointAt(rows, Slot(ts, bucket, i)) == PointAt(rest, Slot(ts, bucket, i))
  {
    SlotsAscend(ts, bucket, 0, i);
  }

  /** With no row before the first bucket, every point is its row or zero. */
  lemma {:induction false} FillIsExact(rows: seq<Point>, ts: int, bucket: int, count: nat)
    requires bucket > 0 && QueryRows(rows, bucket) && Aligned(ts, bucket)
    requires rows != [] ==> rows[0].ts >= ts
    ensures Exact(Fill(rows, ts, bucket, count), rows, ts, bucket, count)
    decreases count
  {
    if count > 0 {
      AlignedNext(ts, bucket);
      if rows != [] && rows[0].ts == ts {
        if |rows| > 1 {
          AlignedGap(ts, rows[1].ts, bucket);
        }
        FillIsExact(rows[1..], ts + bucket, bucket, count - 1);
        ExactCons(Fill(rows[1..], ts + bucket, bucket, count - 1), rows[0], rows, rows[1..], ts, bucket, count - 1);
      } else {
        if rows != [] {
          AlignedGap(ts, rows[0].ts, bucket);
        }
        NoRowAt(rows, ts);
        FillIsExact(rows, ts + bucket, bucket, count - 1);
        ExactCons(Fill(rows, ts + bucket, bucket, count - 1), Zero(ts), rows, rows, ts, bucket, count - 1);
      }
    }
  }

  /** A row before the first bucket is never passed: everything after it is lost. */
  lemma {:induction false} OlderRowBlanks(rows: seq<Point>, ts: int, bucket: int, count: nat)
    requires bucket > 0 && rows != [] && rows[0].ts < ts
    ensures AllZero(Fill(rows, ts, bucket, count), ts, bucket, count)
    decreases count
  {
    if count > 0 {
      OlderRowBlanks(rows, ts + bucket, bucket, count - 1);
      NextSlot(ts, bucket, 0);
      forall i | 0 <= i < count ensures Fill(rows, ts, bucket, count)[i] == Zero(Slot(ts, bucket, i)) {
        if i > 0 {
          NextSlot(ts, bucket, i - 1);
        }
      }
    }
  }

  /** Some bucket of the window has a row. */
  ghost predicate WindowHasRow(rows: seq<Point>, start: int, bucket: int, count: nat) {
    exists i :: 0 <= i < count && RowAt(rows, Slot(start, bucket, i))
  }

  ghost predicate RowAt(rows: seq<Point>, ts: int) {
    exists k :: 0 <= k < |rows| && rows[k].ts == ts
  }

  lemma {:induction false} RowIsShown(rows: seq<Point>, ts: int, bucket: int)
    requires bucket > 0 && QueryRows(rows, bucket) && RowAt(rows, ts)
    ensures PointAt(rows, ts).calls > 0
  {
    if rows[0].ts != ts {
      var k :| 0 <= k < |rows| && rows[k].ts == ts;
      assert rows[1..][k - 1].ts == ts;
      RowIsShown(rows[1..], ts, bucket);
    }
  }

  /** The chart is right exactly when no row is older than the window, or the window is empty anyway. */
  lemma FillIsExactIff(rows: seq<Point>, now: int, bucket: int, count: nat)
    requires bucket > 0 && QueryRows(rows, bucket)
    ensures var start := WindowStart(now, bucket, count);
      Exact(Fill(rows, start, bucket, count), rows, start, bucket, count)
      <==> rows == [] || rows[0].ts >= start || !WindowHasRow(rows, start, bucket, count)
  {
    var start := WindowStart(now, bucket, count);
    if rows == [] || rows[0].ts >= start {
      StartIsAligned(now, bucket, count);
      FillIsExact(rows, start, bucket, count);
    } else {
      OlderRowBlanks(rows, start, bucket, count);
      if WindowHasRow(rows, start, bucket, count) {
        var i :| 0 <= i < count && RowAt(rows, Slot(start, bucket, i));
        RowIsShown(rows, Slot(start, bucket, i), bucket);
      } else {
        forall i | 0 <= i < count ensures PointAt(rows, Slot(start, bucket, i)) == Zero(Slot(start, bucket, i)) {
          assert !RowAt(rows, Slot(start, bucket, i));
          NoRowAt(rows, Slot(start, bucket, i));
        }
      }
    }
  }

  lemma BucketIsAligned(instant: int, bucket: int)
    requires bucket > 0
    ensures BucketOf(instant, bucket) == Slot(0, bucket, instant / bucket)
    ensures BucketOf(instant, bucket) <= instant < BucketOf(instant, bucket) + bucket
  {
  }

  lemma StartIsAligned(now: int, bucket: int, count: nat)
    requires bucket > 0
    ensures Aligned(WindowStart(now, bucket, count), bucket)
  {
    BucketIsAligned(now, bucket);
    assert WindowStart(now, bucket, count) == Slot(0, bucket, now / bucket - (count - 1));
  }

  // ---------- the query's bound ----------

  /** The query's lower bound on a call's time. */
  predicate Selected(instant: int, now: int, bucket: int, count: nat) {
    instant >= now - count * bucket
  }

  /** The bound selects a whole stretch of instants before the window, at every time of day: calls
      from then on up to the window's start all fall into the one bucket before it. */
  lemma BoundAdmitsOlderBucket(instant: int, now: int, bucket: int, count: nat)
    requires bucket > 0
    ensures var start := WindowStart(now, bucket, count);
      && now - count * bucket < start
      && (Selected(instant, now, bucket, count) && instant < start
          ==> BucketOf(instant, bucket) == start - bucket)
      && (instant >= start ==> BucketOf(instant, bucket) >= start)
  {
    var start, at, current := WindowStart(now, bucket, count), BucketOf(instant, bucket), BucketOf(now, bucket);
    BucketIsAligned(now, bucket);
    BucketIsAligned(instant, bucket);
    OneLess(count, bucket);
    BucketsAround(instant, now, bucket, count, at, start);
    BoundOnTheLine(instant, now, bucket, count * bucket, at, current, start);
  }

  lemma OneLess(count: nat, bucket: int)
    ensures (count - 1) * bucket == count * bucket - bucket
  {
  }

  lemma BucketsAround(instant: int, now: int, bucket: int, count: nat, at: int, start: int)
    requires bucket > 0 && at == BucketOf(instant, bucket) && start == WindowStart(now, bucket, count)
    ensures at < start ==> at + bucket <= start
    ensures at < start - bucket ==> at + bucket <= start - bucket
  {
    StartIsAligned(now, bucket, count);
    AlignedPrevious(start, bucket);
    BucketIsAligned(instant, bucket);
    if at < start - bucket {
      AlignedGap(at, start - bucket, bucket);
    }
    if at < start {
      AlignedGap(at, start, bucket);
    }
  }

  lemma BoundOnTheLine(instant: int, now: int, bucket: int, span: int, at: int, current: int, start: int)
    requires at <= instant < at + bucket && current <= now < current + bucket && start == current - span + bucket
    requires at < start ==> at + bucket <= start
    requires at < start - bucket ==> at + bucket <= start - bucket
    ensures now - span < start
    ensures now - span <= instant < start ==> at == start - bucket
    ensures instant >= start ==> at >= start
  {
  }
}
