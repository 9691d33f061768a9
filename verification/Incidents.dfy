/** Incident detection on the status page (src/api/status.rs).

Hours with enough calls and a high error rate are bad; neighbouring bad hours of one provider are
merged into an incident.  The theorems say that the incidents are exactly the maximal runs of
consecutive bad hours. */
module Incidents {
  import opened Text

  /** Times are in microseconds. */
  const HOUR: int := 3_600_000_000

  const MIN_CALLS: int := 5
  const INCIDENT_RATE: real := 0.5
  const MAJOR_RATE: real := 0.8

  datatype HourRow = HourRow(provider: int, hour: int, calls: int, errors: int)

  datatype Incident = Incident(
    start: int, end: int, ongoing: bool, major: bool, errorRate: real, calls: int, errors: int)

  /** The accumulator of the merging loop. */
  datatype Run = Run(start: int, last: int, calls: int, errors: int, peak: real)

  function Rate(calls: int, errors: int): real
    requires calls > 0
  {
    errors as real / calls as real
  }

  predicate Bad(b: HourRow) {
    b.calls >= MIN_CALLS && Rate(b.calls, b.errors) >= INCIDENT_RATE
  }

  /** An hour is bad when it has at least five calls and at least half of them failed; at four fifths it
      makes its incident a major one. */
  lemma BadIff(b: HourRow)
    ensures Bad(b) <==> b.calls >= 5 && 2 * b.errors >= b.calls
    ensures b.calls > 0 ==> (Rate(b.calls, b.errors) >= MAJOR_RATE <==> 5 * b.errors >= 4 * b.calls)
  {
    if b.calls > 0 {
      ShareIff(b.calls, b.errors, 1, 2);
      ShareIff(b.calls, b.errors, 4, 5);
    }
  }

  lemma ShareIff(calls: int, errors: int, m: int, n: int)
    requires calls > 0 && n > 0
    ensures Rate(calls, errors) >= m as real / n as real <==> n * errors >= m * calls
  {
    var c, e, x, y := calls as real, errors as real, m as real, n as real;
    assert e / c >= x / y <==> (e / c) * (c * y) >= (x / y) * (c * y);
    assert (e / c) * (c * y) == e * y && (x / y) * (c * y) == x * c;
    assert (n * errors) as real == y * e && (m * calls) as real == x * c;
  }

  function Closed(run: Run, now: int): Incident {
    Incident(run.start, run.last + HOUR, run.last >= now - HOUR, run.peak >= MAJOR_RATE,
             if run.calls > 0 then Rate(run.calls, run.errors) else 0.0, run.calls, run.errors)
  }

  // ---------- grouping and sorting ----------

  function OfProvider(rows: seq<HourRow>, provider: int): seq<HourRow> {
    if rows == [] then []
    else if rows[0].provider == provider then [rows[0]] + OfProvider(rows[1..], provider)
    else OfProvider(rows[1..], provider)
  }

  function Insert(b: HourRow, sorted: seq<HourRow>): seq<HourRow> {
    if sorted == [] || b.hour <= sorted[0].hour then [b] + sorted
    else [sorted[0]] + Insert(b, sorted[1..])
  }

  function SortByHour(rows: seq<HourRow>): seq<HourRow> {
    if rows == [] then [] else Insert(rows[0], SortByHour(rows[1..]))
  }

  ghost predicate Ascending(b: seq<HourRow>) {
    forall i, j :: 0 <= i < j < |b| ==> b[i].hour < b[j].hour
  }

  ghost predicate DistinctHours(b: seq<HourRow>) {
    forall i, j :: 0 <= i < j < |b| ==> b[i].hour != b[j].hour
  }

  lemma {:induction false} InsertElements(b: HourRow, sorted: seq<HourRow>)
    ensures multiset(Insert(b, sorted)) == multiset{b} + multiset(sorted)
  {
    if sorted != [] && b.hour > sorted[0].hour {
      InsertElements(b, sorted[1..]);
      assert sorted == [sorted[0]] + sorted[1..];
    }
  }

  lemma SameMembers(a: seq<HourRow>, b: seq<HourRow>, x: HourRow)
    requires multiset(a) == multiset(b)
    ensures x in a <==> x in b
  {
    assert x in multiset(a) <==> x in multiset(b);
  }

  ghost predicate Below(hour: int, b: seq<HourRow>) {
    forall x :: x in b ==> hour < x.hour
  }

  lemma AscendingCons(head: HourRow, tail: seq<HourRow>)
    requires Ascending(tail) && Below(head.hour, tail)
    ensures Ascending([head] + tail)
  {
  }

  lemma BelowInsert(hour: int, b: HourRow, sorted: seq<HourRow>)
    requires hour < b.hour && Below(hour, sorted)
    ensures Below(hour, Insert(b, sorted))
  {
    InsertElements(b, sorted);
    forall x | x in Insert(b, sorted) ensures hour < x.hour {
      SameMembers(Insert(b, sorted), [b] + sorted, x);
    }
  }

  lemma {:induction false} InsertKeepsOrder(b: HourRow, sorted: seq<HourRow>)
    requires Ascending(sorted) && b.hour !in HoursOf(sorted)
    ensures Ascending(Insert(b, sorted))
  {
    if sorted != [] {
      assert sorted == [sorted[0]] + sorted[1..];
      assert Below(sorted[0].hour, sorted[1..]);
      if b.hour < sorted[0].hour {
        AscendingCons(b, sorted);
      } else {
        assert sorted[0].hour in HoursOf(sorted);
        assert HoursOf(sorted[1..]) <= HoursOf(sorted);
        InsertKeepsOrder(b, sorted[1..]);
        BelowInsert(sorted[0].hour, b, sorted[1..]);
        AscendingCons(sorted[0], Insert(b, sorted[1..]));
      }
    }
  }

  ghost function HoursOf(b: seq<HourRow>): set<int> {
    set x | x in b :: x.hour
  }

  lemma {:induction false} SortElements(rows: seq<HourRow>)
    ensures multiset(SortByHour(rows)) == multiset(rows)
  {
    if rows != [] {
      SortElements(rows[1..]);
      InsertElements(rows[0], SortByHour(rows[1..]));
      assert rows == [rows[0]] + rows[1..];
    }
  }

  /** A provider's rows are all the rows of that provider and no others, each as often as it was. */
  lemma {:induction false} OfProviderElements(rows: seq<HourRow>, provider: int, x: HourRow)
    ensures multiset(OfProvider(rows, provider))[x] == if x.provider == provider then multiset(rows)[x] else 0
  {
    if rows != [] {
      OfProviderElements(rows[1..], provider, x);
      assert rows == [rows[0]] + rows[1..];
    }
  }

  /** Sorting distinct hours gives strictly ascending ones. */
  lemma {:induction false} SortAscends(rows: seq<HourRow>)
    requires DistinctHours(rows)
    ensures Ascending(SortByHour(rows))
  {
    if rows != [] {
      var rest := rows[1..];
      SortAscends(rest);
      SortElements(rest);
      forall x | x in SortByHour(rest) ensures x.hour != rows[0].hour {
        SameMembers(SortByHour(rest), rest, x);
      }
      InsertKeepsOrder(rows[0], SortByHour(rest));
    }
  }

  // ---------- maximal runs ----------

  ghost predicate Adjacent(b: seq<HourRow>, i: nat)
    requires 0 < i < |b|
  {
    Bad(b[i - 1]) && Bad(b[i]) && b[i].hour == b[i - 1].hour + HOUR
  }

  /** Positions `lo` to `hi` are consecutive bad hours. */
  ghost predicate IsRun(b: seq<HourRow>, lo: nat, hi: nat) {
    && lo < hi <= |b|
    && (forall i :: lo <= i < hi ==> Bad(b[i]))
    && (forall i :: lo < i < hi ==> Adjacent(b, i))
  }

  ghost predicate StartsRun(b: seq<HourRow>, lo: nat) {
    lo <= |b| && (0 < lo < |b| ==> !Adjacent(b, lo))
  }

  ghost predicate IsMaximalRun(b: seq<HourRow>, lo: nat, hi: nat) {
    IsRun(b, lo, hi) && StartsRun(b, lo) && StartsRun(b, hi)
  }

  function SumCalls(b: seq<HourRow>, lo: nat, hi: nat): int
    requires lo <= hi <= |b|
  {
    if lo == hi then 0 else SumCalls(b, lo, hi - 1) + b[hi - 1].calls
  }

  function SumErrors(b: seq<HourRow>, lo: nat, hi: nat): int
    requires lo <= hi <= |b|
  {
    if lo == hi then 0 else SumErrors(b, lo, hi - 1) + b[hi - 1].errors
  }

  /** The highest error rate among these hours. */
  ghost predicate IsPeak(b: seq<HourRow>, lo: nat, hi: nat, peak: real)
    requires IsRun(b, lo, hi)
  {
    && (forall i :: lo <= i < hi ==> Rate(b[i].calls, b[i].errors) <= peak)
    && (exists i :: lo <= i < hi && Rate(b[i].calls, b[i].errors) == peak)
  }

  ghost predicate Accumulates(b: seq<HourRow>, lo: nat, hi: nat, run: Run) {
    && IsRun(b, lo, hi)
    && run.start == b[lo].hour && run.last == b[hi - 1].hour
    && run.calls == SumCalls(b, lo, hi) && run.errors == SumErrors(b, lo, hi)
    && IsPeak(b, lo, hi, run.peak)
  }

  /** The incident tells the truth about the run: its span, its totals, and major exactly when some
      hour of it reached the major rate. */
  ghost predicate Describes(x: Incident, b: seq<HourRow>, lo: nat, hi: nat, now: int) {
    && IsRun(b, lo, hi)
    && x.start == b[lo].hour && x.end == b[hi - 1].hour + HOUR && (x.ongoing <==> x.end >= now)
    && x.calls == SumCalls(b, lo, hi) && x.errors == SumErrors(b, lo, hi)
    && x.calls > 0 && x.errorRate == Rate(x.calls, x.errors)
    && (x.major <==> exists i :: lo <= i < hi && Rate(b[i].calls, b[i].errors) >= MAJOR_RATE)
  }

  lemma {:induction false} RunHasCalls(b: seq<HourRow>, lo: nat, hi: nat)
    requires IsRun(b, lo, hi)
    ensures SumCalls(b, lo, hi) > 0
  {
    if hi - lo > 1 {
      RunHasCalls(b, lo, hi - 1);
    }
  }

  lemma ClosedDescribes(b: seq<HourRow>, lo: nat, hi: nat, run: Run, now: int)
    requires Accumulates(b, lo, hi, run)
    ensures Describes(Closed(run, now), b, lo, hi, now)
  {
    RunHasCalls(b, lo, hi);
    var i :| lo <= i < hi && Rate(b[i].calls, b[i].errors) == run.peak;
  }

  lemma RunExtends(b: seq<HourRow>, lo: nat, hi: nat, run: Run)
    requires Accumulates(b, lo, hi, run) && hi < |b| && Adjacent(b, hi)
    ensures var rate := Rate(b[hi].calls, b[hi].errors);
            Accumulates(b, lo, hi + 1,
                        Run(run.start, b[hi].hour, run.calls + b[hi].calls, run.errors + b[hi].errors,
                            if rate > run.peak then rate else run.peak))
  {
    var i :| lo <= i < hi && Rate(b[i].calls, b[i].errors) == run.peak;
    assert IsRun(b, lo, hi + 1);
    assert lo <= hi < hi + 1;
  }

  lemma RunBegins(b: seq<HourRow>, lo: nat)
    requires lo < |b| && Bad(b[lo])
    ensures Accumulates(b, lo, lo + 1,
                        Run(b[lo].hour, b[lo].hour, b[lo].calls, b[lo].errors, Rate(b[lo].calls, b[lo].errors)))
  {
    assert SumCalls(b, lo, lo) == 0 && SumErrors(b, lo, lo) == 0;
    assert lo <= lo < lo + 1;
  }

  // ---------- the merging loop ----------

  type Span = (nat, nat)

  /** The spans are maximal runs, in order, and cover the bad hours before position `n`. */
  ghost predicate CoversUpTo(b: seq<HourRow>, spans: seq<Span>, n: nat) {
    && n <= |b|
    && (forall k :: 0 <= k < |spans| ==> IsMaximalRun(b, spans[k].0, spans[k].1) && spans[k].1 <= n)
    && (forall k, l :: 0 <= k < l < |spans| ==> spans[k].1 <= spans[l].0)
    && (forall i :: 0 <= i < n && Bad(b[i]) ==> Covered(spans, i))
  }

  ghost predicate Covered(spans: seq<Span>, i: nat) {
    exists k :: 0 <= k < |spans| && spans[k].0 <= i < spans[k].1
  }

  ghost predicate AllDescribed(out: seq<Incident>, b: seq<HourRow>, spans: seq<Span>, now: int) {
    |out| == |spans| && forall k :: 0 <= k < |out| ==> Describes(out[k], b, spans[k].0, spans[k].1, now)
  }

  lemma CoveredMore(spans: seq<Span>, s: Span, i: nat)
    requires Covered(spans, i) || s.0 <= i < s.1
    ensures Covered(spans + [s], i)
  {
    if s.0 <= i < s.1 {
      assert (spans + [s])[|spans|] == s;
    } else {
      var k :| 0 <= k < |spans| && spans[k].0 <= i < spans[k].1;
      assert (spans + [s])[k] == spans[k];
    }
  }

  lemma SpansGrow(b: seq<HourRow>, spans: seq<Span>, lo: nat, hi: nat, k: nat)
    requires CoversUpTo(b, spans, lo) && IsMaximalRun(b, lo, hi) && k <= |spans|
    ensures
      var more := spans + [(lo, hi)];
      && IsMaximalRun(b, more[k].0, more[k].1) && more[k].1 <= hi
      && (k < |spans| ==> more[k].1 <= lo)
  {
    if k < |spans| {
      assert (spans + [(lo, hi)])[k] == spans[k];
    }
  }

  lemma CoverGrows(b: seq<HourRow>, spans: seq<Span>, lo: nat, hi: nat)
    requires CoversUpTo(b, spans, lo) && IsMaximalRun(b, lo, hi)
    ensures CoversUpTo(b, spans + [(lo, hi)], hi)
  {
    var more := spans + [(lo, hi)];
    forall k | 0 <= k < |more| ensures IsMaximalRun(b, more[k].0, more[k].1) && more[k].1 <= hi {
      SpansGrow(b, spans, lo, hi, k);
    }
    SpansStayOrdered(b, spans, lo, hi);
    forall i | 0 <= i < hi && Bad(b[i]) ensures Covered(more, i) {
      CoveredMore(spans, (lo, hi), i);
    }
  }

  lemma SpansStayOrdered(b: seq<HourRow>, spans: seq<Span>, lo: nat, hi: nat)
    requires CoversUpTo(b, spans, lo)
    ensures var more := spans + [(lo, hi)]; forall k, l :: 0 <= k < l < |more| ==> more[k].1 <= more[l].0
  {
  }

  lemma CoverSkips(b: seq<HourRow>, spans: seq<Span>, n: nat)
    requires CoversUpTo(b, spans, n) && n < |b| && !Bad(b[n])
    ensures CoversUpTo(b, spans, n + 1)
  {
  }

  lemma HoursConnect(b: seq<HourRow>, lo: nat, n: nat, run: Run)
    requires Ascending(b) && Accumulates(b, lo, n, run) && n < |b| && Bad(b[n])
    requires run.last == b[n].hour || run.last == b[n].hour - HOUR
    ensures Adjacent(b, n)
  {
    assert b[n - 1].hour < b[n].hour;
  }

  lemma RunEndsHere(b: seq<HourRow>, lo: nat, n: nat, run: Option<Run>)
    requires n < |b| && StartsRun(b, if run.Some? then lo else n)
    requires run.Some? ==> Accumulates(b, lo, n, run.value)
    requires !Bad(b[n]) || run.None? || run.value.last != b[n].hour - HOUR
    ensures StartsRun(b, n)
  {
  }

  /** `flush`. */
  method Flush(run: Option<Run>, out: seq<Incident>, now: int,
               b: seq<HourRow>, ghost spans: seq<Span>, ghost lo: nat, ghost hi: nat)
    returns (more: seq<Incident>, ghost moreSpans: seq<Span>)
    requires AllDescribed(out, b, spans, now) && CoversUpTo(b, spans, if run.Some? then lo else hi)
    requires run.Some? ==> Accumulates(b, lo, hi, run.value) && IsMaximalRun(b, lo, hi)
    ensures AllDescribed(more, b, moreSpans, now) && CoversUpTo(b, moreSpans, hi)
    ensures more == match run case None => out case Some(x) => out + [Closed(x, now)]
  {
    more, moreSpans := out, spans;
    match run
    case None =>
    case Some(x) =>
      more := out + [Closed(x, now)];
      moreSpans := spans + [(lo, hi)];
      ClosedDescribes(b, lo, hi, x, now);
      CoverGrows(b, spans, lo, hi);
  }

  /** The loop invariant: what is reported covers everything before the open run. */
  ghost predicate Merging(b: seq<HourRow>, n: nat, run: Option<Run>, lo: nat,
                          out: seq<Incident>, spans: seq<Span>, now: int) {
    var from := if run.Some? then lo else n;
    && AllDescribed(out, b, spans, now)
    && CoversUpTo(b, spans, from)
    && StartsRun(b, from)
    && (run.Some? ==> Accumulates(b, lo, n, run.value))
  }

  /** One hour of the loop. */
  method MergeHour(b: seq<HourRow>, n: nat, run: Option<Run>, ghost lo: nat,
                   out: seq<Incident>, ghost spans: seq<Span>, now: int)
    returns (nextRun: Option<Run>, ghost nextLo: nat, more: seq<Incident>, ghost moreSpans: seq<Span>)
    requires Ascending(b) && n < |b| && Merging(b, n, run, lo, out, spans, now)
    ensures Merging(b, n + 1, nextRun, nextLo, more, moreSpans, now)
  {
    if Bad(b[n]) && run.Some? && (run.value.last == b[n].hour || run.value.last == b[n].hour - HOUR) {
      var x, rate := run.value, Rate(b[n].calls, b[n].errors);
      HoursConnect(b, lo, n, x);
      RunExtends(b, lo, n, x);
      more, moreSpans, nextLo := out, spans, lo;
      nextRun := Some(Run(x.start, b[n].hour, x.calls + b[n].calls, x.errors + b[n].errors,
                          if rate > x.peak then rate else x.peak));
    } else {
      RunEndsHere(b, lo, n, run);
      more, moreSpans := Flush(run, out, now, b, spans, lo, n);
      nextLo := n;
      if Bad(b[n]) {
        RunBegins(b, n);
        nextRun := Some(Run(b[n].hour, b[n].hour, b[n].calls, b[n].errors, Rate(b[n].calls, b[n].errors)));
      } else {
        CoverSkips(b, moreSpans, n);
        nextRun := None;
      }
    }
  }

  /** The incidents are the maximal runs of consecutive bad hours, in order, each described
      truthfully. */
  ghost predicate Reports(out: seq<Incident>, b: seq<HourRow>, now: int) {
    exists spans :: CoversUpTo(b, spans, |b|) && AllDescribed(out, b, spans, now)
  }

  /** The loop over one provider's hours. */
  method MergeHours(b: seq<HourRow>, now: int) returns (out: seq<Incident>)
    requires Ascending(b)
    ensures Reports(out, b, now)
  {
    out := [];
    var run: Option<Run> := None;
    ghost var lo: nat, spans: seq<Span> := 0, [];
    for n := 0 to |b|
      invariant Merging(b, n, run, lo, out, spans, now)
    {
      run, lo, out, spans := MergeHour(b, n, run, lo, out, spans, now);
    }
    out, spans := Flush(run, out, now, b, spans, lo, |b|);
  }

  // ---------- exactly the maximal runs ----------

  lemma InnerHoursAreAdjacent(b: seq<HourRow>, lo: nat, hi: nat, i: nat)
    requires IsRun(b, lo, hi) && lo < i < hi
    ensures !StartsRun(b, i)
  {
    assert Adjacent(b, i);
  }

  /** Two maximal runs that share an hour are the same run. */
  lemma MaximalRunsAreDisjoint(b: seq<HourRow>, r: Span, s: Span, i: nat)
    requires IsMaximalRun(b, r.0, r.1) && IsMaximalRun(b, s.0, s.1)
    requires r.0 <= i < r.1 && s.0 <= i < s.1
    ensures r == s
  {
    if r.0 < s.0 {
      InnerHoursAreAdjacent(b, r.0, r.1, s.0);
    } else if s.0 < r.0 {
      InnerHoursAreAdjacent(b, s.0, s.1, r.0);
    } else if r.1 < s.1 {
      InnerHoursAreAdjacent(b, s.0, s.1, r.1);
    } else if s.1 < r.1 {
      InnerHoursAreAdjacent(b, r.0, r.1, s.1);
    }
  }

  lemma EverySpanIsThere(b: seq<HourRow>, spans: seq<Span>, lo: nat, hi: nat) returns (k: nat)
    requires CoversUpTo(b, spans, |b|) && IsMaximalRun(b, lo, hi)
    ensures k < |spans| && spans[k] == (lo, hi)
  {
    assert Bad(b[lo]) && Covered(spans, lo);
    k :| 0 <= k < |spans| && spans[k].0 <= lo < spans[k].1;
    MaximalRunsAreDisjoint(b, spans[k], (lo, hi), lo);
  }

  /** Hence nothing is missing: every maximal run is reported. */
  lemma EveryMaximalRunIsReported(out: seq<Incident>, b: seq<HourRow>, now: int, lo: nat, hi: nat) returns (k: nat)
    requires Reports(out, b, now) && IsMaximalRun(b, lo, hi)
    ensures k < |out| && Describes(out[k], b, lo, hi, now)
  {
    var spans: seq<Span> :| CoversUpTo(b, spans, |b|) && AllDescribed(out, b, spans, now);
    k := EverySpanIsThere(b, spans, lo, hi);
  }

  /** Nothing else is reported, and the last hour of an incident lies before the next incident. */
  lemma IncidentsAreMaximalRuns(out: seq<Incident>, b: seq<HourRow>, now: int, k: nat) returns (lo: nat, hi: nat)
    requires Ascending(b) && Reports(out, b, now) && k < |out|
    ensures IsMaximalRun(b, lo, hi) && Describes(out[k], b, lo, hi, now)
    ensures k + 1 < |out| ==> out[k].end - HOUR < out[k + 1].start
  {
    var spans: seq<Span> :| CoversUpTo(b, spans, |b|) && AllDescribed(out, b, spans, now);
    lo, hi := spans[k].0, spans[k].1;
    if k + 1 < |out| {
      NextRunIsLater(b, lo, hi, spans[k + 1].0, spans[k + 1].1);
    }
  }

  lemma NextRunIsLater(b: seq<HourRow>, lo: nat, hi: nat, lo': nat, hi': nat)
    requires Ascending(b) && IsRun(b, lo, hi) && IsRun(b, lo', hi') && hi <= lo'
    ensures b[hi - 1].hour < b[lo'].hour
  {
  }

  /** The hour of a row lies in an incident exactly when it is bad, and then in one only. */
  lemma HourIsCoveredIffBad(b: seq<HourRow>, spans: seq<Span>, i: nat)
    requires CoversUpTo(b, spans, |b|) && i < |b|
    ensures Covered(spans, i) <==> Bad(b[i])
    ensures forall k, l :: 0 <= k < l < |spans| ==> !(spans[k].0 <= i < spans[k].1 && spans[l].0 <= i < spans[l].1)
  {
  }

  /** One provider's incidents from the unsorted rows of all providers. */
  method IncidentsOf(rows: seq<HourRow>, provider: int, now: int) returns (out: seq<Incident>)
    requires DistinctHours(OfProvider(rows, provider))
    ensures Reports(out, SortByHour(OfProvider(rows, provider)), now)
  {
    SortAscends(OfProvider(rows, provider));
    out := MergeHours(SortByHour(OfProvider(rows, provider)), now);
  }
}
