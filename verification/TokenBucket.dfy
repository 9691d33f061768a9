/** The token bucket that guards the console login (src/service/ratelimit.rs), in exact reals.

Time is a parameter; it is in seconds and does not run backwards. */
module TokenBucket {
  import opened Text

  const MAX_BUCKETS: int := 10_000
  const IDLE_EVICT_AFTER: real := 3600.0

  datatype Bucket = Bucket(tokens: real, last: real, rpm: real, burst: real)

  datatype Verdict = Ok | Wait(seconds: real) | Never

  type Table = map<string, Bucket>

  function Min(a: real, b: real): real {
    if a <= b then a else b
  }

  /** `saturating_sub`. */
  function Elapsed(now: real, last: real): real {
    if now > last then now - last else 0.0
  }

  /** The tokens that flow in over a time. */
  function Flow(elapsed: real, rpm: real): real {
    elapsed * rpm / 60.0
  }

  /** What has flowed in by now, before the cap. */
  function Inflow(b: Bucket, now: real, rpm: real): real {
    b.tokens + Flow(Elapsed(now, b.last), rpm)
  }

  /** The tokens before the check takes one; a new bucket starts full. */
  function Available(b: Option<Bucket>, now: real, rpm: real, burst: real): real {
    match b
    case None => burst
    case Some(b) => Min(Inflow(b, now, rpm), burst)
  }

  /** The bucket and the verdict after a check with the current parameters. */
  function Check(b: Option<Bucket>, now: real, rpm: real, burst: real): (Bucket, Verdict) {
    var available := Available(b, now, rpm, burst);
    if available >= 1.0 then (Bucket(available - 1.0, now, rpm, burst), Ok)
    else (Bucket(available, now, rpm, burst), if rpm > 0.0 then Wait((1.0 - available) / (rpm / 60.0)) else Never)
  }

  function BucketOf(t: Table, key: string): Option<Bucket> {
    if key in t then Some(t[key]) else None
  }

  /** A full table first drops the buckets idle for an hour, and only if that does not help, all. */
  function Evicted(t: Table, now: real): Table {
    if |t| < MAX_BUCKETS then t
    else
      var kept := map k | k in t && Elapsed(now, t[k].last) < IDLE_EVICT_AFTER :: t[k];
      if |kept| >= MAX_BUCKETS then map[] else kept
  }

  class RateLimiter {
    var buckets: Table

    constructor ()
      ensures buckets == map[]
    {
      buckets := map[];
    }

    method EvictWhenFull(now: real)
      modifies this
      ensures buckets == Evicted(old(buckets), now)
    {
      if |buckets| >= MAX_BUCKETS {
        buckets := map k | k in buckets && Elapsed(now, buckets[k].last) < IDLE_EVICT_AFTER :: buckets[k];
        if |buckets| >= MAX_BUCKETS {
          buckets := map[];
        }
      }
    }

    /** `check_at`. */
    method CheckAt(now: real, key: string, rpm: real, burst: real) returns (v: Verdict)
      modifies this
      ensures (buckets, v) == AfterCall(old(buckets), Call(now, key, rpm, burst))
    {
      EvictWhenFull(now);
      var bucket := if key in buckets then buckets[key] else Bucket(burst, now, rpm, burst);
      FreshIsFull(BucketOf(buckets, key), bucket, now, rpm, burst);
      if bucket.rpm != rpm || bucket.burst != burst {
        bucket := bucket.(rpm := rpm, burst := burst);
      }
      var elapsed := Elapsed(now, bucket.last);
      var available := Min(bucket.tokens + Flow(elapsed, rpm), burst);
      var ok := available >= 1.0;
      bucket := bucket.(last := now, tokens := if ok then available - 1.0 else available);
      buckets := buckets[key := bucket];
      if ok {
        v := Ok;
      } else if rpm > 0.0 {
        v := Wait((1.0 - available) / (rpm / 60.0));
      } else {
        v := Never;
      }
    }

    /** `reset`: the key starts over with a full bucket. */
    method Reset(key: string)
      modifies this
      ensures buckets == old(buckets) - {key}
    {
      buckets := buckets - {key};
    }
  }

  lemma FreshIsFull(before: Option<Bucket>, bucket: Bucket, now: real, rpm: real, burst: real)
    requires bucket == if before.Some? then before.value else Bucket(burst, now, rpm, burst)
    ensures Min(Inflow(bucket, now, rpm), burst) == Available(before, now, rpm, burst)
  {
    if before.None? {
      assert Elapsed(now, bucket.last) == 0.0;
    }
  }

  // ---------- at most burst plus the inflow ----------

  /** The bucket after checks at the given times, with fixed parameters. */
  function After(b: Option<Bucket>, times: seq<real>, rpm: real, burst: real): Option<Bucket> {
    if times == [] then b
    else Some(Check(After(b, times[..|times| - 1], rpm, burst), times[|times| - 1], rpm, burst).0)
  }

  function Admitted(b: Option<Bucket>, times: seq<real>, rpm: real, burst: real): nat {
    if times == [] then 0
    else
      var n := |times| - 1;
      Admitted(b, times[..n], rpm, burst) +
      (if Check(After(b, times[..n], rpm, burst), times[n], rpm, burst).1.Ok? then 1 else 0)
  }

  ghost predicate Ascending(times: seq<real>) {
    forall i, j :: 0 <= i < j < |times| ==> times[i] <= times[j]
  }

  lemma FlowAdds(a: real, b: real, rpm: real)
    ensures Flow(a, rpm) + Flow(b, rpm) == Flow(a + b, rpm)
  {
  }

  lemma FlowNonNegative(a: real, rpm: real)
    requires a >= 0.0 && rpm >= 0.0
    ensures Flow(a, rpm) >= 0.0
  {
  }

  /** A check pays for its admission. */
  lemma CheckPays(b: Option<Bucket>, now: real, rpm: real, burst: real)
    ensures
      var (after, verdict) := Check(b, now, rpm, burst);
      && after.last == now
      && (if verdict.Ok? then 1.0 else 0.0) + after.tokens <= burst
      && (b.Some? ==>
            (if verdict.Ok? then 1.0 else 0.0) + after.tokens <= b.value.tokens + Flow(Elapsed(now, b.value.last), rpm))
  {
  }

  /** Admissions and what is left never exceed what was there plus what flowed in. */
  lemma {:induction false} TokensAccount(b: Option<Bucket>, times: seq<real>, rpm: real, burst: real)
    requires times != [] && Ascending(times) && rpm >= 0.0
    ensures
      var after := After(b, times, rpm, burst).value;
      && after.last == times[|times| - 1]
      && Admitted(b, times, rpm, burst) as real + after.tokens <= burst + Flow(times[|times| - 1] - times[0], rpm)
  {
    var n := |times| - 1;
    var init, now := times[..n], times[n];
    CheckPays(After(b, init, rpm, burst), now, rpm, burst);
    if n == 0 {
      assert init == [];
    } else {
      TokensAccount(b, init, rpm, burst);
      var mid := times[n - 1];
      assert init[n - 1] == mid && init[0] == times[0];
      assert Elapsed(now, mid) == now - mid;
      FlowAdds(mid - times[0], now - mid, rpm);
      var before := After(b, init, rpm, burst).value;
      var (after, verdict) := Check(Some(before), now, rpm, burst);
      AccountStep(Admitted(b, init, rpm, burst) as real, before.tokens, if verdict.Ok? then 1.0 else 0.0, after.tokens,
                  burst, Flow(mid - times[0], rpm), Flow(now - mid, rpm));
    }
  }

  lemma AccountStep(admitted: real, before: real, more: real, after: real, burst: real, early: real, late: real)
    requires admitted + before <= burst + early && more + after <= before + late
    ensures admitted + more + after <= burst + (early + late)
  {
  }

  /** In any interval, from any state of the bucket, at most `burst + elapsed * rpm / 60` checks are
      admitted. */
  lemma AdmissionBound(b: Option<Bucket>, times: seq<real>, rpm: real, burst: real)
    requires times != [] && Ascending(times) && rpm >= 0.0 && burst >= 0.0
    requires b.Some? ==> b.value.tokens >= 0.0
    ensures Admitted(b, times, rpm, burst) as real <= burst + Flow(times[|times| - 1] - times[0], rpm)
  {
    TokensAccount(b, times, rpm, burst);
    TokensStayNonNegative(b, times, rpm, burst);
  }

  lemma {:induction false} TokensStayNonNegative(b: Option<Bucket>, times: seq<real>, rpm: real, burst: real)
    requires rpm >= 0.0 && burst >= 0.0 && (b.Some? ==> b.value.tokens >= 0.0)
    ensures After(b, times, rpm, burst).Some? ==> After(b, times, rpm, burst).value.tokens >= 0.0
  {
    if times != [] {
      var n := |times| - 1;
      TokensStayNonNegative(b, times[..n], rpm, burst);
      var before := After(b, times[..n], rpm, burst);
      if before.Some? {
        FlowNonNegative(Elapsed(times[n], before.value.last), rpm);
      }
    }
  }

  /** And a new bucket admits its whole burst at once, so the bound is met. */
  lemma {:induction false} BurstIsAdmitted(times: seq<real>, now: real, rpm: real, burst: real)
    requires forall i :: 0 <= i < |times| ==> times[i] == now
    requires |times| as real <= burst
    ensures Admitted(None, times, rpm, burst) == |times|
    ensures times != [] ==> After(None, times, rpm, burst) == Some(Bucket(burst - |times| as real, now, rpm, burst))
  {
    if times != [] {
      var n := |times| - 1;
      BurstIsAdmitted(times[..n], now, rpm, burst);
      assert Elapsed(now, now) == 0.0 && Flow(0.0, rpm) == 0.0;
    }
  }

  // ---------- the wait is exact ----------

  lemma DivideOut(gap: real, delay: real, rpm: real)
    requires rpm > 0.0
    ensures delay >= gap / (rpm / 60.0) <==> Flow(delay, rpm) >= gap
  {
    var rate := rpm / 60.0;
    assert Flow(delay, rpm) == delay * rate;
    if delay >= gap / rate {
      assert delay * rate >= (gap / rate) * rate;
    } else {
      assert delay * rate < (gap / rate) * rate;
    }
  }

  /** After a refusal, the next check succeeds exactly from the announced delay on, provided the
      burst admits anything at all. */
  lemma WaitIsExact(b: Option<Bucket>, now: real, rpm: real, burst: real, delay: real)
    requires burst >= 1.0 && rpm > 0.0 && delay >= 0.0
    requires Check(b, now, rpm, burst).1 != Ok
    ensures Check(b, now, rpm, burst).1.Wait?
    ensures Check(Some(Check(b, now, rpm, burst).0), now + delay, rpm, burst).1.Ok?
       <==> delay >= Check(b, now, rpm, burst).1.seconds
  {
    var after := Check(b, now, rpm, burst).0;
    assert Elapsed(now + delay, after.last) == delay;
    DivideOut(1.0 - after.tokens, delay, rpm);
  }

  /** Otherwise no delay helps: a burst below one, or no refill. */
  lemma NeverAdmitted(b: Option<Bucket>, now: real, rpm: real, burst: real, delay: real)
    requires delay >= 0.0 && (burst < 1.0 || rpm <= 0.0)
    requires Check(b, now, rpm, burst).1 != Ok
    ensures Check(Some(Check(b, now, rpm, burst).0), now + delay, rpm, burst).1 != Ok
    ensures rpm <= 0.0 ==> Check(b, now, rpm, burst).1 == Never
  {
    var after := Check(b, now, rpm, burst).0;
    if rpm <= 0.0 {
      assert Elapsed(now + delay, after.last) * rpm <= 0.0;
    }
  }

  // ---------- eviction ----------

  /** Forgetting a bucket is unobservable if and only if it would have refilled completely. */
  lemma ForgettingIsUnobservableIff(b: Bucket, now: real, rpm: real, burst: real)
    ensures Check(Some(b), now, rpm, burst) == Check(None, now, rpm, burst) <==> Inflow(b, now, rpm) >= burst
  {
  }

  /** What that says of a full table, cleared or not: a later check of a key sees the eviction exactly
      when its bucket was dropped and would not have refilled by then. */
  lemma EvictionIsUnobservableIff(t: Table, now: real, key: string, later: real, rpm: real, burst: real)
    ensures Check(BucketOf(Evicted(t, now), key), later, rpm, burst) == Check(BucketOf(t, key), later, rpm, burst)
       <==> key !in t || key in Evicted(t, now) || Inflow(t[key], later, rpm) >= burst
  {
    if key in t {
      ForgettingIsUnobservableIff(t[key], later, rpm, burst);
    }
  }

  /** A bucket idle for an hour has refilled when an hour's inflow covers the burst. */
  lemma IdleHourRefills(b: Bucket, now: real, rpm: real, burst: real)
    requires b.tokens >= 0.0 && rpm >= 0.0 && 60.0 * rpm >= burst
    requires Elapsed(now, b.last) >= IDLE_EVICT_AFTER
    ensures Inflow(b, now, rpm) >= burst
  {
    var e := Elapsed(now, b.last);
    assert e * rpm >= IDLE_EVICT_AFTER * rpm;
  }

  /** So evicting idle buckets changes no later verdict and no later bucket, while the full-table
      fallback is not taken. */
  lemma EvictionIsUnobservable(t: Table, now: real, key: string, later: real, rpm: real, burst: real)
    requires rpm >= 0.0 && 60.0 * rpm >= burst && later >= now
    requires key in t ==> t[key].tokens >= 0.0
    requires |map k | k in t && Elapsed(now, t[k].last) < IDLE_EVICT_AFTER :: t[k]| < MAX_BUCKETS
    ensures Check(BucketOf(Evicted(t, now), key), later, rpm, burst) == Check(BucketOf(t, key), later, rpm, burst)
  {
    if key in t && key !in Evicted(t, now) {
      IdleHourRefills(t[key], later, rpm, burst);
      ForgettingIsUnobservableIff(t[key], later, rpm, burst);
    }
  }

  // ---------- runs of the whole table ----------

  datatype Call = Call(now: real, key: string, rpm: real, burst: real)

  /** The table after one `check_at`, and its verdict. */
  function AfterCall(t: Table, c: Call): (Table, Verdict) {
    var kept := Evicted(t, c.now);
    var (bucket, verdict) := Check(BucketOf(kept, c.key), c.now, c.rpm, c.burst);
    (kept[c.key := bucket], verdict)
  }

  function TableAfter(calls: seq<Call>): Table {
    if calls == [] then map[] else AfterCall(TableAfter(calls[..|calls| - 1]), calls[|calls| - 1]).0
  }

  /** The admissions of one key. */
  function AdmittedTo(calls: seq<Call>, key: string): nat {
    if calls == [] then 0
    else
      var n := |calls| - 1;
      AdmittedTo(calls[..n], key) +
      (if calls[n].key == key && AfterCall(TableAfter(calls[..n]), calls[n]).1.Ok? then 1 else 0)
  }

  function TimesOf(calls: seq<Call>, key: string): seq<real> {
    if calls == [] then []
    else
      var n := |calls| - 1;
      TimesOf(calls[..n], key) + (if calls[n].key == key then [calls[n].now] else [])
  }

  function FreshOnes(t: Table, now: real): Table {
    map k | k in t && Elapsed(now, t[k].last) < IDLE_EVICT_AFTER :: t[k]
  }

  /** Even without its idle buckets the table is full: the fallback clears it. */
  predicate Clears(t: Table, now: real) {
    |t| >= MAX_BUCKETS && |FreshOnes(t, now)| >= MAX_BUCKETS
  }

  /** Times do not run backwards, the fallback is never taken, and the key's parameters stay fixed. */
  ghost predicate Regular(calls: seq<Call>, key: string, rpm: real, burst: real) {
    calls == [] ||
    var n := |calls| - 1;
    && Regular(calls[..n], key, rpm, burst)
    && (n > 0 ==> calls[n - 1].now <= calls[n].now)
    && !Clears(TableAfter(calls[..n]), calls[n].now)
    && (calls[n].key == key ==> calls[n].rpm == rpm && calls[n].burst == burst)
  }

  /** The table holds the bucket of a key, or has forgotten it after an idle hour. */
  ghost predicate Follows(t: Table, key: string, bucket: Option<Bucket>, now: real) {
    || BucketOf(t, key) == bucket
    || (key !in t && bucket.Some? && bucket.value.tokens >= 0.0 && Elapsed(now, bucket.value.last) >= IDLE_EVICT_AFTER)
  }

  lemma EvictionFollows(t: Table, key: string, bucket: Option<Bucket>, now: real, later: real)
    requires Follows(t, key, bucket, now) && now <= later && !Clears(t, later)
    requires bucket.Some? ==> bucket.value.tokens >= 0.0
    ensures Follows(Evicted(t, later), key, bucket, later)
  {
    assert Evicted(t, later) == if |t| < MAX_BUCKETS then t else FreshOnes(t, later);
  }

  lemma FollowingChecksAlike(t: Table, key: string, bucket: Option<Bucket>, now: real, rpm: real, burst: real)
    requires Follows(t, key, bucket, now) && rpm >= 0.0 && 60.0 * rpm >= burst
    ensures Check(BucketOf(t, key), now, rpm, burst) == Check(bucket, now, rpm, burst)
  {
    if BucketOf(t, key) != bucket {
      IdleHourRefills(bucket.value, now, rpm, burst);
      ForgettingIsUnobservableIff(bucket.value, now, rpm, burst);
    }
  }

  lemma AdmittedSnoc(times: seq<real>, now: real, rpm: real, burst: real)
    ensures
      var before := After(None, times, rpm, burst);
      && After(None, times + [now], rpm, burst) == Some(Check(before, now, rpm, burst).0)
      && Admitted(None, times + [now], rpm, burst)
         == Admitted(None, times, rpm, burst) + (if Check(before, now, rpm, burst).1.Ok? then 1 else 0)
  {
    assert (times + [now])[..|times|] == times;
  }

  /** Over every run of checks on any keys, evictions included, a key's verdicts are those of a bucket
      that is never forgotten. */
  lemma {:induction false} TableFollowsBucket(calls: seq<Call>, key: string, rpm: real, burst: real, now: real)
    requires Regular(calls, key, rpm, burst) && rpm >= 0.0 && burst >= 0.0 && 60.0 * rpm >= burst
    requires calls != [] ==> now >= calls[|calls| - 1].now
    ensures Follows(TableAfter(calls), key, After(None, TimesOf(calls, key), rpm, burst), now)
    ensures AdmittedTo(calls, key) == Admitted(None, TimesOf(calls, key), rpm, burst)
  {
    if calls != [] {
      var n := |calls| - 1;
      var init, c := calls[..n], calls[n];
      TableFollowsBucket(init, key, rpm, burst, c.now);
      var times := TimesOf(init, key);
      var bucket := After(None, times, rpm, burst);
      TokensStayNonNegative(None, times, rpm, burst);
      EvictionFollows(TableAfter(init), key, bucket, c.now, c.now);
      if c.key == key {
        FollowingChecksAlike(Evicted(TableAfter(init), c.now), key, bucket, c.now, rpm, burst);
        AdmittedSnoc(times, c.now, rpm, burst);
      } else {
        assert times + [] == times;
        OthersFollow(Evicted(TableAfter(init), c.now), c, key, bucket, now);
      }
    }
  }

  lemma OthersFollow(kept: Table, c: Call, key: string, bucket: Option<Bucket>, now: real)
    requires c.key != key && c.now <= now && Follows(kept, key, bucket, c.now)
    ensures Follows(kept[c.key := Check(BucketOf(kept, c.key), c.now, c.rpm, c.burst).0], key, bucket, now)
  {
  }

  ghost predicate UpTo(times: seq<real>, now: real) {
    Ascending(times) && forall i :: 0 <= i < |times| ==> times[i] <= now
  }

  lemma UpToSnoc(times: seq<real>, before: real, now: real)
    requires UpTo(times, before) && before <= now
    ensures UpTo(times, now) && UpTo(times + [now], now)
  {
  }

  lemma {:induction false} TimesAscend(calls: seq<Call>, key: string, rpm: real, burst: real)
    requires Regular(calls, key, rpm, burst) && calls != []
    ensures UpTo(TimesOf(calls, key), calls[|calls| - 1].now)
  {
    var n := |calls| - 1;
    var init, now := calls[..n], calls[n].now;
    var before := if n > 0 then calls[n - 1].now else now;
    if n > 0 {
      TimesAscend(init, key, rpm, burst);
    }
    UpToSnoc(TimesOf(init, key), before, now);
    assert TimesOf(init, key) + [] == TimesOf(init, key);
  }

  /** No more admissions than the burst and what flows in between the first and the last time. */
  ghost predicate WithinFlow(admitted: nat, times: seq<real>, rpm: real, burst: real)
    requires times != []
  {
    admitted as real <= burst + Flow(times[|times| - 1] - times[0], rpm)
  }

  lemma AdmissionWithinFlow(times: seq<real>, now: real, rpm: real, burst: real)
    requires times != [] && UpTo(times, now) && rpm >= 0.0 && burst >= 0.0
    ensures WithinFlow(Admitted(None, times, rpm, burst), times, rpm, burst)
  {
    AdmissionBound(None, times, rpm, burst);
  }

  /** So in any such run a key is admitted at most `burst + elapsed * rpm / 60` times between its
      first and its last check. */
  lemma TableAdmissionBound(calls: seq<Call>, key: string, rpm: real, burst: real)
    requires Regular(calls, key, rpm, burst) && rpm >= 0.0 && burst >= 0.0 && 60.0 * rpm >= burst
    requires TimesOf(calls, key) != []
    ensures WithinFlow(AdmittedTo(calls, key), TimesOf(calls, key), rpm, burst)
  {
    var now := calls[|calls| - 1].now;
    TimesAscend(calls, key, rpm, burst);
    AdmissionWithinFlow(TimesOf(calls, key), now, rpm, burst);
    TableFollowsBucket(calls, key, rpm, burst, now);
  }

  /** Over every run the table never holds more than its ten thousand buckets, and a check always leaves
      the bucket of its own key in it. */
  lemma {:induction false} TableIsBounded(calls: seq<Call>)
    ensures |TableAfter(calls)| <= 10_000
    ensures calls != [] ==> calls[|calls| - 1].key in TableAfter(calls)
  {
    if calls != [] {
      var n := |calls| - 1;
      var kept := Evicted(TableAfter(calls[..n]), calls[n].now);
      InsertGrows(kept, calls[n].key, AfterCall(TableAfter(calls[..n]), calls[n]).0[calls[n].key]);
    }
  }

  lemma InsertGrows(t: Table, key: string, b: Bucket)
    ensures |t[key := b]| <= |t| + 1
  {
    assert t[key := b].Keys == t.Keys + {key};
    assert |t[key := b].Keys| <= |t.Keys| + 1;
  }
}
