/** When the circuit of a provider opens, by its calls alone (src/service/breaker.rs).

Nothing here looks at the breaker's counters: the run of failures, the failure-rate window and the
records in it are read off the sequence of calls, and the theorems say at which call the circuit
opens for the first time, and at which call it opens again. */
module BreakerTrips {
  import opened Text
  import opened Breaker

  // ---------- the calls ----------

  /** The breaker has met the provider, before the calls or during them. */
  ghost predicate Known(met: bool, events: seq<Event>, id: int) {
    met || exists i :: 0 <= i < |events| && (events[i].op == Op.Allow(id) || events[i].op == Failure(id))
  }

  /** Call `n` is a record of the provider: a failure, or a success of a provider already met. */
  ghost predicate IsRecord(met: bool, events: seq<Event>, n: nat, id: int)
    requires n < |events|
  {
    events[n].op == Failure(id) || (events[n].op == Success(id) && Known(met, events[..n], id))
  }

  /** How many failures the provider has had since its last success. */
  function FailuresSinceSuccess(events: seq<Event>, id: int): nat {
    if events == [] then 0
    else
      var n := |events| - 1;
      if events[n].op == Success(id) then 0
      else FailuresSinceSuccess(events[..n], id) + (if events[n].op == Failure(id) then 1 else 0)
  }

  /** The last `k` records of the provider are failures. */
  ghost predicate LastAreFailures(events: seq<Event>, id: int, k: nat) {
    k == 0 ||
    (events != [] &&
     var n := |events| - 1;
     events[n].op != Success(id) && LastAreFailures(events[..n], id, if events[n].op == Failure(id) then k - 1 else k))
  }

  lemma {:induction false} LastAreFailuresIff(events: seq<Event>, id: int, k: nat)
    ensures LastAreFailures(events, id, k) <==> FailuresSinceSuccess(events, id) >= k
  {
    if events != [] && k > 0 {
      var n := |events| - 1;
      LastAreFailuresIff(events[..n], id, if events[n].op == Failure(id) then k - 1 else k);
    }
  }

  /** The record that started the window in force: the first one, or one that came a window's length
      or more behind the one before. */
  ghost function WindowAt(cfg: Config, met: bool, events: seq<Event>, id: int): (w: Option<nat>)
    ensures w.Some? ==> w.value < |events|
    decreases events
  {
    if events == [] then None
    else
      var n := |events| - 1;
      var w := WindowAt(cfg, met, events[..n], id);
      if IsRecord(met, events, n, id) && (w.None? || events[n].now - events[w.value].now >= cfg.window) then Some(n) else w
  }

  /** The records from call `s` on, and the failures among them. */
  ghost function RecordsFrom(met: bool, events: seq<Event>, id: int, s: nat): nat
    decreases events
  {
    if |events| <= s then 0
    else
      var n := |events| - 1;
      RecordsFrom(met, events[..n], id, s) + (if IsRecord(met, events, n, id) then 1 else 0)
  }

  function FailuresFrom(events: seq<Event>, id: int, s: nat): nat {
    if |events| <= s then 0
    else
      var n := |events| - 1;
      FailuresFrom(events[..n], id, s) + (if events[n].op == Failure(id) then 1 else 0)
  }

  /** The last call is a failure that makes the run of failures reach its threshold, or the share of
      failures among enough records of the window reach its limit. */
  ghost predicate Trips(cfg: Config, met: bool, events: seq<Event>, id: int) {
    && events != [] && events[|events| - 1].op == Failure(id)
    && (|| LastAreFailures(events, id, cfg.failureThreshold)
        || var w := WindowAt(cfg, met, events, id);
           w.Some? && TooManyFail(cfg, RecordsFrom(met, events, id, w.value), FailuresFrom(events, id, w.value)))
  }

  /** Enough records, and the failed ones reach the given share of them. */
  ghost predicate TooManyFail(cfg: Config, records: nat, failures: nat) {
    records >= cfg.minRequests && failures as real >= cfg.failureRate * records as real
  }

  // ---------- the counters ----------

  /** The counters of a provider, as the calls give them. */
  ghost predicate Tallied(cfg: Config, met: bool, events: seq<Event>, id: int, p: Provider) {
    var w := WindowAt(cfg, met, events, id);
    && p.consecFailures == FailuresSinceSuccess(events, id)
    && (w.None? ==> WindowIs(p, 0, 0, None))
    && (w.Some? ==>
          WindowIs(p, RecordsFrom(met, events, id, w.value), FailuresFrom(events, id, w.value), Some(events[w.value].now)))
  }

  /** No failures and no window counted: a provider not met yet, or one whose circuit just opened. */
  ghost predicate Cleared(p: Provider) {
    p.consecFailures == 0 && WindowIs(p, 0, 0, None)
  }

  lemma KnownSnoc(met: bool, events: seq<Event>, id: int)
    requires events != []
    ensures
      var n := |events| - 1;
      Known(met, events, id) <==> Known(met, events[..n], id) || events[n].op == Op.Allow(id) || events[n].op == Failure(id)
  {
    var n := |events| - 1;
    if i :| 0 <= i < n && (events[i].op == Op.Allow(id) || events[i].op == Failure(id)) {
      assert events[..n][i] == events[i];
    }
  }

  lemma {:induction false} KnownIff(cfg: Config, t: Table, events: seq<Event>, id: int)
    ensures id in Run(cfg, t, events) <==> Known(id in t, events, id)
  {
    if events != [] {
      KnownIff(cfg, t, events[..|events| - 1], id);
      KnownSnoc(id in t, events, id);
    }
  }

  /** One more record in the window. */
  lemma WindowGrows(cfg: Config, met: bool, events: seq<Event>, id: int)
    requires events != [] && IsRecord(met, events, |events| - 1, id)
    ensures
      var n := |events| - 1;
      var init := events[..n];
      var before, w := WindowAt(cfg, met, init, id), WindowAt(cfg, met, events, id);
      var anew := before.None? || events[n].now - events[before.value].now >= cfg.window;
      var fails := if events[n].op == Failure(id) then 1 else 0;
      && w == Some(if anew then n else before.value)
      && RecordsFrom(met, events, id, w.value) == (if anew then 0 else RecordsFrom(met, init, id, w.value)) + 1
      && FailuresFrom(events, id, w.value) == (if anew then 0 else FailuresFrom(init, id, w.value)) + fails
  {
    var n := |events| - 1;
    assert RecordsFrom(met, events[..n], id, n) == 0 && FailuresFrom(events[..n], id, n) == 0;
  }

  lemma WindowStays(cfg: Config, met: bool, events: seq<Event>, id: int)
    requires events != [] && !IsRecord(met, events, |events| - 1, id)
    ensures
      var init := events[..|events| - 1];
      var w := WindowAt(cfg, met, events, id);
      && w == WindowAt(cfg, met, init, id)
      && (w.Some? ==> RecordsFrom(met, events, id, w.value) == RecordsFrom(met, init, id, w.value)
                      && FailuresFrom(events, id, w.value) == FailuresFrom(init, id, w.value))
  {
  }

  /** A failure counted on top of the calls' counters gives the calls' counters. */
  lemma CountedIsTallied(cfg: Config, met: bool, events: seq<Event>, id: int, p: Provider)
    requires events != [] && events[|events| - 1].op == Failure(id)
    requires Tallied(cfg, met, events[..|events| - 1], id, p)
    ensures Tallied(cfg, met, events, id, Counted(cfg, p, events[|events| - 1].now))
  {
    WindowGrows(cfg, met, events, id);
  }

  lemma OpensIffTrips(cfg: Config, met: bool, events: seq<Event>, id: int, p: Provider)
    requires events != [] && events[|events| - 1].op == Failure(id) && !p.probing
    requires Tallied(cfg, met, events[..|events| - 1], id, p)
    ensures Opens(cfg, p, events[|events| - 1].now) <==> Trips(cfg, met, events, id)
  {
    CountedIsTallied(cfg, met, events, id, p);
    var w := WindowAt(cfg, met, events, id);
    assert w.Some?;
    LastAreFailuresIff(events, id, cfg.failureThreshold);
    OpensIff(cfg, p, events[|events| - 1].now, FailuresSinceSuccess(events, id),
             RecordsFrom(met, events, id, w.value), FailuresFrom(events, id, w.value));
  }

  lemma OpensIff(cfg: Config, p: Provider, now: Time, run: nat, records: nat, failures: nat)
    requires
      var q := Counted(cfg, p, now);
      !p.probing && q.consecFailures == run && q.windowRequests == records && q.windowFailures == failures
    ensures Opens(cfg, p, now) <==> run >= cfg.failureThreshold || TooManyFail(cfg, records, failures)
  {
  }

  lemma SuccessIsTallied(cfg: Config, met: bool, events: seq<Event>, id: int, p: Provider)
    requires events != [] && events[|events| - 1].op == Success(id) && Known(met, events[..|events| - 1], id)
    requires Tallied(cfg, met, events[..|events| - 1], id, p)
    ensures Tallied(cfg, met, events, id, AfterSuccess(cfg, p, events[|events| - 1].now))
  {
    WindowGrows(cfg, met, events, id);
  }

  lemma {:induction false} UnknownHasNoFailures(met: bool, events: seq<Event>, id: int)
    ensures !Known(met, events, id) ==> FailuresSinceSuccess(events, id) == 0
    decreases events
  {
    if events != [] {
      UnknownHasNoFailures(met, events[..|events| - 1], id);
      KnownSnoc(met, events, id);
    }
  }

  /** The provider as it is before call `n`. */
  ghost function Before(cfg: Config, t: Table, events: seq<Event>, n: nat, id: int): Provider
    requires n <= |events|
  {
    Lookup(Run(cfg, t, events[..n]), id)
  }

  /** Call `n` is no record of a probe, and opens nothing. */
  ghost predicate LeavesClosed(cfg: Config, t: Table, events: seq<Event>, n: nat, id: int)
    requires n < |events|
  {
    && (events[n].op == Success(id) || events[n].op == Failure(id) ==> !Before(cfg, t, events, n, id).probing)
    && (events[n].op == Failure(id) ==> !Opens(cfg, Before(cfg, t, events, n, id), events[n].now))
  }

  ghost predicate Undisturbed(cfg: Config, t: Table, events: seq<Event>, id: int) {
    forall n :: 0 <= n < |events| ==> LeavesClosed(cfg, t, events, n, id)
  }

  lemma UndisturbedInit(cfg: Config, t: Table, events: seq<Event>, id: int)
    requires events != []
    ensures Undisturbed(cfg, t, events, id) <==>
      Undisturbed(cfg, t, events[..|events| - 1], id) && LeavesClosed(cfg, t, events, |events| - 1, id)
  {
    var init := events[..|events| - 1];
    forall n | 0 <= n < |init| ensures LeavesClosed(cfg, t, init, n, id) <==> LeavesClosed(cfg, t, events, n, id) {
      assert init[..n] == events[..n];
    }
  }

  lemma TalliedStep(cfg: Config, t: Table, events: seq<Event>, id: int)
    requires events != [] && LeavesClosed(cfg, t, events, |events| - 1, id)
    requires Tallied(cfg, id in t, events[..|events| - 1], id, Before(cfg, t, events, |events| - 1, id))
    ensures Tallied(cfg, id in t, events, id, Lookup(Run(cfg, t, events), id))
  {
    var n := |events| - 1;
    var init, e, met := events[..n], events[n], id in t;
    var p := Lookup(Run(cfg, t, init), id);
    KnownIff(cfg, t, init, id);
    if e.op == Failure(id) {
      CountedIsTallied(cfg, met, events, id, p);
    } else if e.op == Success(id) && Known(met, init, id) {
      SuccessIsTallied(cfg, met, events, id, p);
    } else {
      WindowStays(cfg, met, events, id);
      UnknownHasNoFailures(met, init, id);
    }
  }

  /** From an empty count on, and as long as nothing opens the circuit, the counters are the calls':
      the failures since the last success, and the records and failures of the window. */
  lemma {:induction false} CountersAreTheCalls(cfg: Config, t: Table, events: seq<Event>, id: int)
    requires Cleared(Lookup(t, id)) && Undisturbed(cfg, t, events, id)
    ensures Tallied(cfg, id in t, events, id, Lookup(Run(cfg, t, events), id))
  {
    if events != [] {
      UndisturbedInit(cfg, t, events, id);
      CountersAreTheCalls(cfg, t, events[..|events| - 1], id);
      TalliedStep(cfg, t, events, id);
    }
  }

  /** From an empty count on: the next failure outside a probe opens the circuit exactly when the calls
      trip it. */
  lemma OpensNextIff(cfg: Config, t: Table, events: seq<Event>, id: int, now: Time)
    requires Cleared(Lookup(t, id)) && Undisturbed(cfg, t, events, id) && !Lookup(Run(cfg, t, events), id).probing
    ensures Opens(cfg, Lookup(Run(cfg, t, events), id), now)
       <==> Trips(cfg, id in t, events + [Event(Failure(id), now)], id)
  {
    var all := events + [Event(Failure(id), now)];
    assert all[..|events|] == events;
    CountersAreTheCalls(cfg, t, events, id);
    OpensIffTrips(cfg, id in t, all, id, Lookup(Run(cfg, t, events), id));
  }

  // ---------- the first opening ----------

  ghost predicate IsOpen(cfg: Config, events: seq<Event>, id: int) {
    Lookup(Run(cfg, map[], events), id).openUntil.Some?
  }

  ghost predicate NeverOpened(cfg: Config, events: seq<Event>, id: int) {
    forall n :: 0 <= n <= |events| ==> !IsOpen(cfg, events[..n], id)
  }

  lemma NeverOpenedSnoc(cfg: Config, events: seq<Event>, id: int)
    requires events != []
    ensures NeverOpened(cfg, events, id) <==>
      NeverOpened(cfg, events[..|events| - 1], id) && !IsOpen(cfg, events, id)
  {
    var n := |events| - 1;
    assert events[..n + 1] == events;
    assert forall k :: 0 <= k <= n ==> events[..n][..k] == events[..k];
  }

  lemma {:induction false} NeverOpenedIsUndisturbed(cfg: Config, events: seq<Event>, id: int)
    requires NeverOpened(cfg, events, id)
    ensures Undisturbed(cfg, map[], events, id)
  {
    if events != [] {
      var n := |events| - 1;
      NeverOpenedSnoc(cfg, events, id);
      NeverOpenedIsUndisturbed(cfg, events[..n], id);
      assert !IsOpen(cfg, events[..n], id);
      SlotsAndProgress(cfg, events[..n], id);
      UndisturbedInit(cfg, map[], events, id);
    }
  }

  /** A circuit that has not opened opens at a failure exactly when the last `failure_threshold`
      records are failures, or the window holds `min_requests` records and their failed share
      reaches the rate; no other call opens it. */
  lemma FirstOpeningIff(cfg: Config, events: seq<Event>, id: int)
    requires events != [] && NeverOpened(cfg, events[..|events| - 1], id)
    ensures IsOpen(cfg, events, id) <==> Trips(cfg, false, events, id)
  {
    var n := |events| - 1;
    var init, e := events[..n], events[n];
    assert init[..n] == init;
    assert !IsOpen(cfg, init, id);
    SlotsAndProgress(cfg, init, id);
    NeverOpenedIsUndisturbed(cfg, init, id);
    if e.op == Failure(id) {
      assert events == init + [Event(Failure(id), e.now)];
      OpensNextIff(cfg, map[], init, id, e.now);
    }
  }

  /** Over every run: the circuit stays closed exactly as long as no call trips it. */
  lemma {:induction false} StaysClosedIff(cfg: Config, events: seq<Event>, id: int)
    ensures NeverOpened(cfg, events, id) <==> forall n :: 0 <= n <= |events| ==> !Trips(cfg, false, events[..n], id)
  {
    if events == [] {
      assert forall n :: 0 <= n <= 0 ==> events[..n] == [];
    } else {
      var n := |events| - 1;
      StaysClosedIff(cfg, events[..n], id);
      NeverOpenedSnoc(cfg, events, id);
      assert events[..n + 1] == events;
      assert forall k :: 0 <= k <= n ==> events[..n][..k] == events[..k];
      if NeverOpened(cfg, events[..n], id) {
        FirstOpeningIff(cfg, events, id);
      }
    }
  }

  // ---------- openings after the first ----------

  /** An opening starts both counts over: outside a probe, the circuit opens again exactly when the
      calls since the opening trip it. */
  lemma OpensAgainIff(cfg: Config, t: Table, id: int, since: Time, events: seq<Event>, now: Time)
    requires !Lookup(t, id).probing && Opens(cfg, Lookup(t, id), since)
    requires
      var after := Step(cfg, t, Failure(id), since);
      Undisturbed(cfg, after, events, id) && !Lookup(Run(cfg, after, events), id).probing
    ensures Opens(cfg, Lookup(Run(cfg, Step(cfg, t, Failure(id), since), events), id), now)
       <==> Trips(cfg, true, events + [Event(Failure(id), now)], id)
  {
    OpensNextIff(cfg, Step(cfg, t, Failure(id), since), events, id, now);
  }

  /** A failed probe leaves no margin: the provider's next record opens the circuit again if it is a
      failure, probe or not. */
  lemma {:induction false} FailedProbeLeavesNoMargin(cfg: Config, t: Table, id: int, since: Time, events: seq<Event>, now: Time)
    requires Lookup(t, id).probing
    requires forall i :: 0 <= i < |events| ==> events[i].op.id == id ==> events[i].op.Allow?
    ensures Opens(cfg, Lookup(Run(cfg, Step(cfg, t, Failure(id), since), events), id), now)
  {
    AllowsKeepCount(cfg, Step(cfg, t, Failure(id), since), events, id);
  }

  lemma {:induction false} AllowsKeepCount(cfg: Config, t: Table, events: seq<Event>, id: int)
    requires forall i :: 0 <= i < |events| ==> events[i].op.id == id ==> events[i].op.Allow?
    ensures Lookup(Run(cfg, t, events), id).consecFailures == Lookup(t, id).consecFailures
  {
    if events != [] {
      AllowsKeepCount(cfg, t, events[..|events| - 1], id);
    }
  }
}
