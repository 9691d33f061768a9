/** The per-provider circuit breaker (src/service/breaker.rs).

Every method holds the mutex for its whole body, so each is one atomic step; the time of the step
is a parameter, and time does not run backwards.  The failure rate is compared in exact
arithmetic. */
module Breaker {
  import opened Text

  type Time = int

  datatype Config = Config(
    failureThreshold: nat, openFor: nat, failureRate: real,
    minRequests: nat, window: nat, successThreshold: nat)

  datatype Provider = Provider(
    consecFailures: nat,
    openUntil: Option<Time>,
    /** the half-open slot is taken */
    probing: bool,
    halfOpenSuccesses: nat,
    windowRequests: nat,
    windowFailures: nat,
    windowStart: Option<Time>)

  type Table = map<int, Provider>

  const DEFAULT := Provider(0, None, false, 0, 0, 0, None)

  function Lookup(t: Table, id: int): Provider {
    if id in t then t[id] else DEFAULT
  }

  // ---------- the steps on one provider ----------

  predicate Granted(p: Provider, now: Time) {
    p.openUntil.None? || (now >= p.openUntil.value && !p.probing)
  }

  function AfterAllow(p: Provider, now: Time): Provider {
    if p.openUntil.Some? && now >= p.openUntil.value && !p.probing then p.(probing := true) else p
  }

  function Decayed(cfg: Config, p: Provider, now: Time): Provider {
    match p.windowStart
    case None => p.(windowStart := Some(now))
    case Some(start) =>
      if now - start >= cfg.window then p.(windowRequests := 0, windowFailures := 0, windowStart := Some(now)) else p
  }

  function AfterSuccess(cfg: Config, p: Provider, now: Time): Provider {
    var q := p.(consecFailures := 0);
    var r :=
      if !q.probing then q.(openUntil := None)
      else if q.halfOpenSuccesses + 1 >= cfg.successThreshold then
        q.(probing := false, halfOpenSuccesses := 0, openUntil := None)
      else
        q.(probing := false, halfOpenSuccesses := q.halfOpenSuccesses + 1, openUntil := Some(now + cfg.openFor));
    var d := Decayed(cfg, r, now);
    d.(windowRequests := d.windowRequests + 1)
  }

  /** A failure that is not a probe, counted. */
  function Counted(cfg: Config, p: Provider, now: Time): Provider {
    var d := Decayed(cfg, p, now);
    d.(consecFailures := d.consecFailures + 1,
       windowRequests := d.windowRequests + 1, windowFailures := d.windowFailures + 1)
  }

  predicate RateTooHigh(cfg: Config, p: Provider) {
    p.windowRequests >= cfg.minRequests && p.windowFailures as real >= cfg.failureRate * p.windowRequests as real
  }

  /** Does this failure open, or reopen, the circuit? */
  predicate Opens(cfg: Config, p: Provider, now: Time) {
    p.probing || Counted(cfg, p, now).consecFailures >= cfg.failureThreshold || RateTooHigh(cfg, Counted(cfg, p, now))
  }

  function AfterFailure(cfg: Config, p: Provider, now: Time): Provider {
    if p.probing then
      p.(probing := false, halfOpenSuccesses := 0, openUntil := Some(now + cfg.openFor),
         consecFailures := cfg.failureThreshold)
    else if Opens(cfg, p, now) then
      Counted(cfg, p, now).(openUntil := Some(now + cfg.openFor), consecFailures := 0,
                            windowRequests := 0, windowFailures := 0, windowStart := None)
    else Counted(cfg, p, now)
  }

  // ---------- the breaker ----------

  class CircuitBreaker {
    const cfg: Config
    var states: Table
    /** Every call made, with its time. */
    ghost var log: seq<Event>

    constructor (cfg: Config)
      ensures this.cfg == cfg && states == map[] && log == []
    {
      this.cfg, states, log := cfg, map[], [];
    }

    /** `allow`: creates the entry, and takes the slot of an expired circuit. */
    method Allow(id: int, now: Time) returns (granted: bool)
      modifies this
      ensures granted == Granted(Lookup(old(states), id), now)
      ensures states == Step(cfg, old(states), Op.Allow(id), now)
      ensures log == old(log) + [Event(Op.Allow(id), now)]
    {
      log := log + [Event(Op.Allow(id), now)];
      if id !in states {
        states := states[id := DEFAULT];
      }
      var p := states[id];
      match p.openUntil {
        case None =>
          granted := true;
        case Some(until) =>
          if now >= until && !p.probing {
            states := states[id := p.(probing := true)];
            granted := true;
          } else {
            granted := false;
          }
      }
    }

    method RecordSuccess(id: int, now: Time)
      modifies this
      ensures states == Step(cfg, old(states), Success(id), now)
      ensures log == old(log) + [Event(Success(id), now)]
    {
      log := log + [Event(Success(id), now)];
      if id !in states {
        return;
      }
      var p := states[id].(consecFailures := 0);
      if p.probing {
        p := p.(probing := false, halfOpenSuccesses := p.halfOpenSuccesses + 1);
        if p.halfOpenSuccesses >= cfg.successThreshold {
          p := p.(openUntil := None, halfOpenSuccesses := 0);
        } else {
          p := p.(openUntil := Some(now + cfg.openFor));
        }
      } else {
        p := p.(openUntil := None);
      }
      p := Decayed(cfg, p, now);
      states := states[id := p.(windowRequests := p.windowRequests + 1)];
    }

    method RecordFailure(id: int, now: Time)
      modifies this
      ensures states == Step(cfg, old(states), Failure(id), now)
      ensures log == old(log) + [Event(Failure(id), now)]
    {
      log := log + [Event(Failure(id), now)];
      var p := Lookup(states, id);
      if p.probing {
        p := p.(probing := false, halfOpenSuccesses := 0);
        p := p.(openUntil := Some(now + cfg.openFor), consecFailures := cfg.failureThreshold);
        states := states[id := p];
        return;
      }
      p := Decayed(cfg, p, now);
      p := p.(consecFailures := p.consecFailures + 1,
              windowRequests := p.windowRequests + 1, windowFailures := p.windowFailures + 1);
      if p.consecFailures >= cfg.failureThreshold || RateTooHigh(cfg, p) {
        p := p.(openUntil := Some(now + cfg.openFor), consecFailures := 0,
                windowRequests := 0, windowFailures := 0, windowStart := None);
      }
      states := states[id := p];
    }
  }

  // ---------- runs ----------

  datatype Op = Allow(id: int) | Success(id: int) | Failure(id: int)

  function Step(cfg: Config, t: Table, op: Op, now: Time): Table {
    match op
    case Allow(id) => t[id := AfterAllow(Lookup(t, id), now)]
    case Success(id) => if id in t then t[id := AfterSuccess(cfg, t[id], now)] else t
    case Failure(id) => t[id := AfterFailure(cfg, Lookup(t, id), now)]
  }

  /** An operation with its time. */
  datatype Event = Event(op: Op, now: Time)

  function Run(cfg: Config, t: Table, events: seq<Event>): Table {
    if events == [] then t
    else
      var n := |events| - 1;
      Step(cfg, Run(cfg, t, events[..n]), events[n].op, events[n].now)
  }

  /** Times from `from` on, not running backwards, up to `to`. */
  ghost predicate Timed(events: seq<Event>, from: Time, to: Time) {
    && (forall i :: 0 <= i < |events| ==> from <= events[i].now <= to)
    && (forall i, j :: 0 <= i < j < |events| ==> events[i].now <= events[j].now)
  }

  lemma TimedInit(events: seq<Event>, from: Time, to: Time)
    requires Timed(events, from, to) && events != []
    ensures Timed(events[..|events| - 1], from, events[|events| - 1].now)
  {
  }

  /** The invariant of every entry at time `now`. */
  ghost predicate Sound(cfg: Config, p: Provider, now: Time) {
    && (p.probing ==> p.openUntil.Some? && p.openUntil.value <= now)
    && (p.halfOpenSuccesses == 0 || p.halfOpenSuccesses < cfg.successThreshold)
    && p.windowFailures <= p.windowRequests
  }

  ghost predicate AllSound(cfg: Config, t: Table, now: Time) {
    forall id :: id in t ==> Sound(cfg, t[id], now)
  }

  lemma StepKeepsSound(cfg: Config, p: Provider, now: Time)
    requires Sound(cfg, p, now)
    ensures Sound(cfg, AfterAllow(p, now), now)
    ensures Sound(cfg, AfterSuccess(cfg, p, now), now)
    ensures Sound(cfg, AfterFailure(cfg, p, now), now)
  {
  }

  /** Every reachable entry is sound: a taken slot belongs to a circuit that is open and whose
      window has passed, and the counters are within their bounds. */
  lemma {:induction false} RunKeepsSound(cfg: Config, t: Table, events: seq<Event>, from: Time, to: Time)
    requires AllSound(cfg, t, from) && from <= to && Timed(events, from, to)
    ensures AllSound(cfg, Run(cfg, t, events), to)
  {
    if events != [] {
      var n := |events| - 1;
      var now := events[n].now;
      TimedInit(events, from, to);
      RunKeepsSound(cfg, t, events[..n], from, now);
      var before := Run(cfg, t, events[..n]);
      StepKeepsSound(cfg, Lookup(before, events[n].op.id), now);
    }
  }

  /** No operation touches another provider. */
  lemma {:induction false} OthersUntouched(cfg: Config, t: Table, events: seq<Event>, id: int)
    requires forall i :: 0 <= i < |events| ==> events[i].op.id != id
    ensures Lookup(Run(cfg, t, events), id) == Lookup(t, id)
  {
    if events != [] {
      OthersUntouched(cfg, t, events[..|events| - 1], id);
    }
  }

  // ---------- an open circuit ----------

  /** A failure opens the circuit for the full window exactly when it was a probe, the run of
      failures reached its threshold, or the failure rate is too high; otherwise it leaves the
      circuit as it is. */
  lemma FailureOpensIff(cfg: Config, p: Provider, now: Time)
    ensures
      var q := AfterFailure(cfg, p, now);
      if Opens(cfg, p, now) then q.openUntil == Some(now + cfg.openFor) && !q.probing
      else q.openUntil == p.openUntil && q.probing == p.probing
  {
  }

  /** Open until at least `until`, slot free. */
  ghost predicate Closed(p: Provider, until: Time) {
    p.openUntil.Some? && p.openUntil.value >= until && !p.probing
  }

  /** A circuit opened at `since` refuses for its whole window, unless a success intervenes. */
  lemma {:induction false} OpenRefuses(cfg: Config, t: Table, events: seq<Event>, id: int, since: Time)
    requires Closed(Lookup(t, id), since + cfg.openFor)
    requires forall i :: 0 <= i < |events| ==> since <= events[i].now < since + cfg.openFor && events[i].op != Success(id)
    ensures Closed(Lookup(Run(cfg, t, events), id), since + cfg.openFor)
    ensures forall now :: now < since + cfg.openFor ==> !Granted(Lookup(Run(cfg, t, events), id), now)
  {
    if events != [] {
      var n := |events| - 1;
      OpenRefuses(cfg, t, events[..n], id, since);
      var e := events[n];
      if e.op == Failure(id) {
        FailureOpensIff(cfg, Lookup(Run(cfg, t, events[..n]), id), e.now);
      }
    }
  }

  /** After an opening failure every call for that provider is refused for the window. */
  lemma OpeningFailureRefuses(cfg: Config, t: Table, id: int, now: Time, events: seq<Event>, later: Time)
    requires Opens(cfg, Lookup(t, id), now)
    requires forall i :: 0 <= i < |events| ==> now <= events[i].now < now + cfg.openFor && events[i].op != Success(id)
    requires later < now + cfg.openFor
    ensures !Granted(Lookup(Run(cfg, Step(cfg, t, Failure(id), now), events), id), later)
  {
    FailureOpensIff(cfg, Lookup(t, id), now);
    OpenRefuses(cfg, Step(cfg, t, Failure(id), now), events, id, now);
  }

  // ---------- the half-open slot ----------

  /** A taken slot stays taken, and every call is refused, until the provider's next record. */
  lemma {:induction false} SlotHeldUntilRecord(cfg: Config, t: Table, events: seq<Event>, id: int)
    requires Lookup(t, id).probing && Lookup(t, id).openUntil.Some?
    requires forall i :: 0 <= i < |events| ==> events[i].op.id == id ==> events[i].op.Allow?
    ensures Lookup(Run(cfg, t, events), id) == Lookup(t, id)
    ensures forall now :: !Granted(Lookup(Run(cfg, t, events), id), now)
  {
    if events != [] {
      SlotHeldUntilRecord(cfg, t, events[..|events| - 1], id);
    }
  }

  /** Any record frees the slot. */
  lemma RecordFreesSlot(cfg: Config, p: Provider, now: Time)
    ensures !AfterSuccess(cfg, p, now).probing && !AfterFailure(cfg, p, now).probing
  {
  }

  /** The outcomes of the probes of one provider, in order; records outside a probe are not among them. */
  function Probes(cfg: Config, t: Table, events: seq<Event>, id: int): seq<bool> {
    if events == [] then []
    else
      var n := |events| - 1;
      var e := events[n];
      Probes(cfg, t, events[..n], id) +
      (if e.op.id == id && !e.op.Allow? && Lookup(Run(cfg, t, events[..n]), id).probing then [e.op.Success?] else [])
  }

  /** Successful probes since the last failed probe, starting over when the threshold closes the circuit. */
  function Streak(probes: seq<bool>, threshold: nat): nat {
    if probes == [] || !probes[|probes| - 1] then 0
    else
      var s := Streak(probes[..|probes| - 1], threshold) + 1;
      if s >= threshold then 0 else s
  }

  lemma StreakSnoc(probes: seq<bool>, ok: bool, threshold: nat)
    ensures Streak(probes + [ok], threshold) ==
      if !ok || Streak(probes, threshold) + 1 >= threshold then 0 else Streak(probes, threshold) + 1
  {
    assert (probes + [ok])[..|probes|] == probes;
  }

  /** How a step moves the progress: only a probe's record does. */
  lemma ProgressStep(cfg: Config, t: Table, op: Op, now: Time, id: int)
    requires Lookup(t, id).halfOpenSuccesses == 0 || Lookup(t, id).halfOpenSuccesses < cfg.successThreshold
    ensures
      var p, q := Lookup(t, id), Lookup(Step(cfg, t, op, now), id);
      q.halfOpenSuccesses ==
        if op.id != id || op.Allow? || !p.probing then p.halfOpenSuccesses
        else if op.Failure? || p.halfOpenSuccesses + 1 >= cfg.successThreshold then 0
        else p.halfOpenSuccesses + 1
  {
  }

  lemma StreakBelowThreshold(probes: seq<bool>, threshold: nat)
    ensures Streak(probes, threshold) == 0 || Streak(probes, threshold) < threshold
  {
  }

  /** The progress towards closing is the streak of successful probes: over every run it counts
      probes alone.  Successes and failures of other requests in between, which the documentation's
      "consecutive successes" would reset on, do not change it. */
  lemma {:induction false} ProgressIsProbeStreak(cfg: Config, events: seq<Event>, id: int)
    ensures Lookup(Run(cfg, map[], events), id).halfOpenSuccesses
         == Streak(Probes(cfg, map[], events, id), cfg.successThreshold)
  {
    if events != [] {
      var n := |events| - 1;
      var e, before := events[n], Probes(cfg, map[], events[..n], id);
      ProgressIsProbeStreak(cfg, events[..n], id);
      StreakBelowThreshold(before, cfg.successThreshold);
      ProgressStep(cfg, Run(cfg, map[], events[..n]), e.op, e.now, id);
      StreakSnoc(before, e.op.Success?, cfg.successThreshold);
      assert before + [] == before;
    }
  }

  /** A successful probe closes the circuit exactly when it completes the streak; otherwise the
      circuit is open again for its full window. */
  lemma ProbeSuccessClosesIff(cfg: Config, p: Provider, now: Time)
    requires p.probing && p.halfOpenSuccesses < cfg.successThreshold
    ensures
      var q := AfterSuccess(cfg, p, now);
      && (q.openUntil.None? <==> p.halfOpenSuccesses == cfg.successThreshold - 1)
      && (q.openUntil.Some? ==> forall later :: Granted(q, later) <==> later >= now + cfg.openFor)
  {
  }

  // ---------- when closing is earned ----------

  /** The last event is a success that closes an open circuit. */
  predicate Closes(cfg: Config, events: seq<Event>, id: int) {
    events != [] &&
    var n := |events| - 1;
    && events[n].op == Success(id)
    && Lookup(Run(cfg, map[], events[..n]), id).openUntil.Some?
    && Lookup(Run(cfg, map[], events), id).openUntil.None?
  }

  /** How many of the provider's latest records are successes, whoever made them. */
  function Consecutive(events: seq<Event>, id: int): nat {
    if events == [] then 0
    else
      var n := |events| - 1;
      if events[n].op == Success(id) then Consecutive(events[..n], id) + 1
      else if events[n].op == Failure(id) then 0
      else Consecutive(events[..n], id)
  }

  /** The progress that was left standing by the provider's last failure. */
  function CarriedOver(cfg: Config, events: seq<Event>, id: int): nat {
    if events == [] then 0
    else
      var n := |events| - 1;
      if events[n].op == Failure(id) then Lookup(Run(cfg, map[], events), id).halfOpenSuccesses
      else CarriedOver(cfg, events[..n], id)
  }

  /** The time-free part of the invariant. */
  lemma {:induction false} SlotsAndProgress(cfg: Config, events: seq<Event>, id: int)
    ensures
      var p := Lookup(Run(cfg, map[], events), id);
      && (p.probing ==> p.openUntil.Some?)
      && (p.halfOpenSuccesses == 0 || p.halfOpenSuccesses < cfg.successThreshold)
  {
    if events != [] {
      SlotsAndProgress(cfg, events[..|events| - 1], id);
    }
  }

  /** While a circuit is open, its progress is what the last failure left plus the successes since. */
  lemma {:induction false} ProgressBalance(cfg: Config, events: seq<Event>, id: int)
    requires Lookup(Run(cfg, map[], events), id).openUntil.Some?
    ensures Consecutive(events, id) + CarriedOver(cfg, events, id) == Lookup(Run(cfg, map[], events), id).halfOpenSuccesses
  {
    if events != [] {
      var init := events[..|events| - 1];
      SlotsAndProgress(cfg, init, id);
      if Lookup(Run(cfg, map[], init), id).openUntil.Some? {
        ProgressBalance(cfg, init, id);
      }
    }
  }

  /** Over every run, the exact condition under which closing keeps the documented promise of
      `success_threshold` consecutive successes: the last failure left no progress standing, and the
      closing success is a probe, or completes the count although it is none. */
  lemma ClosingIsEarnedIff(cfg: Config, events: seq<Event>, id: int)
    requires Closes(cfg, events, id)
    ensures
      var init := events[..|events| - 1];
      var before := Lookup(Run(cfg, map[], init), id);
      Consecutive(events, id) >= cfg.successThreshold <==>
        CarriedOver(cfg, init, id) == 0 && (before.probing || before.halfOpenSuccesses + 1 >= cfg.successThreshold)
  {
    var init := events[..|events| - 1];
    ProgressBalance(cfg, init, id);
    SlotsAndProgress(cfg, init, id);
  }

  // ---------- runs that close too early ----------

  lemma Snoc(cfg: Config, events: seq<Event>, e: Event, id: int)
    ensures Run(cfg, map[], events + [e]) == Step(cfg, Run(cfg, map[], events), e.op, e.now)
    ensures e.op != Failure(id) ==> CarriedOver(cfg, events + [e], id) == CarriedOver(cfg, events, id)
    ensures (events + [e])[..|events|] == events
  {
    assert (events + [e])[..|events|] == events;
  }

  lemma TimedSnoc(events: seq<Event>, e: Event, from: Time, to: Time)
    requires Timed(events, from, to) && from <= to <= e.now
    ensures Timed(events + [e], from, e.now)
  {
  }

  /** Open, and not being probed. */
  ghost predicate Waiting(cfg: Config, events: seq<Event>, id: int, until: Time, progress: nat) {
    var p := Lookup(Run(cfg, map[], events), id);
    p.openUntil == Some(until) && !p.probing && p.halfOpenSuccesses == progress
  }

  /** Nothing but failures of one provider, at time zero. */
  ghost predicate OnlyFailures(events: seq<Event>, id: int) {
    forall i :: 0 <= i < |events| ==> events[i] == Event(Failure(id), 0)
  }

  /** Not open yet, nor probed, nor at the threshold. */
  ghost predicate StillClosed(cfg: Config, p: Provider) {
    p.openUntil.None? && !p.probing && p.halfOpenSuccesses == 0 && p.consecFailures <= cfg.failureThreshold
  }

  lemma FailureStep(cfg: Config, p: Provider, now: Time)
    requires StillClosed(cfg, p)
    ensures
      var q := AfterFailure(cfg, p, now);
      if Opens(cfg, p, now) then q.openUntil == Some(now + cfg.openFor) && !q.probing && q.halfOpenSuccesses == 0
      else StillClosed(cfg, q) && q.consecFailures == p.consecFailures + 1
  {
  }

  /** Failures alone open a circuit, at the latest when the threshold is reached. */
  lemma {:induction false} FailuresOpen(cfg: Config, id: int, events: seq<Event>) returns (more: seq<Event>)
    requires OnlyFailures(events, id) && StillClosed(cfg, Lookup(Run(cfg, map[], events), id))
    ensures OnlyFailures(more, id) && more != [] && Waiting(cfg, more, id, cfg.openFor, 0)
    decreases cfg.failureThreshold - Lookup(Run(cfg, map[], events), id).consecFailures
  {
    var e, p := Event(Failure(id), 0), Lookup(Run(cfg, map[], events), id);
    Snoc(cfg, events, e, id);
    FailureStep(cfg, p, 0);
    more := events + [e];
    if !Opens(cfg, p, 0) {
      more := FailuresOpen(cfg, id, more);
    }
  }

  /** A circuit that failures have just opened. */
  lemma JustOpened(cfg: Config, id: int) returns (events: seq<Event>)
    ensures OnlyFailures(events, id) && Timed(events, 0, 0) && Waiting(cfg, events, id, cfg.openFor, 0)
    ensures Consecutive(events, id) == 0
  {
    events := FailuresOpen(cfg, id, []);
    assert events[|events| - 1] == Event(Failure(id), 0);
  }

  /** Under every configuration: one late success, of a request from before the opening, closes the
      circuit although the threshold asks for more. */
  lemma LateSuccessCloses(cfg: Config, id: int) returns (events: seq<Event>)
    requires cfg.successThreshold >= 2
    ensures Timed(events, 0, 0) && Closes(cfg, events, id)
    ensures Consecutive(events, id) < cfg.successThreshold
  {
    var down := JustOpened(cfg, id);
    var e := Event(Success(id), 0);
    Snoc(cfg, down, e, id);
    TimedSnoc(down, e, 0, 0);
    events := down + [e];
  }

  /** A waiting circuit is probed when its window has passed. */
  lemma ProbeSucceeds(cfg: Config, id: int, events: seq<Event>, until: Time, progress: nat) returns (more: seq<Event>)
    requires Timed(events, 0, until) && 0 <= until
    requires Waiting(cfg, events, id, until, progress) && progress < cfg.successThreshold
    ensures Timed(more, 0, until) && CarriedOver(cfg, more, id) == CarriedOver(cfg, events, id)
    ensures more != [] && CarriedOver(cfg, more[..|more| - 1], id) == CarriedOver(cfg, events, id)
    ensures if progress + 1 < cfg.successThreshold then Waiting(cfg, more, id, until + cfg.openFor, progress + 1)
            else Closes(cfg, more, id)
  {
    var ask, record := Event(Op.Allow(id), until), Event(Success(id), until);
    Snoc(cfg, events, ask, id);
    Snoc(cfg, events + [ask], record, id);
    TimedSnoc(events, ask, 0, until);
    TimedSnoc(events + [ask], record, 0, until);
    more := events + [ask] + [record];
  }

  lemma {:induction false} ProbesClose(cfg: Config, id: int, events: seq<Event>, until: Time, progress: nat)
    returns (more: seq<Event>)
    requires Timed(events, 0, until) && 0 <= until
    requires Waiting(cfg, events, id, until, progress) && progress < cfg.successThreshold
    ensures exists to :: Timed(more, 0, to)
    ensures Closes(cfg, more, id) && CarriedOver(cfg, more[..|more| - 1], id) == CarriedOver(cfg, events, id)
    decreases cfg.successThreshold - progress
  {
    more := ProbeSucceeds(cfg, id, events, until, progress);
    if progress + 1 < cfg.successThreshold {
      more := ProbesClose(cfg, id, more, until + cfg.openFor, progress + 1);
    }
  }

  /** Under every configuration: a failure between the probes does not start the count over, so the
      circuit closes after fewer consecutive successes than the threshold. */
  lemma ClosesAcrossFailure(cfg: Config, id: int) returns (events: seq<Event>)
    requires cfg.successThreshold >= 2
    ensures exists to :: Timed(events, 0, to)
    ensures Closes(cfg, events, id)
    ensures Consecutive(events, id) < cfg.successThreshold
  {
    var down := JustOpened(cfg, id);
    var probed := ProbeSucceeds(cfg, id, down, cfg.openFor, 0);
    var e := Event(Failure(id), 2 * cfg.openFor);
    Snoc(cfg, probed, e, id);
    TimedSnoc(probed, e, 0, cfg.openFor);
    FailureOpensIff(cfg, Lookup(Run(cfg, map[], probed), id), e.now);
    var failed := probed + [e];
    var until := Lookup(Run(cfg, map[], failed), id).openUntil.value;
    assert CarriedOver(cfg, failed, id) == 1;
    events := ProbesClose(cfg, id, failed, until, 1);
    ClosingIsEarnedIff(cfg, events, id);
  }

  // ---------- the failure-rate window ----------

  /** This event adds to the provider's window: a record that is not a failed probe. */
  predicate Counts(cfg: Config, events: seq<Event>, n: nat, id: int)
    requires n < |events|
  {
    var before := Run(cfg, map[], events[..n]);
    match events[n].op
    case Allow(_) => false
    case Success(x) => x == id && id in before
    case Failure(x) => x == id && !Lookup(before, id).probing
  }

  /** The counted records from position `s` on, and the failures among them. */
  function Requests(cfg: Config, events: seq<Event>, id: int, s: nat): nat {
    if |events| <= s then 0
    else
      var n := |events| - 1;
      Requests(cfg, events[..n], id, s) + (if Counts(cfg, events, n, id) then 1 else 0)
  }

  function Failures(cfg: Config, events: seq<Event>, id: int, s: nat): nat {
    if |events| <= s then 0
    else
      var n := |events| - 1;
      Failures(cfg, events[..n], id, s) + (if Counts(cfg, events, n, id) && events[n].op.Failure? then 1 else 0)
  }

  /** The counters are those of the records from position `s` on, none older than the window's start. */
  ghost predicate WindowFrom(cfg: Config, events: seq<Event>, id: int, s: nat) {
    var p := Lookup(Run(cfg, map[], events), id);
    && s <= |events|
    && p.windowRequests == Requests(cfg, events, id, s)
    && p.windowFailures == Failures(cfg, events, id, s)
    && (p.windowStart.None? ==> p.windowRequests == 0 && p.windowFailures == 0)
    && (p.windowStart.Some? ==> s < |events| && forall i :: s <= i < |events| ==> p.windowStart.value <= events[i].now)
  }

  /** Does a record at this time start a new window? */
  predicate StartsAnew(cfg: Config, p: Provider, now: Time) {
    p.windowStart.None? || now - p.windowStart.value >= cfg.window
  }

  /** Where the window starts after one more event. */
  function NextFrom(cfg: Config, events: seq<Event>, id: int, s: nat): nat
    requires events != []
  {
    var n := |events| - 1;
    var before := Lookup(Run(cfg, map[], events[..n]), id);
    if !Counts(cfg, events, n, id) then s
    else if Lookup(Run(cfg, map[], events), id).windowStart.None? then n + 1
    else if StartsAnew(cfg, before, events[n].now) then n
    else s
  }

  /** The window of a provider: its counters and its start. */
  predicate WindowIs(p: Provider, requests: int, failures: int, start: Option<Time>) {
    p.windowRequests == requests && p.windowFailures == failures && p.windowStart == start
  }

  lemma RecordsInWindow(cfg: Config, p: Provider, now: Time)
    requires p.windowStart.None? ==> p.windowRequests == 0 && p.windowFailures == 0
    ensures
      var anew := StartsAnew(cfg, p, now);
      var r, f := if anew then 0 else p.windowRequests, if anew then 0 else p.windowFailures;
      var start := if anew then Some(now) else p.windowStart;
      && WindowIs(AfterSuccess(cfg, p, now), r + 1, f, start)
      && (if p.probing then WindowIs(AfterFailure(cfg, p, now), p.windowRequests, p.windowFailures, p.windowStart)
          else if Opens(cfg, p, now) then WindowIs(AfterFailure(cfg, p, now), 0, 0, None)
          else WindowIs(AfterFailure(cfg, p, now), r + 1, f + 1, start))
  {
  }

  lemma WindowStep(cfg: Config, events: seq<Event>, id: int, s: nat, from: Time, to: Time)
    requires events != [] && Timed(events, from, to) && WindowFrom(cfg, events[..|events| - 1], id, s)
    ensures WindowFrom(cfg, events, id, NextFrom(cfg, events, id, s))
  {
    var n := |events| - 1;
    var before, e := Run(cfg, map[], events[..n]), events[n];
    RecordsInWindow(cfg, Lookup(before, id), e.now);
    if !Counts(cfg, events, n, id) {
      UncountedKeepsWindow(cfg, before, e, id);
    }
    assert Requests(cfg, events[..n], id, n) == 0 && Failures(cfg, events[..n], id, n) == 0;
    assert forall i :: 0 <= i < n ==> events[..n][i] == events[i];
  }

  lemma UncountedKeepsWindow(cfg: Config, t: Table, e: Event, id: int)
    requires e.op == Failure(id) ==> Lookup(t, id).probing
    requires e.op == Success(id) ==> id !in t
    ensures
      var p := Lookup(t, id);
      WindowIs(Lookup(Step(cfg, t, e.op, e.now), id), p.windowRequests, p.windowFailures, p.windowStart)
  {
  }

  /** Over every run the failure rate is taken over a suffix of the run: exactly the counted records
      since the window started, and at a counted record the window is younger than its length. */
  lemma {:induction false} RateIsOfRecentRecords(cfg: Config, events: seq<Event>, id: int, from: Time, to: Time)
    returns (s: nat)
    requires Timed(events, from, to)
    ensures WindowFrom(cfg, events, id, s)
    ensures events != [] && Counts(cfg, events, |events| - 1, id) ==>
              var start, now := Lookup(Run(cfg, map[], events), id).windowStart, events[|events| - 1].now;
              start.Some? ==> start.value == now || now - start.value < cfg.window
  {
    if events == [] {
      s := 0;
    } else {
      TimedInit(events, from, to);
      var t := RateIsOfRecentRecords(cfg, events[..|events| - 1], id, from, events[|events| - 1].now);
      WindowStep(cfg, events, id, t, from, to);
      s := NextFrom(cfg, events, id, t);
    }
  }
}
