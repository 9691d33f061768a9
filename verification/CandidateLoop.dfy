/** How one request drives the breaker: the candidate filter and the attempt loop
(src/service/proxy.rs).

The filter asks the breaker about every candidate, which takes the half-open slot of an expired
one.  When more than one candidate survives, the loop asks again before each attempt.  An attempt
has many exits, and each tells the breaker by itself; a request body that cannot be built, or a client
that leaves, ends the request between the grant and the record. */
module CandidateLoop {
  import opened Text
  import opened Breaker
  import Priming

  /** What comes of sending: a client error that was read ahead while the request was being repaired,
      a failure, a client that leaves while the attempt waits, or a response.  A response has the class
      of its status, its content type, its body as it arrives, and whether a buffered read of the body
      would succeed. */
  datatype Reply =
    | PreRead
    | SendError
    | ClientLeft
    | Response(retryable: bool, success: bool, isSse: bool, items: seq<Priming.Item>, readable: bool)

  /** What will happen if a candidate is attempted. */
  datatype Attempt = Attempt(builds: bool, decrypts: bool, converted: bool, reply: Reply)

  /** A candidate is passed over, ends the request without a record because its body cannot be built or
      its client leaves, or is recorded. */
  datatype Visit = Skipped | Aborted | Dropped | Recorded(ok: bool)

  /** Does the reply count as an answer? */
  predicate Answers(parse: Priming.Parser, a: Attempt, streaming: bool) {
    match a.reply
    case PreRead => true
    case SendError => false
    case ClientLeft => false
    case Response(retryable, success, isSse, items, readable) =>
      && !retryable
      && (if !streaming then readable
          else if isSse || !a.converted then !Priming.Prime(Priming.AnalyserOf(parse), items, isSse, success).FailOver?
          else true)
  }

  /** One attempt; the streaming loop builds the body before it decrypts the key, the other loop
      afterwards. */
  function VisitOf(parse: Priming.Parser, a: Attempt, streaming: bool): Visit {
    if streaming && !a.builds then Aborted
    else if !a.decrypts then Recorded(false)
    else if !a.builds then Aborted
    else if a.reply.ClientLeft? then Dropped
    else Recorded(Answers(parse, a, streaming))
  }

  // ---------- the exits of an attempt ----------

  /** The read-ahead window gives the candidate up. */
  ghost predicate WindowFails(parse: Priming.Parser, a: Attempt) {
    a.reply.Response? &&
    Priming.Prime(Priming.AnalyserOf(parse), a.reply.items, a.reply.isSse, a.reply.success) == Priming.FailOver
  }

  /** The exits that record a success: a client error that was read ahead, and a response that is not
      retryable and whose body was read, whose window did not fail, or which was converted and is no
      event stream. */
  ghost predicate Wins(parse: Priming.Parser, a: Attempt, streaming: bool) {
    && a.builds && a.decrypts
    && (|| a.reply == PreRead
        || (&& a.reply.Response? && !a.reply.retryable
            && (|| (!streaming && a.reply.readable)
                || (streaming && (a.reply.isSse || !a.converted) && !WindowFails(parse, a))
                || (streaming && !a.reply.isSse && a.converted))))
  }

  /** The exits that record a failure: a key that does not decrypt, a send error, a retryable status, a
      body that cannot be read, and a window that fails. */
  ghost predicate Loses(parse: Priming.Parser, a: Attempt, streaming: bool) {
    || (!a.decrypts && (a.builds || !streaming))
    || (&& a.builds && a.decrypts
        && (|| a.reply == SendError
            || (a.reply.Response? && a.reply.retryable)
            || (a.reply.Response? && !streaming && !a.reply.readable)
            || (a.reply.Response? && streaming && (a.reply.isSse || !a.converted) && WindowFails(parse, a))))
  }

  /** The exits that tell the breaker nothing and end the request: a body that cannot be built, and a
      client that leaves. */
  ghost predicate EndsSilently(a: Attempt, streaming: bool) {
    || (!a.builds && (a.decrypts || streaming))
    || (a.builds && a.decrypts && a.reply == ClientLeft)
  }

  /** Every attempt takes one of the three kinds of exit. */
  lemma ExitsAre(parse: Priming.Parser, a: Attempt, streaming: bool)
    ensures VisitOf(parse, a, streaming) == Recorded(true) <==> Wins(parse, a, streaming)
    ensures VisitOf(parse, a, streaming) == Recorded(false) <==> Loses(parse, a, streaming)
    ensures VisitOf(parse, a, streaming) in {Aborted, Dropped} <==> EndsSilently(a, streaming)
  {
  }

  /** What one attempt adds to the log, exit by exit. */
  ghost predicate Logs(parse: Priming.Parser, a: Attempt, streaming: bool, id: int, now: Time,
                       before: seq<Event>, after: seq<Event>) {
    && (Wins(parse, a, streaming) <==> after == before + [Event(Success(id), now)])
    && (Loses(parse, a, streaming) <==> after == before + [Event(Failure(id), now)])
    && (EndsSilently(a, streaming) <==> after == before)
  }

  lemma LogsOf(parse: Priming.Parser, a: Attempt, streaming: bool, id: int, now: Time, before: seq<Event>)
    ensures Logs(parse, a, streaming, id, now, before, before + RecordCalls(id, VisitOf(parse, a, streaming), now))
  {
    var win, lose := Event(Success(id), now), Event(Failure(id), now);
    ExitsAre(parse, a, streaming);
    assert (before + [win])[|before|] == win && (before + [lose])[|before|] == lose;
    assert before + [] == before;
    assert |before + [win]| == |before + [lose]| == |before| + 1;
  }

  predicate Stops(v: Visit) {
    v.Aborted? || v.Dropped? || v == Recorded(true)
  }

  /** The times of some breaker calls of a request, in the order of the calls. */
  type Clock = nat -> Time

  /** The candidates the breaker allows, asking about each in order. */
  datatype Filtered = Filtered(table: Table, allowed: seq<int>)

  function Filter(cfg: Config, t: Table, ids: seq<int>, clock: Clock): Filtered {
    if ids == [] then Filtered(t, [])
    else
      var n := |ids| - 1;
      var f := Filter(cfg, t, ids[..n], clock);
      Filtered(Step(cfg, f.table, Op.Allow(ids[n]), clock(n)),
               if Granted(Lookup(f.table, ids[n]), clock(n)) then f.allowed + [ids[n]] else f.allowed)
  }

  /** The loop's parameters: its candidates, whether it asks the breaker again, and the times of
      its questions and of its records. */
  datatype Round = Round(
    ids: seq<int>, attempt: int -> Attempt, check: bool, streaming: bool, parse: Priming.Parser, clock: Clock, later: Clock)

  function VisitIn(r: Round, id: int): Visit {
    VisitOf(r.parse, r.attempt(id), r.streaming)
  }

  datatype Walk = Walk(table: Table, visits: seq<Visit>)

  predicate Stopped(visits: seq<Visit>) {
    visits != [] && Stops(visits[|visits| - 1])
  }

  /** The breaker after a visit's record, if it has one. */
  function AfterRecord(cfg: Config, t: Table, id: int, v: Visit, now: Time): Table {
    if v.Recorded? then Step(cfg, t, if v.ok then Success(id) else Failure(id), now) else t
  }

  /** What the loop does with one candidate, asked about at `now` and recorded `later`. */
  function Attend(cfg: Config, t: Table, r: Round, id: int, now: Time, later: Time): (Table, Visit) {
    var asked := if r.check then Step(cfg, t, Op.Allow(id), now) else t;
    if r.check && !Granted(Lookup(t, id), now) then (asked, Skipped)
    else (AfterRecord(cfg, asked, id, VisitIn(r, id), later), VisitIn(r, id))
  }

  /** One turn of the loop: the next candidate, unless the loop has stopped or run out. */
  function Advance(cfg: Config, r: Round, w: Walk): Walk {
    var i := |w.visits|;
    if Stopped(w.visits) || i >= |r.ids| then w
    else
      var (table, v) := Attend(cfg, w.table, r, r.ids[i], r.clock(i), r.later(i));
      Walk(table, w.visits + [v])
  }

  /** The attempt loop after `n` turns; one visit per candidate reached. */
  function WalkTo(cfg: Config, t: Table, r: Round, n: nat): Walk {
    if n == 0 then Walk(t, []) else Advance(cfg, r, WalkTo(cfg, t, r, n - 1))
  }

  datatype Request = Request(
    ids: seq<int>, attempt: int -> Attempt, streaming: bool, maxAttempts: int, parse: Priming.Parser,
    clock: Clock, later: Clock)

  function Survivors(cfg: Config, t: Table, r: Request): seq<int> {
    Filter(cfg, t, r.ids, r.clock).allowed
  }

  /** The loop works on the survivors, or on all candidates when there are none; it asks the breaker
      again only when there is a choice. */
  function RoundOf(cfg: Config, t: Table, r: Request): Round {
    var allowed := Survivors(cfg, t, r);
    Round(if allowed == [] then r.ids else allowed, r.attempt, |allowed| > 1, r.streaming, r.parse,
          (i: nat) => r.clock(|r.ids| + i), r.later)
  }

  function Tries(r: Request, n: nat): nat {
    var max := if r.maxAttempts < 1 then 1 else r.maxAttempts;
    if n < max then n else max
  }

  function Handle(cfg: Config, t: Table, r: Request): Walk {
    var round := RoundOf(cfg, t, r);
    WalkTo(cfg, Filter(cfg, t, r.ids, r.clock).table, round, Tries(r, |round.ids|))
  }

  // ---------- what the breaker is told ----------

  /** The breaker calls of the filter: one question per candidate. */
  function AsksOf(ids: seq<int>, clock: Clock): seq<Event> {
    seq(|ids|, i requires 0 <= i < |ids| => Event(Op.Allow(ids[i]), clock(i)))
  }

  /** The record of a visit. */
  function RecordCalls(id: int, v: Visit, now: Time): seq<Event> {
    if v.Recorded? then [Event(if v.ok then Success(id) else Failure(id), now)] else []
  }

  /** The breaker calls of a visit. */
  function CallsOf(id: int, v: Visit, check: bool, now: Time, later: Time): seq<Event> {
    (if check then [Event(Op.Allow(id), now)] else []) + RecordCalls(id, v, later)
  }

  function CallsTo(r: Round, visits: seq<Visit>): seq<Event>
    requires |visits| <= |r.ids|
  {
    if visits == [] then []
    else
      var n := |visits| - 1;
      CallsTo(r, visits[..n]) + CallsOf(r.ids[n], visits[n], r.check, r.clock(n), r.later(n))
  }

  // ---------- the procedures ----------

  /** `filter_candidates`: the allowed candidates, or none when every circuit refuses. */
  method FilterCandidates(b: CircuitBreaker, ids: seq<int>, clock: Clock) returns (allowed: seq<int>)
    modifies b
    ensures Filtered(b.states, allowed) == Filter(b.cfg, old(b.states), ids, clock)
    ensures b.log == old(b.log) + AsksOf(ids, clock)
  {
    allowed := [];
    for i := 0 to |ids|
      invariant Filtered(b.states, allowed) == Filter(b.cfg, old(b.states), ids[..i], clock)
      invariant b.log == old(b.log) + AsksOf(ids[..i], clock)
    {
      var ok := b.Allow(ids[i], clock(i));
      if ok {
        allowed := allowed + [ids[i]];
      }
      assert ids[..i + 1][..i] == ids[..i];
      assert AsksOf(ids[..i + 1], clock) == AsksOf(ids[..i], clock) + [Event(Op.Allow(ids[i]), clock(i))];
    }
    assert ids[..|ids|] == ids;
  }

  /** The body of the streaming loop: every exit tells the breaker where it is taken, the read-ahead
      window inside `RunWindow`.  Whatever happens, that is one call, or none when the body cannot be
      built or the client leaves. */
  method TryStreaming(b: CircuitBreaker, parse: Priming.Parser, id: int, a: Attempt, now: Time) returns (v: Visit)
    modifies b
    ensures v == VisitOf(parse, a, true)
    ensures b.log == old(b.log) + RecordCalls(id, v, now)
    ensures b.states == AfterRecord(b.cfg, old(b.states), id, v, now)
    ensures Logs(parse, a, true, id, now, old(b.log), b.log)
  {
    LogsOf(parse, a, true, id, now, b.log);
    if !a.builds {
      return Aborted;
    }
    if !a.decrypts {
      b.RecordFailure(id, now);
      return Recorded(false);
    }
    match a.reply {
      case PreRead =>
        b.RecordSuccess(id, now);
        return Recorded(true);
      case SendError =>
        b.RecordFailure(id, now);
        return Recorded(false);
      case ClientLeft =>
        return Dropped;
      case Response(retryable, success, isSse, items, _) =>
        if retryable {
          b.RecordFailure(id, now);
          return Recorded(false);
        }
        var willStream := isSse || !a.converted;
        if willStream {
          var outcome, _ := Priming.RunWindow(b, id, now, parse, Priming.AnalyserOf(parse), items, isSse, success);
          if outcome.FailOver? {
            return Recorded(false);
          }
        }
        if !willStream {
          b.RecordSuccess(id, now);
        }
        return Recorded(true);
    }
  }

  /** The body of the buffering loop, likewise. */
  method TryBuffered(b: CircuitBreaker, parse: Priming.Parser, id: int, a: Attempt, now: Time) returns (v: Visit)
    modifies b
    ensures v == VisitOf(parse, a, false)
    ensures b.log == old(b.log) + RecordCalls(id, v, now)
    ensures b.states == AfterRecord(b.cfg, old(b.states), id, v, now)
    ensures Logs(parse, a, false, id, now, old(b.log), b.log)
  {
    LogsOf(parse, a, false, id, now, b.log);
    if !a.decrypts {
      b.RecordFailure(id, now);
      return Recorded(false);
    }
    if !a.builds {
      return Aborted;
    }
    match a.reply {
      case PreRead =>
        b.RecordSuccess(id, now);
        return Recorded(true);
      case SendError =>
        b.RecordFailure(id, now);
        return Recorded(false);
      case ClientLeft =>
        return Dropped;
      case Response(retryable, _, _, _, readable) =>
        if retryable {
          b.RecordFailure(id, now);
          return Recorded(false);
        }
        if !readable {
          b.RecordFailure(id, now);
          return Recorded(false);
        }
        b.RecordSuccess(id, now);
        return Recorded(true);
    }
  }

  /** One candidate: ask if need be, then attempt. */
  method Try(b: CircuitBreaker, r: Round, id: int, now: Time, later: Time) returns (v: Visit)
    modifies b
    ensures (b.states, v) == Attend(b.cfg, old(b.states), r, id, now, later)
    ensures b.log == old(b.log) + CallsOf(id, v, r.check, now, later)
  {
    if r.check {
      var ok := b.Allow(id, now);
      if !ok {
        return Skipped;
      }
    }
    if r.streaming {
      v := TryStreaming(b, r.parse, id, r.attempt(id), later);
    } else {
      v := TryBuffered(b, r.parse, id, r.attempt(id), later);
    }
  }

  /** One turn of the attempt loop. */
  method Turn(b: CircuitBreaker, r: Round, visits: seq<Visit>, ghost start: seq<Event>) returns (more: seq<Visit>)
    requires !Stopped(visits) && |visits| < |r.ids| && b.log == start + CallsTo(r, visits)
    modifies b
    ensures |more| == |visits| + 1
    ensures Walk(b.states, more) == Advance(b.cfg, r, Walk(old(b.states), visits))
    ensures b.log == start + CallsTo(r, more)
  {
    var i := |visits|;
    var v := Try(b, r, r.ids[i], r.clock(i), r.later(i));
    LogGrows(start, r, visits, v);
    more := visits + [v];
  }

  lemma LogGrows(start: seq<Event>, r: Round, visits: seq<Visit>, v: Visit)
    requires |visits| < |r.ids|
    ensures start + CallsTo(r, visits) + CallsOf(r.ids[|visits|], v, r.check, r.clock(|visits|), r.later(|visits|))
         == start + CallsTo(r, visits + [v])
  {
    CallsSnoc(r, visits, v);
  }

  /** The loop after `n` turns, from a table and a log. */
  ghost predicate Walked(cfg: Config, t: Table, start: seq<Event>, r: Round, n: nat,
                         states: Table, log: seq<Event>, visits: seq<Visit>) {
    && Walk(states, visits) == WalkTo(cfg, t, r, n)
    && |visits| <= n <= |r.ids| && (Stopped(visits) || |visits| == n)
    && log == start + CallsTo(r, visits)
  }

  lemma WalkedOn(cfg: Config, t: Table, start: seq<Event>, r: Round, n: nat,
                 states: Table, log: seq<Event>, visits: seq<Visit>, states': Table, log': seq<Event>, visits': seq<Visit>)
    requires Walked(cfg, t, start, r, n, states, log, visits) && n < |r.ids|
    requires Walk(states', visits') == Advance(cfg, r, Walk(states, visits))
    requires if Stopped(visits) then log' == log else |visits'| == n + 1 && log' == start + CallsTo(r, visits')
    ensures Walked(cfg, t, start, r, n + 1, states', log', visits')
  {
  }

  /** The attempt loop. */
  method TryCandidates(b: CircuitBreaker, r: Round, max: nat) returns (visits: seq<Visit>)
    requires max <= |r.ids|
    modifies b
    ensures Walk(b.states, visits) == WalkTo(b.cfg, old(b.states), r, max)
    ensures |visits| <= |r.ids| && b.log == old(b.log) + CallsTo(r, visits)
  {
    visits := [];
    for i := 0 to max
      invariant Walked(b.cfg, old(b.states), old(b.log), r, i, b.states, b.log, visits)
    {
      ghost var states, log, before := b.states, b.log, visits;
      if !Stopped(visits) {
        visits := Turn(b, r, visits, old(b.log));
      }
      WalkedOn(b.cfg, old(b.states), old(b.log), r, i, states, log, before, b.states, b.log, visits);
    }
  }

  /** Filter, then try.  The log says what the breaker was told: one question per candidate, then the
      calls of each visit. */
  method HandleRequest(b: CircuitBreaker, r: Request) returns (visits: seq<Visit>)
    modifies b
    ensures Walk(b.states, visits) == Handle(b.cfg, old(b.states), r)
    ensures |visits| <= |RoundOf(b.cfg, old(b.states), r).ids|
    ensures b.log == old(b.log) + AsksOf(r.ids, r.clock) + CallsTo(RoundOf(b.cfg, old(b.states), r), visits)
    ensures Distinct(r.ids) ==>
      forall id :: AddsOneRecord(RoundOf(b.cfg, old(b.states), r), visits, id, old(b.log), b.log)
    ensures AllLose(r, RoundOf(b.cfg, old(b.states), r)) ==>
      |visits| == Tries(r, |RoundOf(b.cfg, old(b.states), r).ids|) && NoSuccessSince(old(b.log), b.log)
  {
    ghost var round := RoundOf(b.cfg, b.states, r);
    var allowed := FilterCandidates(b, r.ids, r.clock);
    var bypassed := allowed == [];
    var ids := if bypassed then r.ids else allowed;
    var check := !bypassed && |ids| > 1;
    var now := Round(ids, r.attempt, check, r.streaming, r.parse, (i: nat) => r.clock(|r.ids| + i), r.later);
    assert now == round;
    visits := TryCandidates(b, now, Tries(r, |ids|));
    if Distinct(r.ids) {
      forall id ensures AddsOneRecord(round, visits, id, old(b.log), b.log) {
        LogRecords(b.cfg, old(b.states), r, visits, id, old(b.log));
      }
    }
    if AllLose(r, round) {
      AllLoseLogsNoSuccess(b.cfg, old(b.states), r);
      NoSuccessAdded(old(b.log), AsksOf(r.ids, r.clock), CallsTo(round, visits));
    }
  }

  // ---------- one record per attempt ----------

  /** In order, each candidate once, nothing after a stop. */
  ghost predicate InOrder(r: Round, v: seq<Visit>) {
    && |v| <= |r.ids|
    && (forall i :: 0 <= i < |v| - 1 ==> !Stops(v[i]))
    && (forall i :: 0 <= i < |v| ==> v[i] == VisitIn(r, r.ids[i]) || (r.check && v[i] == Skipped))
  }

  lemma AdvanceInOrder(cfg: Config, r: Round, w: Walk)
    requires InOrder(r, w.visits)
    ensures InOrder(r, Advance(cfg, r, w).visits)
    ensures |Advance(cfg, r, w).visits| <= |w.visits| + 1
    ensures |Advance(cfg, r, w).visits| == |w.visits| ==> Stopped(w.visits) || |w.visits| == |r.ids|
  {
  }

  /** The loop visits candidates in order, stops at the first answer or aborted request, and visits
      each candidate it reaches once. */
  lemma {:induction false} VisitsInOrder(cfg: Config, t: Table, r: Round, n: nat)
    requires n <= |r.ids|
    ensures
      var v := WalkTo(cfg, t, r, n).visits;
      InOrder(r, v) && |v| <= n && (|v| < n ==> Stopped(v))
  {
    if n > 0 {
      VisitsInOrder(cfg, t, r, n - 1);
      AdvanceInOrder(cfg, r, WalkTo(cfg, t, r, n - 1));
    }
  }

  lemma {:induction false} RunAppend(cfg: Config, t: Table, a: seq<Event>, b: seq<Event>)
    ensures Run(cfg, t, a + b) == Run(cfg, Run(cfg, t, a), b)
  {
    if b == [] {
      assert a + b == a;
    } else {
      var n := |b| - 1;
      assert (a + b)[..|a| + n] == a + b[..n];
      RunAppend(cfg, t, a, b[..n]);
    }
  }

  lemma AttendIsRun(cfg: Config, t: Table, r: Round, id: int, now: Time, later: Time)
    ensures
      var (table, v) := Attend(cfg, t, r, id, now, later);
      table == Run(cfg, t, CallsOf(id, v, r.check, now, later))
  {
    var (table, v) := Attend(cfg, t, r, id, now, later);
    var ask := if r.check then [Event(Op.Allow(id), now)] else [];
    RunAppend(cfg, t, ask, RecordCalls(id, v, later));
    RunOne(cfg, t, Event(Op.Allow(id), now));
    if v.Recorded? {
      RunOne(cfg, Run(cfg, t, ask), RecordCalls(id, v, later)[0]);
    }
  }

  lemma RunOne(cfg: Config, t: Table, e: Event)
    ensures Run(cfg, t, [e]) == Step(cfg, t, e.op, e.now)
  {
    assert [e][..0] == [];
  }

  lemma CallsSnoc(r: Round, visits: seq<Visit>, v: Visit)
    requires |visits| < |r.ids|
    ensures
      var n := |visits|;
      CallsTo(r, visits + [v]) == CallsTo(r, visits) + CallsOf(r.ids[n], v, r.check, r.clock(n), r.later(n))
  {
    assert (visits + [v])[..|visits|] == visits;
  }

  /** The walk is what the breaker was told. */
  ghost predicate Told(cfg: Config, t: Table, r: Round, w: Walk) {
    |w.visits| <= |r.ids| && w.table == Run(cfg, t, CallsTo(r, w.visits))
  }

  lemma AdvanceTold(cfg: Config, t: Table, r: Round, w: Walk)
    requires Told(cfg, t, r, w)
    ensures Told(cfg, t, r, Advance(cfg, r, w))
  {
    var i := |w.visits|;
    if !Stopped(w.visits) && i < |r.ids| {
      var now, later := r.clock(i), r.later(i);
      var v := Attend(cfg, w.table, r, r.ids[i], now, later).1;
      AttendIsRun(cfg, w.table, r, r.ids[i], now, later);
      CallsSnoc(r, w.visits, v);
      RunAppend(cfg, t, CallsTo(r, w.visits), CallsOf(r.ids[i], v, r.check, now, later));
    }
  }

  lemma {:induction false} WalkIsTold(cfg: Config, t: Table, r: Round, n: nat)
    ensures Told(cfg, t, r, WalkTo(cfg, t, r, n))
  {
    if n > 0 {
      WalkIsTold(cfg, t, r, n - 1);
      AdvanceTold(cfg, t, r, WalkTo(cfg, t, r, n - 1));
    }
  }

  /** The records about a candidate among some calls. */
  function RecordsAbout(calls: seq<Event>, id: int): nat {
    if calls == [] then 0
    else (if calls[0].op == Success(id) || calls[0].op == Failure(id) then 1 else 0) + RecordsAbout(calls[1..], id)
  }

  lemma {:induction false} RecordsAboutAppend(a: seq<Event>, b: seq<Event>, id: int)
    ensures RecordsAbout(a + b, id) == RecordsAbout(a, id) + RecordsAbout(b, id)
  {
    if a == [] {
      assert a + b == b;
    } else {
      assert (a + b)[1..] == a[1..] + b;
      RecordsAboutAppend(a[1..], b, id);
    }
  }

  lemma RecordsOfVisit(id: int, v: Visit, check: bool, now: Time, later: Time, other: int)
    ensures RecordsAbout(CallsOf(id, v, check, now, later), other) == if v.Recorded? && other == id then 1 else 0
  {
    var ask := if check then [Event(Op.Allow(id), now)] else [];
    RecordsAboutAppend(ask, RecordCalls(id, v, later), other);
    assert RecordCalls(id, v, later) != [] ==> RecordCalls(id, v, later)[1..] == [];
    assert ask != [] ==> ask[1..] == [];
  }

  ghost predicate Distinct(ids: seq<int>) {
    forall i, j :: 0 <= i < j < |ids| ==> ids[i] != ids[j]
  }

  /** The candidate was attempted, and neither its body nor its client was missing. */
  ghost predicate Attempted(r: Round, visits: seq<Visit>, id: int)
    requires |visits| <= |r.ids|
  {
    exists i :: 0 <= i < |visits| && r.ids[i] == id && visits[i].Recorded?
  }

  lemma AttemptedSnoc(r: Round, visits: seq<Visit>, id: int)
    requires visits != [] && |visits| <= |r.ids|
    ensures
      var n := |visits| - 1;
      Attempted(r, visits, id) <==> Attempted(r, visits[..n], id) || (r.ids[n] == id && visits[n].Recorded?)
  {
    var init := visits[..|visits| - 1];
    assert forall i :: 0 <= i < |init| ==> init[i] == visits[i];
  }

  /** Of distinct candidates, each one visited gets exactly one record if it was attempted and neither
      its body nor its client was missing, none otherwise; and no other candidate gets any. */
  lemma {:induction false} OneRecordPerAttempt(r: Round, visits: seq<Visit>, id: int)
    requires |visits| <= |r.ids| && Distinct(r.ids)
    ensures RecordsAbout(CallsTo(r, visits), id) == if Attempted(r, visits, id) then 1 else 0
  {
    if visits != [] {
      var n := |visits| - 1;
      OneRecordPerAttempt(r, visits[..n], id);
      AttemptedSnoc(r, visits, id);
      var last := CallsOf(r.ids[n], visits[n], r.check, r.clock(n), r.later(n));
      RecordsAboutAppend(CallsTo(r, visits[..n]), last, id);
      RecordsOfVisit(r.ids[n], visits[n], r.check, r.clock(n), r.later(n), id);
    }
  }

  lemma {:induction false} AsksHaveNoRecords(ids: seq<int>, clock: Clock, id: int)
    ensures RecordsAbout(AsksOf(ids, clock), id) == 0
  {
    if ids != [] {
      var n := |ids| - 1;
      var last := [Event(Op.Allow(ids[n]), clock(n))];
      AsksHaveNoRecords(ids[..n], clock, id);
      assert AsksOf(ids, clock) == AsksOf(ids[..n], clock) + last;
      assert last[1..] == [];
      RecordsAboutAppend(AsksOf(ids[..n], clock), last, id);
    }
  }

  lemma {:induction false} FilterKeepsDistinct(cfg: Config, t: Table, ids: seq<int>, clock: Clock)
    requires Distinct(ids)
    ensures Distinct(Filter(cfg, t, ids, clock).allowed)
    ensures forall x :: x in Filter(cfg, t, ids, clock).allowed ==> x in ids
  {
    if ids != [] {
      var n := |ids| - 1;
      FilterKeepsDistinct(cfg, t, ids[..n], clock);
      assert ids[n] !in ids[..n];
      DistinctSnoc(Filter(cfg, t, ids[..n], clock).allowed, ids[n]);
    }
  }

  lemma DistinctSnoc(ids: seq<int>, id: int)
    requires Distinct(ids) && id !in ids
    ensures Distinct(ids + [id])
  {
  }

  /** In the calls of a whole request to distinct candidates, a candidate has exactly one record if it
      was attempted with a body and a client, and none otherwise. */
  lemma RequestRecords(cfg: Config, t: Table, r: Request, visits: seq<Visit>, id: int)
    requires Distinct(r.ids) && |visits| <= |RoundOf(cfg, t, r).ids|
    ensures
      var round := RoundOf(cfg, t, r);
      RecordsAbout(AsksOf(r.ids, r.clock) + CallsTo(round, visits), id) == if Attempted(round, visits, id) then 1 else 0
  {
    FilterKeepsDistinct(cfg, t, r.ids, r.clock);
    OneRecordPerAttempt(RoundOf(cfg, t, r), visits, id);
    AsksHaveNoRecords(r.ids, r.clock, id);
    RecordsAboutAppend(AsksOf(r.ids, r.clock), CallsTo(RoundOf(cfg, t, r), visits), id);
  }

  /** The log grew by one record about the candidate if it was attempted, by none otherwise. */
  ghost predicate AddsOneRecord(r: Round, visits: seq<Visit>, id: int, before: seq<Event>, after: seq<Event>)
    requires |visits| <= |r.ids|
  {
    RecordsAbout(after, id) == RecordsAbout(before, id) + (if Attempted(r, visits, id) then 1 else 0)
  }

  lemma LogRecords(cfg: Config, t: Table, r: Request, visits: seq<Visit>, id: int, before: seq<Event>)
    requires Distinct(r.ids) && |visits| <= |RoundOf(cfg, t, r).ids|
    ensures
      var round := RoundOf(cfg, t, r);
      AddsOneRecord(round, visits, id, before, before + AsksOf(r.ids, r.clock) + CallsTo(round, visits))
  {
    var asks, calls := AsksOf(r.ids, r.clock), CallsTo(RoundOf(cfg, t, r), visits);
    RequestRecords(cfg, t, r, visits, id);
    assert before + asks + calls == before + (asks + calls);
    RecordsAboutAppend(before, asks + calls, id);
  }

  lemma {:induction false} FilterIsRun(cfg: Config, t: Table, ids: seq<int>, clock: Clock)
    ensures Filter(cfg, t, ids, clock).table == Run(cfg, t, AsksOf(ids, clock))
  {
    if ids != [] {
      var n := |ids| - 1;
      FilterIsRun(cfg, t, ids[..n], clock);
      assert AsksOf(ids, clock)[..n] == AsksOf(ids[..n], clock);
    }
  }

  /** A whole request: it visits at most `max_attempts` candidates (but at least one is allowed for),
      in order, and what it tells the breaker is one question per candidate and then, per visit, the
      calls of that visit. */
  lemma RequestIsAccounted(cfg: Config, t: Table, r: Request)
    ensures
      var round, w := RoundOf(cfg, t, r), Handle(cfg, t, r);
      && InOrder(round, w.visits)
      && |w.visits| <= (if r.maxAttempts < 1 then 1 else r.maxAttempts)
      && (|w.visits| < Tries(r, |round.ids|) ==> Stopped(w.visits))
      && w.table == Run(cfg, t, AsksOf(r.ids, r.clock) + CallsTo(round, w.visits))
  {
    var round, asked := RoundOf(cfg, t, r), Filter(cfg, t, r.ids, r.clock).table;
    var n := Tries(r, |round.ids|);
    VisitsInOrder(cfg, asked, round, n);
    WalkIsTold(cfg, asked, round, n);
    FilterIsRun(cfg, t, r.ids, r.clock);
    RunAppend(cfg, t, AsksOf(r.ids, r.clock), CallsTo(round, Handle(cfg, t, r).visits));
  }

  // ---------- requests that fail over ----------

  /** Every candidate the request may try takes an exit that records a failure. */
  ghost predicate AllLose(r: Request, round: Round) {
    forall i :: 0 <= i < Tries(r, |round.ids|) ==> Loses(r.parse, r.attempt(round.ids[i]), r.streaming)
  }

  ghost predicate NoSuccess(calls: seq<Event>) {
    forall k :: 0 <= k < |calls| ==> !calls[k].op.Success?
  }

  /** No success was logged on top of what was there. */
  ghost predicate NoSuccessSince(before: seq<Event>, after: seq<Event>) {
    before <= after && NoSuccess(after[|before|..])
  }

  lemma NoSuccessAdded(before: seq<Event>, asks: seq<Event>, calls: seq<Event>)
    requires NoSuccess(asks + calls)
    ensures NoSuccessSince(before, before + asks + calls)
  {
    assert before + asks + calls == before + (asks + calls);
    assert (before + (asks + calls))[|before|..] == asks + calls;
  }

  lemma {:induction false} LosingCalls(r: Round, visits: seq<Visit>)
    requires |visits| <= |r.ids|
    requires forall i :: 0 <= i < |visits| ==> visits[i] != Recorded(true)
    ensures NoSuccess(CallsTo(r, visits))
  {
    if visits != [] {
      LosingCalls(r, visits[..|visits| - 1]);
    }
  }

  /** The visit of a candidate is what its attempt comes to. */
  ghost predicate EndsAs(r: Round, id: int, v: Visit) {
    && (v == Recorded(true) <==> Wins(r.parse, r.attempt(id), r.streaming))
    && (v == Recorded(false) <==> Loses(r.parse, r.attempt(id), r.streaming))
    && (v in {Aborted, Dropped} <==> EndsSilently(r.attempt(id), r.streaming))
  }

  lemma OrderedVisit(r: Round, v: seq<Visit>, i: nat)
    requires InOrder(r, v) && i < |v|
    ensures v[i] == Skipped ==> r.check
    ensures v[i] != Skipped ==> EndsAs(r, r.ids[i], v[i])
    ensures i < |v| - 1 ==> v[i] == Skipped || Loses(r.parse, r.attempt(r.ids[i]), r.streaming)
    ensures Stops(v[i]) ==> v[i] != Skipped && !Loses(r.parse, r.attempt(r.ids[i]), r.streaming)
  {
    ExitsAre(r.parse, r.attempt(r.ids[i]), r.streaming);
  }

  /** The visits of a loop that may make `n` of them, by the attempts: every one before the last is a
      loss or was refused, and a loop that ends early ends with an attempt that is no loss. */
  ghost predicate EndsByAttempts(r: Round, v: seq<Visit>, n: nat) {
    && |v| <= n <= |r.ids|
    && (forall i :: 0 <= i < |v| ==> if v[i] == Skipped then r.check else EndsAs(r, r.ids[i], v[i]))
    && (forall i :: 0 <= i < |v| - 1 ==> v[i] == Skipped || Loses(r.parse, r.attempt(r.ids[i]), r.streaming))
    && (|v| < n ==>
          v != [] && v[|v| - 1] != Skipped && !Loses(r.parse, r.attempt(r.ids[|v| - 1]), r.streaming))
  }

  lemma OrderedEnds(r: Round, v: seq<Visit>, n: nat)
    requires InOrder(r, v) && |v| <= n <= |r.ids| && (|v| < n ==> Stopped(v))
    ensures EndsByAttempts(r, v, n)
  {
    forall i | 0 <= i < |v|
      ensures if v[i] == Skipped then r.check else EndsAs(r, r.ids[i], v[i])
      ensures i < |v| - 1 ==> v[i] == Skipped || Loses(r.parse, r.attempt(r.ids[i]), r.streaming)
    {
      OrderedVisit(r, v, i);
    }
    if |v| < n {
      OrderedVisit(r, v, |v| - 1);
    }
  }

  /** What becomes of a request, by its attempts: it is answered exactly when the last candidate it
      visits wins, it ends without an answer and without a record when that candidate's body is missing
      or its client leaves, and otherwise it has tried all it may. */
  lemma RequestEnds(cfg: Config, t: Table, r: Request)
    ensures
      var round := RoundOf(cfg, t, r);
      EndsByAttempts(round, Handle(cfg, t, r).visits, Tries(r, |round.ids|))
  {
    var round := RoundOf(cfg, t, r);
    var n := Tries(r, |round.ids|);
    VisitsInOrder(cfg, Filter(cfg, t, r.ids, r.clock).table, round, n);
    OrderedEnds(round, Handle(cfg, t, r).visits, n);
  }

  lemma LosingVisits(r: Round, v: seq<Visit>, n: nat)
    requires EndsByAttempts(r, v, n)
    requires forall i :: 0 <= i < n ==> Loses(r.parse, r.attempt(r.ids[i]), r.streaming)
    ensures |v| == n && forall i :: 0 <= i < |v| ==> v[i] == Recorded(false) || (r.check && v[i] == Skipped)
  {
  }

  /** A request whose candidates all fail visits every candidate it may try: each is recorded as a
      failure or was refused when the loop asked, and no success is recorded. */
  lemma AllLoseLogsNoSuccess(cfg: Config, t: Table, r: Request)
    requires AllLose(r, RoundOf(cfg, t, r))
    ensures
      var round, v := RoundOf(cfg, t, r), Handle(cfg, t, r).visits;
      && |v| == Tries(r, |round.ids|)
      && (forall i :: 0 <= i < |v| ==> v[i] == Recorded(false) || (round.check && v[i] == Skipped))
      && NoSuccess(AsksOf(r.ids, r.clock) + CallsTo(round, v))
  {
    var round, v := RoundOf(cfg, t, r), Handle(cfg, t, r).visits;
    RequestEnds(cfg, t, r);
    LosingVisits(round, v, Tries(r, |round.ids|));
    LosingCalls(round, v);
    NoSuccessJoined(AsksOf(r.ids, r.clock), CallsTo(round, v));
  }

  lemma NoSuccessJoined(a: seq<Event>, b: seq<Event>)
    requires NoSuccess(a) && NoSuccess(b)
    ensures NoSuccess(a + b)
  {
  }

  /** The loop asks about its next candidate and the breaker refuses. */
  ghost predicate Refuses(r: Round, w: Walk) {
    |w.visits| < |r.ids| && r.check && !Granted(Lookup(w.table, r.ids[|w.visits|]), r.clock(|w.visits|))
  }

  /** A turn of the loop, from any state, skips its candidate exactly when the breaker refuses it. */
  lemma SkipsIffRefused(cfg: Config, r: Round, w: Walk)
    ensures
      var next := Advance(cfg, r, w).visits;
      if Stopped(w.visits) || |w.visits| >= |r.ids| then next == w.visits
      else |next| == |w.visits| + 1 && next[..|w.visits|] == w.visits && (next[|w.visits|] == Skipped <==> Refuses(r, w))
  {
    ExitsAre(r.parse, r.attempt(if |w.visits| < |r.ids| then r.ids[|w.visits|] else 0), r.streaming);
  }

  /** Of distinct candidates the filter keeps exactly those that the breaker grants. */
  lemma {:induction false} FilterKeepsGranted(cfg: Config, t: Table, ids: seq<int>, clock: Clock, i: nat)
    requires Distinct(ids) && i < |ids|
    ensures ids[i] in Filter(cfg, t, ids, clock).allowed <==> Granted(Lookup(t, ids[i]), clock(i))
  {
    var n := |ids| - 1;
    var init := ids[..n];
    if i < n {
      FilterKeepsGranted(cfg, t, init, clock, i);
    } else {
      assert ids[n] !in init;
      FilterTouchesOnly(cfg, t, init, clock, ids[n]);
    }
  }

  lemma {:induction false} FilterTouchesOnly(cfg: Config, t: Table, ids: seq<int>, clock: Clock, id: int)
    requires id !in ids
    ensures id !in Filter(cfg, t, ids, clock).allowed && Lookup(Filter(cfg, t, ids, clock).table, id) == Lookup(t, id)
  {
    if ids != [] {
      FilterTouchesOnly(cfg, t, ids[..|ids| - 1], clock, id);
    }
  }

  /** Positions of the survivors among the candidates, rising. */
  ghost predicate Picks(ids: seq<int>, allowed: seq<int>, at: seq<nat>) {
    && |at| == |allowed|
    && (forall k :: 0 <= k < |at| ==> at[k] < |ids| && ids[at[k]] == allowed[k])
    && (forall k, l :: 0 <= k < l < |at| ==> at[k] < at[l])
  }

  lemma {:induction false} FilterKeepsOrder(cfg: Config, t: Table, ids: seq<int>, clock: Clock) returns (at: seq<nat>)
    ensures Picks(ids, Filter(cfg, t, ids, clock).allowed, at)
  {
    if ids == [] {
      at := [];
    } else {
      var n := |ids| - 1;
      at := FilterKeepsOrder(cfg, t, ids[..n], clock);
      if Granted(Lookup(Filter(cfg, t, ids[..n], clock).table, ids[n]), clock(n)) {
        at := at + [n];
      }
    }
  }

  /** A request never gives up without an attempt: when every circuit refuses, all candidates are tried
      as if there were no breaker, and a single survivor is not asked about again. */
  lemma AlwaysAttempts(cfg: Config, t: Table, r: Request)
    requires r.ids != []
    ensures Handle(cfg, t, r).visits != []
    ensures Survivors(cfg, t, r) == [] ==> RoundOf(cfg, t, r).ids == r.ids
    ensures |Survivors(cfg, t, r)| <= 1 ==> Handle(cfg, t, r).visits[0] != Skipped
  {
    var round := RoundOf(cfg, t, r);
    VisitsInOrder(cfg, Filter(cfg, t, r.ids, r.clock).table, round, Tries(r, |round.ids|));
    ExitsAre(r.parse, r.attempt(round.ids[0]), r.streaming);
  }

  // ---------- half-open slots ----------

  /** The filter took the half-open slot of this candidate for the request. */
  predicate TookSlot(cfg: Config, t: Table, r: Request, id: int) {
    !Lookup(t, id).probing && Lookup(Filter(cfg, t, r.ids, r.clock).table, id).probing
  }

  /** A taken slot belongs to an open circuit. */
  ghost predicate SlotsAreOpen(t: Table) {
    forall id :: Lookup(t, id).probing ==> Lookup(t, id).openUntil.Some?
  }

  lemma StepKeepsOpen(cfg: Config, t: Table, op: Op, now: Time)
    requires SlotsAreOpen(t)
    ensures SlotsAreOpen(Step(cfg, t, op, now))
  {
    var u := Step(cfg, t, op, now);
    RecordFreesSlot(cfg, Lookup(t, op.id), now);
    forall id ensures Lookup(u, id).probing ==> Lookup(u, id).openUntil.Some? {
      assert id != op.id ==> Lookup(u, id) == Lookup(t, id);
    }
  }

  lemma {:induction false} FilterKeepsOpen(cfg: Config, t: Table, ids: seq<int>, clock: Clock)
    requires SlotsAreOpen(t)
    ensures SlotsAreOpen(Filter(cfg, t, ids, clock).table)
  {
    if ids != [] {
      var n := |ids| - 1;
      FilterKeepsOpen(cfg, t, ids[..n], clock);
      StepKeepsOpen(cfg, Filter(cfg, t, ids[..n], clock).table, Op.Allow(ids[n]), clock(n));
    }
  }

  /** Only survivors had their slot taken, and a slot held by someone else keeps its candidate out. */
  lemma {:induction false} FilterSlots(cfg: Config, t: Table, ids: seq<int>, clock: Clock, id: int)
    requires SlotsAreOpen(t)
    ensures
      var f := Filter(cfg, t, ids, clock);
      && (!Lookup(t, id).probing && Lookup(f.table, id).probing ==> id in f.allowed)
      && (Lookup(t, id).probing ==> id !in f.allowed && Lookup(f.table, id) == Lookup(t, id))
      && (forall x :: x in f.allowed ==> x in ids)
  {
    if ids != [] {
      var n := |ids| - 1;
      FilterSlots(cfg, t, ids[..n], clock, id);
      assert ids == ids[..n] + [ids[n]];
    }
  }

  /** A loop that asks leaves a taken slot taken, and skips its candidate. */
  ghost predicate PassesOver(r: Round, w: Walk, id: int, p: Provider) {
    && Lookup(w.table, id) == p
    && forall i :: 0 <= i < |w.visits| && i < |r.ids| && r.ids[i] == id ==> w.visits[i] == Skipped
  }

  lemma AdvancePassesOver(cfg: Config, r: Round, w: Walk, id: int, p: Provider)
    requires r.check && p.probing && p.openUntil.Some? && PassesOver(r, w, id, p)
    ensures PassesOver(r, Advance(cfg, r, w), id, p)
  {
    var i := |w.visits|;
    if i < |r.ids| {
      if r.ids[i] == id {
        AttendSkips(cfg, w.table, r, id, r.clock(i), r.later(i));
      } else {
        AttendOthers(cfg, w.table, r, r.ids[i], r.clock(i), r.later(i), id);
      }
    }
  }

  lemma {:induction false} AskingLoopPassesOver(cfg: Config, t: Table, r: Round, n: nat, id: int)
    requires r.check && Lookup(t, id).probing && Lookup(t, id).openUntil.Some?
    ensures PassesOver(r, WalkTo(cfg, t, r, n), id, Lookup(t, id))
  {
    if n > 0 {
      AskingLoopPassesOver(cfg, t, r, n - 1, id);
      AdvancePassesOver(cfg, r, WalkTo(cfg, t, r, n - 1), id, Lookup(t, id));
    }
  }

  lemma AttendSkips(cfg: Config, t: Table, r: Round, id: int, now: Time, later: Time)
    requires r.check && Lookup(t, id).probing && Lookup(t, id).openUntil.Some?
    ensures Attend(cfg, t, r, id, now, later).1 == Skipped
    ensures Lookup(Attend(cfg, t, r, id, now, later).0, id) == Lookup(t, id)
  {
  }

  /** A loop over one candidate does not ask, and records it unless the body cannot be built or the
      client leaves. */
  lemma SingleCandidate(cfg: Config, t: Table, r: Round)
    requires |r.ids| == 1 && !r.check
    ensures
      var id := r.ids[0];
      var v := VisitIn(r, id);
      && WalkTo(cfg, t, r, 1).visits == [v]
      && (Lookup(WalkTo(cfg, t, r, 1).table, id).probing <==> Lookup(t, id).probing && !v.Recorded?)
      && (!v.Recorded? ==> WalkTo(cfg, t, r, 1).table == t)
  {
    assert WalkTo(cfg, t, r, 0) == Walk(t, []);
    RecordFreesSlot(cfg, Lookup(t, r.ids[0]), r.later(0));
  }

  /** The exact condition: a slot that the request took is still taken when it ends if and only if
      more than one candidate survived the filter, or the attempt at its only survivor ended without
      a record, because the body could not be built or the client left. */
  lemma SlotLeaksIff(cfg: Config, t: Table, r: Request, id: int)
    requires SlotsAreOpen(t) && TookSlot(cfg, t, r, id)
    ensures Lookup(Handle(cfg, t, r).table, id).probing <==>
      |Survivors(cfg, t, r)| > 1 || !VisitOf(r.parse, r.attempt(id), r.streaming).Recorded?
  {
    var f, round := Filter(cfg, t, r.ids, r.clock), RoundOf(cfg, t, r);
    FilterSlots(cfg, t, r.ids, r.clock, id);
    FilterKeepsOpen(cfg, t, r.ids, r.clock);
    if |f.allowed| > 1 {
      AskingLoopPassesOver(cfg, f.table, round, Tries(r, |round.ids|), id);
    } else {
      assert f.allowed == [id];
      SingleCandidate(cfg, f.table, round);
    }
  }

  /** When every circuit refuses, the filter took no slot. */
  lemma BypassTakesNoSlot(cfg: Config, t: Table, r: Request, id: int)
    requires SlotsAreOpen(t) && Survivors(cfg, t, r) == []
    ensures !TookSlot(cfg, t, r, id)
  {
    FilterSlots(cfg, t, r.ids, r.clock, id);
  }

  lemma TwoCandidates(cfg: Config, t: Table, r: Request, until: Time)
    requires r.ids == [1, 2] && (forall i :: r.clock(i) == until)
    requires Lookup(t, 1).openUntil == Some(until) && !Lookup(t, 1).probing && 2 !in t
    ensures TookSlot(cfg, t, r, 1) && Survivors(cfg, t, r) == [1, 2]
  {
    assert r.ids[..1] == [1] && [1][..0] == [];
    assert Filter(cfg, t, [], r.clock) == Filtered(t, []);
    assert Filter(cfg, t, r.ids[..1], r.clock) == Filtered(Step(cfg, t, Op.Allow(1), until), [1]);
  }

  /** A leak from scratch, under every configuration and whatever the attempts do: failures of
      provider 1 open its circuit, and when its window has passed, a request with a second candidate
      takes the slot and keeps it. */
  lemma SlotLeaks(cfg: Config, attempt: int -> Attempt, streaming: bool, maxAttempts: int, parse: Priming.Parser)
    returns (failures: seq<Event>, r: Request)
    ensures forall i :: 0 <= i < |failures| ==> failures[i].op == Failure(1)
    ensures r == Request([1, 2], attempt, streaming, maxAttempts, parse, r.clock, r.later)
    ensures
      var t := Run(cfg, map[], failures);
      TookSlot(cfg, t, r, 1) && Lookup(Handle(cfg, t, r).table, 1).probing
  {
    failures := JustOpened(cfg, 1);
    r := Request([1, 2], attempt, streaming, maxAttempts, parse, (i: nat) => cfg.openFor, (i: nat) => cfg.openFor);
    var t := Run(cfg, map[], failures);
    OnlyAbout(cfg, failures, 1, 2);
    TwoCandidates(cfg, t, r, cfg.openFor);
    RunKeepsOpen(cfg, failures);
    SlotLeaksIff(cfg, t, r, 1);
  }

  lemma {:induction false} OnlyAbout(cfg: Config, events: seq<Event>, id: int, other: int)
    requires forall i :: 0 <= i < |events| ==> events[i].op.id == id
    requires other != id
    ensures other !in Run(cfg, map[], events)
  {
    if events != [] {
      OnlyAbout(cfg, events[..|events| - 1], id, other);
    }
  }

  lemma {:induction false} RunKeepsOpen(cfg: Config, events: seq<Event>)
    ensures SlotsAreOpen(Run(cfg, map[], events))
  {
    if events != [] {
      var n := |events| - 1;
      RunKeepsOpen(cfg, events[..n]);
      StepKeepsOpen(cfg, Run(cfg, map[], events[..n]), events[n].op, events[n].now);
    }
  }

  // ---------- a leaked slot ----------

  /** A request with some survivor never reaches a candidate whose slot is taken. */
  lemma TakenSlotIsPassedOver(cfg: Config, t: Table, r: Request, id: int)
    requires SlotsAreOpen(t) && Lookup(t, id).probing && Survivors(cfg, t, r) != []
    ensures id !in RoundOf(cfg, t, r).ids
    ensures Lookup(Handle(cfg, t, r).table, id) == Lookup(t, id)
  {
    FilterSlots(cfg, t, r.ids, r.clock, id);
    var round := RoundOf(cfg, t, r);
    OtherCandidates(cfg, Filter(cfg, t, r.ids, r.clock).table, round, Tries(r, |round.ids|), id);
  }

  lemma AttendOthers(cfg: Config, t: Table, r: Round, id: int, now: Time, later: Time, other: int)
    requires other != id
    ensures Lookup(Attend(cfg, t, r, id, now, later).0, other) == Lookup(t, other)
  {
  }

  lemma {:induction false} OtherCandidates(cfg: Config, t: Table, r: Round, n: nat, id: int)
    requires id !in r.ids
    ensures Lookup(WalkTo(cfg, t, r, n).table, id) == Lookup(t, id)
  {
    if n > 0 {
      OtherCandidates(cfg, t, r, n - 1, id);
      var w := WalkTo(cfg, t, r, n - 1);
      if |w.visits| < |r.ids| {
        AttendOthers(cfg, w.table, r, r.ids[|w.visits|], r.clock(|w.visits|), r.later(|w.visits|), id);
      }
    }
  }

  lemma {:induction false} WalkKeepsOpen(cfg: Config, t: Table, r: Round, n: nat)
    requires SlotsAreOpen(t)
    ensures SlotsAreOpen(WalkTo(cfg, t, r, n).table)
  {
    if n > 0 {
      WalkKeepsOpen(cfg, t, r, n - 1);
      var w := WalkTo(cfg, t, r, n - 1);
      if |w.visits| < |r.ids| {
        AttendKeepsOpen(cfg, w.table, r, r.ids[|w.visits|], r.clock(|w.visits|), r.later(|w.visits|));
      }
    }
  }

  lemma AttendKeepsOpen(cfg: Config, t: Table, r: Round, id: int, now: Time, later: Time)
    requires SlotsAreOpen(t)
    ensures SlotsAreOpen(Attend(cfg, t, r, id, now, later).0)
  {
    StepKeepsOpen(cfg, t, Op.Allow(id), now);
    var asked := if r.check then Step(cfg, t, Op.Allow(id), now) else t;
    StepKeepsOpen(cfg, asked, Success(id), later);
    StepKeepsOpen(cfg, asked, Failure(id), later);
  }

  function HandleAll(cfg: Config, t: Table, requests: seq<Request>): Table {
    if requests == [] then t
    else Handle(cfg, HandleAll(cfg, t, requests[..|requests| - 1]), requests[|requests| - 1]).table
  }

  /** So after a leak the provider stays out for good: over any sequence of requests that each find
      some other candidate, it is never attempted and its slot never comes back. */
  lemma {:induction false} LeakedSlotStarves(cfg: Config, t: Table, requests: seq<Request>, id: int)
    requires SlotsAreOpen(t) && Lookup(t, id).probing
    requires forall i :: 0 <= i < |requests| ==> Survivors(cfg, HandleAll(cfg, t, requests[..i]), requests[i]) != []
    ensures SlotsAreOpen(HandleAll(cfg, t, requests))
    ensures Lookup(HandleAll(cfg, t, requests), id) == Lookup(t, id)
  {
    if requests != [] {
      var n := |requests| - 1;
      forall i | 0 <= i < n ensures Survivors(cfg, HandleAll(cfg, t, requests[..n][..i]), requests[..n][i]) != [] {
        assert requests[..n][..i] == requests[..i];
      }
      LeakedSlotStarves(cfg, t, requests[..n], id);
      var before, r := HandleAll(cfg, t, requests[..n]), requests[n];
      TakenSlotIsPassedOver(cfg, before, r, id);
      FilterKeepsOpen(cfg, before, r.ids, r.clock);
      var round := RoundOf(cfg, before, r);
      WalkKeepsOpen(cfg, Filter(cfg, before, r.ids, r.clock).table, round, Tries(r, |round.ids|));
    }
  }
}
