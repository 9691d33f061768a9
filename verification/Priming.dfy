/** The priming window of a streamed answer (src/service/proxy.rs).

Before a byte reaches the client, the proxy reads ahead until the upstream produced output, sent
a legal terminal event, or filled the window.  An error before that fails over to the next
candidate.  The theorems say exactly which items lead to which outcome, that every exit of the
window makes exactly one record, that a committed stream is the upstream's, byte for byte, and
exactly when the outcome is independent of the chunk boundaries. */
module Priming {
  import opened Text
  import opened Json
  import opened Sse
  import Breaker

  const MAX_BYTES: int := 256 * 1024

  type Parser = string -> Option<Json>

  datatype Signal = Neutral | Terminal | Productive | Error

  function Rank(s: Signal): nat {
    match s
    case Neutral => 0
    case Terminal => 1
    case Productive => 2
    case Error => 3
  }

  function Max(a: Signal, b: Signal): Signal {
    if Rank(a) <= Rank(b) then b else a
  }

  predicate IsOutput(s: Signal) {
    s == Terminal || s == Productive
  }

  // ---------- judging one data payload ----------

  function StrAt(v: Json, key: string): Option<string> {
    var x := Get(v, key);
    if x.Some? && x.value.Str? then Some(x.value.text) else None
  }

  /** An `{"error": {...}}` object with a message or a type, or `{"type": "error"}`. */
  predicate IsErrorEnvelope(v: Json) {
    var err := Get(v, "error");
    || (err.Some? && err.value.Obj? && (Get(err.value, "message").Some? || Get(err.value, "type").Some?))
    || StrAt(v, "type") == Some("error")
  }

  /** `frame_error_message`. */
  predicate IsFrameError(v: Json, eventName: Option<string>) {
    IsErrorEnvelope(v) || eventName == Some("error")
  }

  predicate HasContent(delta: Json) {
    var c := Get(delta, "content");
    c.Some? && match c.value
               case Str(t) => t != ""
               case Arr(a) => a != []
               case _ => false
  }

  predicate DeltaIsProductive(delta: Json) {
    var r, t := StrAt(delta, "reasoning_content"), Get(delta, "tool_calls");
    || HasContent(delta)
    || (r.Some? && r.value != "")
    || (t.Some? && t.value.Arr? && t.value.items != [])
  }

  /** The first choice that says something decides. */
  function ChoicesSignal(choices: seq<Json>): Option<Signal> {
    if choices == [] then None
    else
      var finish, delta := Get(choices[0], "finish_reason"), Get(choices[0], "delta");
      if finish.Some? && finish.value != Null then Some(Terminal)
      else if delta.Some? && DeltaIsProductive(delta.value) then Some(Productive)
      else ChoicesSignal(choices[1..])
  }

  function ChatSignal(v: Json): Signal {
    var choices := Get(v, "choices");
    var s := if choices.Some? && choices.value.Arr? then ChoicesSignal(choices.value.items) else None;
    if s.Some? then s.value
    else if Get(v, "usage").Some? then Terminal
    else Neutral
  }

  /** `prime_signal_of`. */
  function SignalOf(v: Json): Signal {
    var ty := StrAt(v, "type");
    if ty.None? then ChatSignal(v)
    else if ty.value == "content_block_delta" then Productive
    else if ty.value == "message_stop" then Terminal
    else if "response." <= ty.value then
      if "response.output" <= ty.value || "response.function_call_arguments" <= ty.value
         || "response.reasoning" <= ty.value || "response.custom_tool_call_input" <= ty.value then Productive
      else if ty.value in {"response.completed", "response.incomplete", "response.failed", "response.done"} then Terminal
      else Neutral
    else ChatSignal(v)
  }

  /** One line of an event. */
  function LineSignal(parse: Parser, line: string, eventName: Option<string>): Signal {
    match FieldOf(line, "data:")
    case None => Neutral
    case Some(data) =>
      if data == "[DONE]" then Terminal
      else
        match parse(data)
        case None => Neutral
        case Some(v) => if IsFrameError(v, eventName) then Error else SignalOf(v)
  }

  /** The first `event:` line names the event. */
  function EventName(lines: seq<string>): Option<string> {
    if lines == [] then None
    else
      var name := FieldOf(lines[0], "event:");
      if name.Some? then name else EventName(lines[1..])
  }

  function LinesSignal(parse: Parser, lines: seq<string>, eventName: Option<string>): Signal {
    if lines == [] then Neutral
    else Max(LineSignal(parse, lines[0], eventName), LinesSignal(parse, lines[1..], eventName))
  }

  /** What one event says. */
  function EventSignal(parse: Parser, event: string): Signal {
    LinesSignal(parse, Lines(event), EventName(Lines(event)))
  }

  type Judge = string -> Signal

  /** What the window uses of its surroundings: the framing of a buffer, the judgement of an event
      and the check of a raw chunk. */
  datatype Analyser = Analyser(frame: string -> Framed, judge: Judge, suspect: string -> bool)

  function EventsSignal(judge: Judge, events: seq<string>): Signal {
    if events == [] then Neutral else Max(judge(events[0]), EventsSignal(judge, events[1..]))
  }

  /** What the first event that is not neutral says. */
  function FirstSignal(judge: Judge, events: seq<string>): Signal {
    if events == [] then Neutral
    else if judge(events[0]) != Neutral then judge(events[0])
    else FirstSignal(judge, events[1..])
  }

  // ---------- the analyser ----------

  /** The signal of a chunk; an incomplete event beyond the window counts as output. */
  function ChunkSignal(judge: Judge, framed: Framed): Signal {
    var signal := EventsSignal(judge, framed.events);
    if |framed.rest| > MAX_BYTES then Max(signal, Productive) else signal
  }

  /** The analyser's buffer, and the items read ahead. */
  class PrimeState {
    var buf: string
    var buffered: seq<Item>
    var bytes: nat

    constructor ()
      ensures buf == "" && buffered == [] && bytes == 0
    {
      buf, buffered, bytes := "", [], 0;
    }

    /** `PrimeState::feed`. */
    method Feed(parse: Parser, chunk: string) returns (signal: Signal)
      modifies this`buf
      ensures buf == Drain(old(buf) + chunk).rest
      ensures signal == ChunkSignal(AnalyserOf(parse).judge, Drain(old(buf) + chunk))
    {
      buf := buf + chunk;
      signal := Neutral;
      ghost var framed := Drain(buf);
      while true
        invariant Drain(buf).rest == framed.rest
        invariant Max(signal, EventsSignal(AnalyserOf(parse).judge, Drain(buf).events))
               == EventsSignal(AnalyserOf(parse).judge, framed.events)
        decreases |buf|
      {
        var end := FindEventEnd(buf);
        if end.None? {
          break;
        }
        var event := buf[..end.value];
        assert Drain(buf).events[1..] == Drain(buf[end.value..]).events;
        buf := buf[end.value..];
        var s := JudgeEvent(parse, event);
        signal := Max(signal, s);
      }
      if |buf| > MAX_BYTES {
        signal := Max(signal, Productive);
      }
    }

    /** One item of the window: a transport error, the check of the raw chunk, then its events.  Each
        of the three errors is told to the breaker where it is found. */
    method Take(b: Breaker.CircuitBreaker, id: int, now: Breaker.Time, parse: Parser, ghost an: Analyser, item: Item)
      returns (signal: Signal)
      requires an == AnalyserOf(parse)
      modifies this, b
      ensures signal == RoundSignal(an, item, old(buf))
      ensures signal != Error ==>
        && item.Bytes?
        && buf == an.frame(old(buf) + item.chunk).rest
        && buffered == old(buffered) + [item]
        && bytes == old(bytes) + |item.chunk|
        && b.log == old(b.log) && b.states == old(b.states)
      ensures signal == Error ==>
        && b.log == old(b.log) + [Breaker.Event(Breaker.Failure(id), now)]
        && b.states == Breaker.Step(b.cfg, old(b.states), Breaker.Failure(id), now)
    {
      if item.TransportError? {
        b.RecordFailure(id, now);
        return Error;
      }
      if FirstChunkError(parse, item.chunk) {
        b.RecordFailure(id, now);
        return Error;
      }
      bytes := bytes + |item.chunk|;
      signal := Feed(parse, item.chunk);
      buffered := buffered + [item];
      if signal == Error {
        b.RecordFailure(id, now);
      }
    }

    /** One turn of the window: it leaves the outcome of the whole window as it was. */
    method Round(b: Breaker.CircuitBreaker, id: int, now: Breaker.Time,
                 parse: Parser, ghost an: Analyser, items: seq<Item>, ghost isSse: bool, ghost ok: bool)
      returns (signal: Signal)
      requires an == AnalyserOf(parse) && Buffered(buffered, items) && |buffered| < |items| && bytes < MAX_BYTES
      modifies this, b
      ensures signal != Error ==>
        && Buffered(buffered, items) && |buffered| == old(|buffered|) + 1
        && b.log == old(b.log) && b.states == old(b.states)
      ensures signal == Error ==>
        && b.log == old(b.log) + [Breaker.Event(Breaker.Failure(id), now)]
        && b.states == Breaker.Step(b.cfg, old(b.states), Breaker.Failure(id), now)
      ensures PrimeFrom(an, items, isSse, ok, old(|buffered|), old(buf), old(bytes)) ==
        if signal == Error then FailOver
        else if signal == Neutral then PrimeFrom(an, items, isSse, ok, |buffered|, buf, bytes)
        else Committed(|buffered|)
    {
      ghost var i, buf0, bytes0 := |buffered|, buf, bytes;
      signal := Take(b, id, now, parse, an, items[|buffered|]);
      RoundAdvances(an, items, isSse, ok, i, buf0, bytes0, signal, buf, bytes);
    }
  }

  /** One event, line by line; an error frame ends the event. */
  method JudgeEvent(parse: Parser, event: string) returns (signal: Signal)
    ensures signal == EventSignal(parse, event)
  {
    var lines := Lines(event);
    var name := EventName(lines);
    signal := Neutral;
    for i := 0 to |lines|
      invariant Max(signal, LinesSignal(parse, lines[i..], name)) == LinesSignal(parse, lines, name)
    {
      assert lines[i..][1..] == lines[i + 1..];
      var s := LineSignal(parse, lines[i], name);
      signal := Max(signal, s);
      if s.Error? {
        break;
      }
    }
  }

  // ---------- the window ----------

  /** `first_chunk_error`: the chunk itself, or its first data line, is an error envelope. */
  predicate FirstChunkError(parse: Parser, bytes: string) {
    var bom := "\U{00EF}\U{00BB}\U{00BF}";
    var trimmed := SkipAny(if bom <= bytes then bytes[|bom|..] else bytes, {' ', '\t', '\r', '\n'});
    trimmed != "" && trimmed[0] != ':' &&
    (var payload := SkipAny(if "data:" <= trimmed then FirstLine(trimmed[5..]) else trimmed, {' ', '\t', '\r'});
     payload != "" && parse(payload).Some? && IsErrorEnvelope(parse(payload).value))
  }

  /** The proxy's analyser. */
  function AnalyserOf(parse: Parser): Analyser {
    Analyser(Drain, (event: string) => EventSignal(parse, event), (chunk: string) => FirstChunkError(parse, chunk))
  }

  function SkipAny(s: string, blanks: set<char>): string {
    if s != "" && s[0] in blanks then SkipAny(s[1..], blanks) else s
  }

  function FirstLine(s: string): string {
    match Find(s, "\n")
    case Some(i) => s[..i]
    case None => s
  }

  /** What the upstream delivers: chunks, or a transport error. */
  datatype Item = Bytes(chunk: string) | TransportError

  datatype Outcome = Committed(read: nat) | FailOver | JsonBody

  /** The window loop from item `i` on, with the analyser's buffer and the bytes read so far. */
  function PrimeFrom(an: Analyser, items: seq<Item>, isSse: bool, ok: bool, i: nat, buf: string, bytes: nat): Outcome
    requires i <= |items|
    decreases |items| - i
  {
    if bytes >= MAX_BYTES then Committed(i)
    else if i == |items| then (if i > 0 && ok && !isSse then JsonBody else FailOver)
    else
      match items[i]
      case TransportError => FailOver
      case Bytes(chunk) =>
        if an.suspect(chunk) then FailOver
        else
          var framed := an.frame(buf + chunk);
          match ChunkSignal(an.judge, framed)
          case Error => FailOver
          case Neutral => PrimeFrom(an, items, isSse, ok, i + 1, framed.rest, bytes + |chunk|)
          case _ => Committed(i + 1)
  }

  /** What one item says to the window. */
  function RoundSignal(an: Analyser, item: Item, buf: string): Signal {
    if item.TransportError? || an.suspect(item.chunk) then Error
    else ChunkSignal(an.judge, an.frame(buf + item.chunk))
  }

  /** One turn of the loop in terms of that. */
  lemma RoundAdvances(an: Analyser, items: seq<Item>, isSse: bool, ok: bool, i: nat, buf: string, bytes: nat,
                      signal: Signal, rest: string, total: nat)
    requires i < |items| && bytes < MAX_BYTES && signal == RoundSignal(an, items[i], buf)
    requires signal != Error ==>
      items[i].Bytes? && rest == an.frame(buf + items[i].chunk).rest && total == bytes + |items[i].chunk|
    ensures PrimeFrom(an, items, isSse, ok, i, buf, bytes) ==
      if signal == Error then FailOver
      else if signal == Neutral then PrimeFrom(an, items, isSse, ok, i + 1, rest, total)
      else Committed(i + 1)
  {
  }

  function Prime(an: Analyser, items: seq<Item>, isSse: bool, ok: bool): Outcome {
    PrimeFrom(an, items, isSse, ok, 0, "", 0)
  }

  /** The record an outcome calls for. */
  function RecordOf(id: int, outcome: Outcome): Breaker.Op {
    if outcome.FailOver? then Breaker.Failure(id) else Breaker.Success(id)
  }

  /** The window of one attempt: it returns the stream or body handed to the client, and tells the
      breaker at each of its exits.  Whichever exit is taken, that is one call, a failure exactly on
      failover. */
  method RunWindow(b: Breaker.CircuitBreaker, id: int, now: Breaker.Time,
                   parse: Parser, ghost an: Analyser, items: seq<Item>, isSse: bool, ok: bool)
    returns (outcome: Outcome, stream: seq<Item>)
    requires an == AnalyserOf(parse)
    modifies b
    ensures outcome == Prime(an, items, isSse, ok)
    ensures !outcome.FailOver? ==> stream == items
    ensures b.log == old(b.log) + [Breaker.Event(RecordOf(id, outcome), now)]
    ensures b.states == Breaker.Step(b.cfg, old(b.states), RecordOf(id, outcome), now)
  {
    var primer := new PrimeState();
    while primer.bytes < MAX_BYTES
      invariant fresh(primer) && Buffered(primer.buffered, items)
      invariant b.log == old(b.log) && b.states == old(b.states)
      invariant Prime(an, items, isSse, ok)
             == PrimeFrom(an, items, isSse, ok, |primer.buffered|, primer.buf, primer.bytes)
      decreases |items| - |primer.buffered|
    {
      if |primer.buffered| == |items| {
        if primer.buffered != [] && ok && !isSse {
          b.RecordSuccess(id, now);
          Rejoin(primer.buffered, items);
          return JsonBody, primer.buffered;
        }
        b.RecordFailure(id, now);
        return FailOver, [];
      }
      var signal := primer.Round(b, id, now, parse, an, items, isSse, ok);
      if signal == Error {
        return FailOver, [];
      } else if signal != Neutral {
        break;
      }
    }
    b.RecordSuccess(id, now);
    Rejoin(primer.buffered, items);
    return Committed(|primer.buffered|), primer.buffered + items[|primer.buffered|..];
  }

  /** The buffer holds the first items, in order. */
  ghost predicate Buffered(buffered: seq<Item>, items: seq<Item>) {
    |buffered| <= |items| && forall k :: 0 <= k < |buffered| ==> buffered[k] == items[k]
  }

  lemma Rejoin(buffered: seq<Item>, items: seq<Item>)
    requires Buffered(buffered, items)
    ensures buffered + items[|buffered|..] == items
  {
  }

  // ---------- what was read ----------

  /** The bytes of the first `n` items. */
  function Read(items: seq<Item>, n: nat): string
    requires n <= |items|
  {
    if n == 0 then "" else Read(items, n - 1) + (if items[n - 1].Bytes? then items[n - 1].chunk else "")
  }

  /** The events the analyser drains from the first `n` items, chunk by chunk, and its buffer. */
  function Heard(an: Analyser, items: seq<Item>, n: nat): Framed
    requires n <= |items|
  {
    if n == 0 then Framed([], "")
    else
      var before := Heard(an, items, n - 1);
      if items[n - 1].TransportError? then before
      else
        var framed := an.frame(before.rest + items[n - 1].chunk);
        Framed(before.events + framed.events, framed.rest)
  }

  /** The signal of all events drained from the first `n` items. */
  function SignalAfter(an: Analyser, items: seq<Item>, n: nat): Signal
    requires n <= |items|
  {
    EventsSignal(an.judge, Heard(an, items, n).events)
  }

  /** Framing never invents bytes. */
  ghost predicate Shrinks(an: Analyser) {
    forall buf :: |an.frame(buf).rest| <= |buf|
  }

  lemma ProxyShrinks(parse: Parser)
    ensures Shrinks(AnalyserOf(parse))
  {
    forall buf ensures |Drain(buf).rest| <= |buf| {
      DrainConserves(buf);
    }
  }

  lemma {:induction false} HeardFits(an: Analyser, items: seq<Item>, n: nat)
    requires Shrinks(an) && n <= |items|
    ensures |Heard(an, items, n).rest| <= |Read(items, n)|
  {
    if n > 0 {
      HeardFits(an, items, n - 1);
    }
  }

  lemma {:induction false} EventsSignalAppend(judge: Judge, a: seq<string>, b: seq<string>)
    ensures EventsSignal(judge, a + b) == Max(EventsSignal(judge, a), EventsSignal(judge, b))
  {
    if a == [] {
      assert a + b == b;
    } else {
      assert (a + b)[1..] == a[1..] + b;
      EventsSignalAppend(judge, a[1..], b);
    }
  }

  /** What is drained later comes behind what was drained before. */
  lemma {:induction false} HeardGrows(an: Analyser, items: seq<Item>, m: nat, n: nat) returns (more: seq<string>)
    requires m <= n <= |items|
    ensures Heard(an, items, n).events == Heard(an, items, m).events + more
    ensures Read(items, m) <= Read(items, n)
  {
    if m == n {
      more := [];
    } else {
      var x := HeardGrows(an, items, m, n - 1);
      more := if items[n - 1].Bytes? then x + an.frame(Heard(an, items, n - 1).rest + items[n - 1].chunk).events else x;
    }
  }

  lemma SignalGrows(an: Analyser, items: seq<Item>, m: nat, n: nat)
    requires m <= n <= |items|
    ensures Rank(SignalAfter(an, items, m)) <= Rank(SignalAfter(an, items, n))
  {
    var more := HeardGrows(an, items, m, n);
    EventsSignalAppend(an.judge, Heard(an, items, m).events, more);
  }

  // ---------- the outcome, exactly ----------

  /** The first `n` items are harmless chunks with neutral events that leave room in the window. */
  ghost predicate Quiet(an: Analyser, items: seq<Item>, n: nat) {
    n <= |items| && forall k :: 0 <= k < n ==> QuietAt(an, items, k)
  }

  ghost predicate QuietAt(an: Analyser, items: seq<Item>, k: nat)
    requires k < |items|
  {
    && items[k].Bytes? && !an.suspect(items[k].chunk)
    && SignalAfter(an, items, k + 1) == Neutral && |Read(items, k + 1)| < MAX_BYTES
  }

  /** Item `n` is a chunk that commits the stream. */
  ghost predicate CommitsAt(an: Analyser, items: seq<Item>, n: nat)
    requires n < |items|
  {
    && items[n].Bytes? && !an.suspect(items[n].chunk)
    && SignalAfter(an, items, n + 1) != Error
    && (SignalAfter(an, items, n + 1) != Neutral || |Read(items, n + 1)| >= MAX_BYTES)
  }

  /** Item `n` ends the attempt: a transport error, an error envelope or an error event; or the
      stream ended there and is no JSON body. */
  ghost predicate FailsAt(an: Analyser, items: seq<Item>, isSse: bool, ok: bool, n: nat)
    requires n <= |items|
  {
    if n == |items| then !(n > 0 && ok && !isSse)
    else items[n].TransportError? || an.suspect(items[n].chunk) || SignalAfter(an, items, n + 1) == Error
  }

  /** What an outcome says about the items, and about nothing else. */
  ghost predicate Justified(an: Analyser, items: seq<Item>, isSse: bool, ok: bool, outcome: Outcome) {
    match outcome
    case Committed(n) => 0 < n <= |items| && Quiet(an, items, n - 1) && CommitsAt(an, items, n - 1)
    case FailOver => exists n :: 0 <= n <= |items| && Quiet(an, items, n) && FailsAt(an, items, isSse, ok, n)
    case JsonBody => items != [] && Quiet(an, items, |items|) && ok && !isSse
  }

  lemma QuietSignal(an: Analyser, items: seq<Item>, n: nat)
    requires Quiet(an, items, n)
    ensures SignalAfter(an, items, n) == Neutral && |Read(items, n)| < MAX_BYTES
  {
    if n > 0 {
      assert QuietAt(an, items, n - 1);
    }
  }

  /** The signal of one more chunk, after neutral ones. */
  lemma NextSignal(an: Analyser, items: seq<Item>, i: nat)
    requires Shrinks(an) && i < |items| && items[i].Bytes? && SignalAfter(an, items, i) == Neutral
    ensures
      var late := an.frame(Heard(an, items, i).rest + items[i].chunk);
      && late.rest == Heard(an, items, i + 1).rest
      && SignalAfter(an, items, i + 1) == EventsSignal(an.judge, late.events)
      && (|late.rest| > MAX_BYTES ==> |Read(items, i + 1)| >= MAX_BYTES)
  {
    var late := an.frame(Heard(an, items, i).rest + items[i].chunk);
    EventsSignalAppend(an.judge, Heard(an, items, i).events, late.events);
    HeardFits(an, items, i + 1);
  }

  /** The outcome of a window that has read `i` quiet items. */
  lemma {:induction false} WindowFrom(an: Analyser, items: seq<Item>, isSse: bool, ok: bool, i: nat)
    requires Shrinks(an) && Quiet(an, items, i)
    ensures Justified(an, items, isSse, ok,
                      PrimeFrom(an, items, isSse, ok, i, Heard(an, items, i).rest, |Read(items, i)|))
    decreases |items| - i
  {
    QuietSignal(an, items, i);
    if i < |items| && items[i].Bytes? && !an.suspect(items[i].chunk) {
      NextSignal(an, items, i);
      if SignalAfter(an, items, i + 1) == Neutral && |Read(items, i + 1)| < MAX_BYTES {
        assert QuietAt(an, items, i);
        WindowFrom(an, items, isSse, ok, i + 1);
      } else if SignalAfter(an, items, i + 1) != Error {
        WindowCommits(an, items, isSse, ok, i);
      }
    }
  }

  lemma WindowCommits(an: Analyser, items: seq<Item>, isSse: bool, ok: bool, i: nat)
    requires Shrinks(an) && Quiet(an, items, i) && i < |items| && CommitsAt(an, items, i)
    ensures PrimeFrom(an, items, isSse, ok, i, Heard(an, items, i).rest, |Read(items, i)|) == Committed(i + 1)
  {
    QuietSignal(an, items, i);
    NextSignal(an, items, i);
  }

  lemma OneJustified(an: Analyser, items: seq<Item>, isSse: bool, ok: bool, m: nat, n: nat)
    requires m <= n && Quiet(an, items, n)
    ensures m < n ==> !CommitsAt(an, items, m) && !FailsAt(an, items, isSse, ok, m)
    ensures n < |items| ==> !(CommitsAt(an, items, n) && FailsAt(an, items, isSse, ok, n))
  {
    assert m < n ==> QuietAt(an, items, m);
  }

  /** At most one outcome is justified. */
  lemma JustifiedIsUnique(an: Analyser, items: seq<Item>, isSse: bool, ok: bool, x: Outcome, y: Outcome)
    requires Justified(an, items, isSse, ok, x) && Justified(an, items, isSse, ok, y)
    ensures x == y
  {
    var m, n := DecidedAt(an, items, isSse, ok, x), DecidedAt(an, items, isSse, ok, y);
    if m <= n {
      OneJustified(an, items, isSse, ok, m, n);
    } else {
      OneJustified(an, items, isSse, ok, n, m);
    }
  }

  /** The item that decided. */
  ghost function DecidedAt(an: Analyser, items: seq<Item>, isSse: bool, ok: bool, outcome: Outcome): (n: nat)
    requires Justified(an, items, isSse, ok, outcome)
    ensures n <= |items| && Quiet(an, items, n)
    ensures outcome.Committed? ==> n < |items| && n + 1 == outcome.read && CommitsAt(an, items, n)
    ensures outcome.FailOver? ==> FailsAt(an, items, isSse, ok, n)
    ensures outcome.JsonBody? ==> n == |items| && !FailsAt(an, items, isSse, ok, n)
  {
    match outcome
    case Committed(r) => r - 1
    case JsonBody => |items|
    case FailOver => var n :| 0 <= n <= |items| && Quiet(an, items, n) && FailsAt(an, items, isSse, ok, n); n
  }

  /** Exactly what decides: behind a quiet start, a stream is committed by the first chunk that brings
      output or a terminal event, or fills the window, and no error; it fails over at a transport
      error, an error envelope, an error event, or the end; and a quiet answer that is no event
      stream is a JSON body. */
  lemma OutcomeIff(parse: Parser, items: seq<Item>, isSse: bool, ok: bool, outcome: Outcome)
    ensures
      var an := AnalyserOf(parse);
      Prime(an, items, isSse, ok) == outcome <==> Justified(an, items, isSse, ok, outcome)
  {
    ProxyShrinks(parse);
    OutcomeIsJustified(AnalyserOf(parse), items, isSse, ok);
    if Justified(AnalyserOf(parse), items, isSse, ok, outcome) {
      JustifiedIsUnique(AnalyserOf(parse), items, isSse, ok, outcome, Prime(AnalyserOf(parse), items, isSse, ok));
    }
  }

  lemma OutcomeIsJustified(an: Analyser, items: seq<Item>, isSse: bool, ok: bool)
    requires Shrinks(an)
    ensures Justified(an, items, isSse, ok, Prime(an, items, isSse, ok))
  {
    WindowFrom(an, items, isSse, ok, 0);
  }

  // ---------- errors and output ----------

  lemma {:induction false} FirstSignalPrefix(judge: Judge, a: seq<string>, b: seq<string>)
    requires EventsSignal(judge, a) != Neutral && EventsSignal(judge, a) != Error
    ensures FirstSignal(judge, a + b) != Error
  {
    assert (a + b)[1..] == a[1..] + b;
    if judge(a[0]) == Neutral {
      FirstSignalPrefix(judge, a[1..], b);
    }
  }

  lemma {:induction false} FirstErrorIsError(judge: Judge, events: seq<string>)
    requires FirstSignal(judge, events) == Error
    ensures EventsSignal(judge, events) == Error
  {
    if judge(events[0]) == Neutral {
      FirstErrorIsError(judge, events[1..]);
    }
  }

  /** If the first event drained that is not neutral is an error, the attempt fails over, unless the
      window was filled first. */
  lemma ErrorFirst(an: Analyser, items: seq<Item>, isSse: bool, ok: bool)
    requires Shrinks(an) && FirstSignal(an.judge, Heard(an, items, |items|).events) == Error
    ensures
      var outcome := Prime(an, items, isSse, ok);
      || outcome.FailOver?
      || (outcome.Committed? && outcome.read <= |items| && |Read(items, outcome.read)| >= MAX_BYTES)
  {
    OutcomeIsJustified(an, items, isSse, ok);
    FirstErrorIsError(an.judge, Heard(an, items, |items|).events);
    match Prime(an, items, isSse, ok)
    case FailOver =>
    case JsonBody => QuietSignal(an, items, |items|);
    case Committed(n) =>
      var more := HeardGrows(an, items, n, |items|);
      if SignalAfter(an, items, n) != Neutral {
        FirstSignalPrefix(an.judge, Heard(an, items, n).events, more);
      }
  }

  /** Item `k` is harmless, if it arrives while all is neutral. */
  ghost predicate HarmlessAt(an: Analyser, items: seq<Item>, k: nat)
    requires k < |items|
  {
    SignalAfter(an, items, k) == Neutral ==> items[k].Bytes? && !an.suspect(items[k].chunk)
  }

  /** And the other way round: chunks without a transport error, an error envelope or an error event
      that bring output or a terminal event are committed. */
  lemma OutputCommits(an: Analyser, items: seq<Item>, isSse: bool, ok: bool)
    requires Shrinks(an) && IsOutput(SignalAfter(an, items, |items|))
    requires forall k :: 0 <= k < |items| ==> HarmlessAt(an, items, k)
    ensures Prime(an, items, isSse, ok).Committed?
  {
    OutcomeIsJustified(an, items, isSse, ok);
    var outcome := Prime(an, items, isSse, ok);
    var n := DecidedAt(an, items, isSse, ok, outcome);
    if n < |items| {
      OutputDoesNotFail(an, items, isSse, ok, n);
    } else {
      QuietSignal(an, items, n);
    }
  }

  lemma OutputDoesNotFail(an: Analyser, items: seq<Item>, isSse: bool, ok: bool, n: nat)
    requires IsOutput(SignalAfter(an, items, |items|)) && n < |items| && Quiet(an, items, n) && HarmlessAt(an, items, n)
    ensures !FailsAt(an, items, isSse, ok, n)
  {
    QuietSignal(an, items, n);
    SignalGrows(an, items, n + 1, |items|);
  }

  /** An event stream that stays neutral and within the window fails over at its end. */
  lemma NeutralFailsOver(an: Analyser, items: seq<Item>, ok: bool)
    requires Shrinks(an) && SignalAfter(an, items, |items|) == Neutral && |Read(items, |items|)| < MAX_BYTES
    ensures Prime(an, items, true, ok) == FailOver
  {
    OutcomeIsJustified(an, items, true, ok);
    match Prime(an, items, true, ok)
    case Committed(n) =>
      SignalGrows(an, items, n, |items|);
      var _ := HeardGrows(an, items, n, |items|);
    case _ =>
  }

  /** Whatever the chunks: if the first non-neutral event drained from them is an error, the proxy
      fails over, unless the window was filled first. */
  lemma ErrorFirstFailsOver(parse: Parser, items: seq<Item>, isSse: bool, ok: bool)
    requires FirstSignal(AnalyserOf(parse).judge, Heard(AnalyserOf(parse), items, |items|).events) == Error
    ensures
      var outcome := Prime(AnalyserOf(parse), items, isSse, ok);
      || outcome.FailOver?
      || (outcome.Committed? && outcome.read <= |items| && |Read(items, outcome.read)| >= MAX_BYTES)
  {
    ProxyShrinks(parse);
    ErrorFirst(AnalyserOf(parse), items, isSse, ok);
  }

  /** And it does fail over when an error event is complete while the window still has room. */
  lemma ErrorInWindowFailsOver(an: Analyser, items: seq<Item>, isSse: bool, ok: bool, m: nat)
    requires Shrinks(an) && 0 < m <= |items|
    requires FirstSignal(an.judge, Heard(an, items, |items|).events) == Error
    requires SignalAfter(an, items, m) == Error && |Read(items, m - 1)| < MAX_BYTES
    ensures Prime(an, items, isSse, ok) == FailOver
  {
    OutcomeIsJustified(an, items, isSse, ok);
    ErrorFirst(an, items, isSse, ok);
    var outcome := Prime(an, items, isSse, ok);
    if outcome.Committed? {
      if outcome.read < m {
        var _ := HeardGrows(an, items, outcome.read, m - 1);
      } else {
        SignalGrows(an, items, m, outcome.read);
      }
    }
  }
}
