/** What makes an event an error, output or an end, dialect by dialect (src/service/proxy.rs).

The judgement of an event is stated here by its lines and by paths into the values they parse to,
for the Chat, the Responses and the Anthropic dialects, and so is the check of a raw chunk. */
module PrimingSignals {
  import opened Text
  import opened Json
  import opened JsonPaths
  import opened Sse
  import opened EventText
  import opened Priming

  // ---------- values, by path ----------

  /** The text at a path of keys. */
  ghost predicate TextAt(v: Json, path: seq<string>, text: string) {
    At(v, path) == Some(Str(text))
  }

  ghost predicate FilledText(x: Option<Json>) {
    x.Some? && x.value.Str? && x.value.text != ""
  }

  ghost predicate FilledArray(x: Option<Json>) {
    x.Some? && x.value.Arr? && x.value.items != []
  }

  /** An error object with a message or a type, or a value of type `error`. */
  ghost predicate ErrorByPath(v: Json) {
    || (&& At(v, ["error"]).Some? && At(v, ["error"]).value.Obj?
        && (At(v, ["error", "message"]).Some? || At(v, ["error", "type"]).Some?))
    || TextAt(v, ["type"], "error")
  }

  /** A Chat choice that has ended. */
  ghost predicate Finished(choice: Json) {
    At(choice, ["finish_reason"]).Some? && At(choice, ["finish_reason"]) != Some(Null)
  }

  /** A Chat choice that says something. */
  ghost predicate Speaks(choice: Json) {
    || FilledText(At(choice, ["delta", "content"])) || FilledArray(At(choice, ["delta", "content"]))
    || FilledText(At(choice, ["delta", "reasoning_content"]))
    || FilledArray(At(choice, ["delta", "tool_calls"]))
  }

  /** The first choice that has ended or says something. */
  ghost predicate Decides(choices: seq<Json>, k: int) {
    && 0 <= k < |choices|
    && (Finished(choices[k]) || Speaks(choices[k]))
    && forall j :: 0 <= j < k ==> !Finished(choices[j]) && !Speaks(choices[j])
  }

  ghost predicate ChoicesAt(v: Json, choices: seq<Json>) {
    At(v, ["choices"]) == Some(Arr(choices))
  }

  ghost predicate IsForeignName(t: string) {
    t == "content_block_delta" || t == "message_stop" || "response." <= t
  }

  /** No type name of the other two dialects. */
  ghost predicate IsChat(v: Json) {
    forall t :: TextAt(v, ["type"], t) ==> !IsForeignName(t)
  }

  /** The choice that decides says something, or has ended. */
  ghost predicate ChatSpeaks(v: Json) {
    exists choices, k :: ChoicesAt(v, choices) && Decides(choices, k) && !Finished(choices[k])
  }

  ghost predicate ChatFinishes(v: Json) {
    exists choices, k :: ChoicesAt(v, choices) && Decides(choices, k) && Finished(choices[k])
  }

  /** The types of the Anthropic and the Responses output events. */
  ghost predicate IsOutputName(t: string) {
    || t == "content_block_delta"
    || "response.output" <= t || "response.function_call_arguments" <= t
    || "response.reasoning" <= t || "response.custom_tool_call_input" <= t
  }

  /** The types that end a stream. */
  ghost predicate IsEndName(t: string) {
    || t == "message_stop" || t == "response.completed" || t == "response.incomplete"
    || t == "response.failed" || t == "response.done"
  }

  ghost predicate ProductiveByPath(v: Json) {
    || (exists t :: TextAt(v, ["type"], t) && IsOutputName(t))
    || (IsChat(v) && ChatSpeaks(v))
  }

  ghost predicate TerminalByPath(v: Json) {
    || (exists t :: TextAt(v, ["type"], t) && IsEndName(t))
    || (IsChat(v) && (ChatFinishes(v) || (!ChatSpeaks(v) && At(v, ["usage"]).Some?)))
  }

  // ---------- the judgement of a value ----------

  lemma EnvelopeIff(v: Json)
    ensures IsErrorEnvelope(v) <==> ErrorByPath(v)
  {
    AtOne(v, "error");
    AtOne(v, "type");
    AtTwo(v, "error", "message");
    AtTwo(v, "error", "type");
  }

  lemma SpeaksIff(choice: Json)
    ensures Speaks(choice) <==> Get(choice, "delta").Some? && DeltaIsProductive(Get(choice, "delta").value)
  {
    AtTwo(choice, "delta", "content");
    AtTwo(choice, "delta", "reasoning_content");
    AtTwo(choice, "delta", "tool_calls");
  }

  lemma DecidesLater(choices: seq<Json>, k: int)
    requires choices != [] && !Finished(choices[0]) && !Speaks(choices[0])
    ensures Decides(choices, k) <==> Decides(choices[1..], k - 1)
  {
    var tail := choices[1..];
    if Decides(tail, k - 1) {
      forall j | 0 <= j < k ensures !Finished(choices[j]) && !Speaks(choices[j]) {
        assert j > 0 ==> choices[j] == tail[j - 1];
      }
    }
    if Decides(choices, k) {
      forall j | 0 <= j < k - 1 ensures !Finished(tail[j]) && !Speaks(tail[j]) {
        assert tail[j] == choices[j + 1];
      }
    }
  }

  /** The choices are judged by the first one that decides. */
  ghost predicate JudgedBy(choices: seq<Json>, s: Option<Signal>) {
    && (s.None? <==> forall k :: !Decides(choices, k))
    && (s == Some(Terminal) <==> exists k :: Decides(choices, k) && Finished(choices[k]))
    && (s == Some(Productive) <==> exists k :: Decides(choices, k) && !Finished(choices[k]))
  }

  lemma {:induction false} ChoicesJudgedBy(choices: seq<Json>)
    ensures JudgedBy(choices, ChoicesSignal(choices))
  {
    if choices != [] {
      AtOne(choices[0], "finish_reason");
      SpeaksIff(choices[0]);
      if Finished(choices[0]) || Speaks(choices[0]) {
        FirstDecides(choices);
      } else {
        ChoicesJudgedBy(choices[1..]);
        LaterDecides(choices, ChoicesSignal(choices[1..]));
      }
    }
  }

  lemma FirstDecides(choices: seq<Json>)
    requires choices != [] && (Finished(choices[0]) || Speaks(choices[0]))
    ensures JudgedBy(choices, Some(if Finished(choices[0]) then Terminal else Productive))
  {
    assert Decides(choices, 0);
    forall k | k != 0 ensures !Decides(choices, k) {
    }
  }

  lemma LaterDecides(choices: seq<Json>, s: Option<Signal>)
    requires choices != [] && !Finished(choices[0]) && !Speaks(choices[0])
    requires JudgedBy(choices[1..], s)
    ensures JudgedBy(choices, s)
  {
    var tail := choices[1..];
    forall k ensures Decides(choices, k) <==> Decides(tail, k - 1) {
      DecidesLater(choices, k);
    }
    if k :| Decides(tail, k) {
      assert Decides(choices, k + 1) && choices[k + 1] == tail[k];
    }
    forall k | Decides(choices, k) ensures Decides(tail, k - 1) && tail[k - 1] == choices[k] {
    }
  }

  lemma ChatByPath(v: Json)
    ensures ChatSignal(v) == Productive <==> ChatSpeaks(v)
    ensures ChatSignal(v) == Terminal <==> ChatFinishes(v) || (!ChatSpeaks(v) && At(v, ["usage"]).Some?)
    ensures ChatSignal(v) != Error
  {
    AtOne(v, "choices");
    AtOne(v, "usage");
    var x := At(v, ["choices"]);
    if x.Some? && x.value.Arr? {
      var items := x.value.items;
      ChoicesJudgedBy(items);
      assert ChoicesAt(v, items);
      assert forall choices :: ChoicesAt(v, choices) ==> choices == items;
    }
  }

  /** The names of output and of ends are different, and all of them are foreign to Chat. */
  lemma NamesAreDistinct(t: string)
    ensures IsOutputName(t) ==> IsForeignName(t) && !IsEndName(t)
    ensures IsEndName(t) ==> IsForeignName(t)
  {
    PrefixChars("response.output", t);
    PrefixChars("response.function_call_arguments", t);
    PrefixChars("response.reasoning", t);
    PrefixChars("response.custom_tool_call_input", t);
  }

  lemma PrefixChars(p: string, t: string)
    requires "response." <= p && |p| >= 11
    ensures p <= t ==> "response." <= t && |t| >= 11 && t[9] == p[9] && t[10] == p[10]
  {
  }

  /** What a type says, for every text. */
  lemma TypeByPath(v: Json, t: string)
    requires StrAt(v, "type") == Some(t)
    ensures IsOutputName(t) ==> SignalOf(v) == Productive
    ensures IsEndName(t) ==> SignalOf(v) == Terminal
    ensures IsForeignName(t) && !IsOutputName(t) && !IsEndName(t) ==> SignalOf(v) == Neutral
    ensures !IsForeignName(t) ==> SignalOf(v) == ChatSignal(v)
  {
    NamesAreDistinct(t);
  }

  /** Which values are output and which are ends. */
  lemma SignalByPath(v: Json)
    ensures SignalOf(v) == Productive <==> ProductiveByPath(v)
    ensures SignalOf(v) == Terminal <==> TerminalByPath(v)
    ensures SignalOf(v) != Error
  {
    ChatByPath(v);
    AtOne(v, "type");
    var x := At(v, ["type"]);
    if x.Some? && x.value.Str? {
      TypedSignal(v, x.value.text);
    } else {
      assert forall t :: !TextAt(v, ["type"], t);
    }
  }

  lemma TypedSignal(v: Json, t: string)
    requires TextAt(v, ["type"], t)
    ensures SignalOf(v) == Productive <==> ProductiveByPath(v)
    ensures SignalOf(v) == Terminal <==> TerminalByPath(v)
    ensures SignalOf(v) != Error
  {
    ChatByPath(v);
    AtOne(v, "type");
    TypeByPath(v, t);
    NamesAreDistinct(t);
    assert forall t' :: TextAt(v, ["type"], t') ==> t' == t;
  }

  // ---------- one event, by its lines ----------

  /** Line `k` is a data line that parses to `v`. */
  ghost predicate Parsed(parse: Parser, lines: seq<string>, k: int, v: Json) {
    exists d :: Carries(lines, k, "data:", d) && d != "[DONE]" && parse(d) == Some(v)
  }

  /** The first `event:` line, if there is one, carries `name`. */
  ghost predicate Named(lines: seq<string>, name: string) {
    exists k :: Carries(lines, k, "event:", name) && forall j :: 0 <= j < k ==> !("event:" <= lines[j])
  }

  ghost predicate HasError(parse: Parser, lines: seq<string>) {
    exists k, v :: Parsed(parse, lines, k, v) && (ErrorByPath(v) || Named(lines, "error"))
  }

  ghost predicate HasOutput(parse: Parser, lines: seq<string>) {
    exists k, v :: Parsed(parse, lines, k, v) && ProductiveByPath(v)
  }

  ghost predicate HasEnd(parse: Parser, lines: seq<string>) {
    || (exists k :: Carries(lines, k, "data:", "[DONE]"))
    || exists k, v :: Parsed(parse, lines, k, v) && TerminalByPath(v)
  }

  lemma {:induction false} EventNameIff(lines: seq<string>, name: string)
    ensures EventName(lines) == Some(name) <==> Named(lines, name)
  {
    if lines != [] {
      var tail := lines[1..];
      if "event:" <= lines[0] {
        if FieldOf(lines[0], "event:") == Some(name) {
          assert Carries(lines, 0, "event:", name);
        }
      } else {
        EventNameIff(tail, name);
        if k :| Carries(tail, k, "event:", name) && forall j :: 0 <= j < k ==> !("event:" <= tail[j]) {
          NamedLater(lines, k, name);
        }
        if k :| Carries(lines, k, "event:", name) && forall j :: 0 <= j < k ==> !("event:" <= lines[j]) {
          NamedEarlier(lines, k, name);
        }
      }
    }
  }

  lemma NamedLater(lines: seq<string>, k: nat, name: string)
    requires lines != [] && !("event:" <= lines[0])
    requires Carries(lines[1..], k, "event:", name) && forall j :: 0 <= j < k ==> !("event:" <= lines[1..][j])
    ensures Named(lines, name)
  {
    assert Carries(lines, k + 1, "event:", name);
    forall j | 0 <= j < k + 1 ensures !("event:" <= lines[j]) {
      assert j > 0 ==> lines[j] == lines[1..][j - 1];
    }
  }

  lemma NamedEarlier(lines: seq<string>, k: nat, name: string)
    requires lines != [] && !("event:" <= lines[0])
    requires Carries(lines, k, "event:", name) && forall j :: 0 <= j < k ==> !("event:" <= lines[j])
    ensures Named(lines[1..], name)
  {
    var tail := lines[1..];
    assert Carries(tail, k - 1, "event:", name);
    forall j | 0 <= j < k - 1 ensures !("event:" <= tail[j]) {
      assert tail[j] == lines[j + 1];
    }
  }

  /** What line `k` says. */
  lemma LineByPath(parse: Parser, lines: seq<string>, k: nat)
    requires k < |lines|
    ensures LineSignal(parse, lines[k], EventName(lines)) == Error
       <==> exists v :: Parsed(parse, lines, k, v) && (ErrorByPath(v) || Named(lines, "error"))
    ensures LineSignal(parse, lines[k], EventName(lines)) == Productive
        ==> exists v :: Parsed(parse, lines, k, v) && ProductiveByPath(v)
    ensures LineSignal(parse, lines[k], EventName(lines)) == Terminal
        ==> Carries(lines, k, "data:", "[DONE]") || exists v :: Parsed(parse, lines, k, v) && TerminalByPath(v)
    ensures forall v :: Parsed(parse, lines, k, v) ==>
      || LineSignal(parse, lines[k], EventName(lines)) == Error
      || (&& (ProductiveByPath(v) ==> LineSignal(parse, lines[k], EventName(lines)) == Productive)
          && (TerminalByPath(v) ==> LineSignal(parse, lines[k], EventName(lines)) == Terminal))
    ensures Carries(lines, k, "data:", "[DONE]") ==> LineSignal(parse, lines[k], EventName(lines)) == Terminal
  {
    EventNameIff(lines, "error");
    var d := FieldOf(lines[k], "data:");
    if d.Some? && d.value != "[DONE]" && parse(d.value).Some? {
      var v := parse(d.value).value;
      assert Carries(lines, k, "data:", d.value);
      assert Parsed(parse, lines, k, v);
      EnvelopeIff(v);
      SignalByPath(v);
      assert forall v' :: Parsed(parse, lines, k, v') ==> v' == v;
    } else {
      assert forall v :: !Parsed(parse, lines, k, v);
    }
  }

  /** The signal of some events, or lines, is the highest one among them. */
  lemma {:induction false} TakesHighest(judge: Judge, events: seq<string>)
    ensures forall k :: 0 <= k < |events| ==> Rank(judge(events[k])) <= Rank(EventsSignal(judge, events))
    ensures EventsSignal(judge, events) == Neutral
         || exists k :: 0 <= k < |events| && judge(events[k]) == EventsSignal(judge, events)
  {
    if events != [] {
      var tail := events[1..];
      TakesHighest(judge, tail);
      var head, rest, all := judge(events[0]), EventsSignal(judge, tail), EventsSignal(judge, events);
      forall k | 0 <= k < |events| ensures Rank(judge(events[k])) <= Rank(all) {
        if k > 0 {
          assert events[k] == tail[k - 1];
        }
      }
      if all != head && all != Neutral {
        var k :| 0 <= k < |tail| && judge(tail[k]) == rest;
        assert events[k + 1] == tail[k];
      }
    }
  }

  function LineJudge(parse: Parser, name: Option<string>): Judge {
    (line: string) => LineSignal(parse, line, name)
  }

  lemma {:induction false} LinesAreJudged(parse: Parser, lines: seq<string>, name: Option<string>)
    ensures LinesSignal(parse, lines, name) == EventsSignal(LineJudge(parse, name), lines)
  {
    if lines != [] {
      LinesAreJudged(parse, lines[1..], name);
    }
  }

  lemma LinesTakeHighest(parse: Parser, lines: seq<string>, name: Option<string>)
    ensures forall k :: 0 <= k < |lines| ==> Rank(LineSignal(parse, lines[k], name)) <= Rank(LinesSignal(parse, lines, name))
    ensures LinesSignal(parse, lines, name) == Neutral
         || exists k :: 0 <= k < |lines| && LineSignal(parse, lines[k], name) == LinesSignal(parse, lines, name)
  {
    var judge := LineJudge(parse, name);
    TakesHighest(judge, lines);
    LinesAreJudged(parse, lines, name);
    forall k | 0 <= k < |lines| ensures judge(lines[k]) == LineSignal(parse, lines[k], name) {
    }
  }

  /** The judgement of an event, by its lines and by paths: an error wins over output, output over an
      end, and everything else is neutral. */
  lemma EventSignalIff(parse: Parser, event: string)
    ensures EventSignal(parse, event) == Error <==> HasError(parse, Lines(event))
    ensures EventSignal(parse, event) == Productive <==>
      !HasError(parse, Lines(event)) && HasOutput(parse, Lines(event))
    ensures EventSignal(parse, event) == Terminal <==>
      !HasError(parse, Lines(event)) && !HasOutput(parse, Lines(event)) && HasEnd(parse, Lines(event))
  {
    var lines := Lines(event);
    var name := EventName(lines);
    LinesTakeHighest(parse, lines, name);
    forall k | 0 <= k < |lines| ensures LineSpeaks(parse, lines, k, LineSignal(parse, lines[k], name)) {
      LineByPath(parse, lines, k);
    }
    Highest(parse, lines, name);
  }

  /** What a signal on line `k` means. */
  ghost predicate LineSpeaks(parse: Parser, lines: seq<string>, k: int, s: Signal) {
    && (s == Error ==> HasError(parse, lines))
    && (s == Productive ==> HasOutput(parse, lines))
    && (s == Terminal ==> HasEnd(parse, lines))
  }

  lemma Highest(parse: Parser, lines: seq<string>, name: Option<string>)
    requires name == EventName(lines)
    ensures HasError(parse, lines) ==> LinesSignal(parse, lines, name) == Error
    ensures HasOutput(parse, lines) ==> Rank(LinesSignal(parse, lines, name)) >= 2
    ensures HasEnd(parse, lines) ==> Rank(LinesSignal(parse, lines, name)) >= 1
  {
    forall k, v | Parsed(parse, lines, k, v) ensures Raises(v, Named(lines, "error"), LinesSignal(parse, lines, name)) {
      ParsedRaises(parse, lines, k, v);
    }
    LinesTakeHighest(parse, lines, name);
    if k :| Carries(lines, k, "data:", "[DONE]") {
      LineByPath(parse, lines, k);
    }
  }

  /** The signal that a value on some line calls for, or a higher one. */
  ghost predicate Raises(v: Json, named: bool, s: Signal) {
    && (ErrorByPath(v) || named ==> s == Error)
    && (ProductiveByPath(v) ==> Rank(s) >= 2)
    && (TerminalByPath(v) ==> Rank(s) >= 1)
  }

  lemma ParsedRaises(parse: Parser, lines: seq<string>, k: int, v: Json)
    requires Parsed(parse, lines, k, v)
    ensures Raises(v, Named(lines, "error"), LinesSignal(parse, lines, EventName(lines)))
  {
    var name := EventName(lines);
    LinesTakeHighest(parse, lines, name);
    LineByPath(parse, lines, k);
    assert Rank(LineSignal(parse, lines[k], name)) <= Rank(LinesSignal(parse, lines, name));
  }

  /** The signal of a chunk: an error in any of its events wins, then output or an unfinished event
      longer than the window, then an end. */
  lemma ChunkSignalIff(judge: Judge, framed: Framed)
    ensures
      var s, tooLong := ChunkSignal(judge, framed), |framed.rest| > 256 * 1024;
      && (s == Error <==> Says(judge, framed.events, Error))
      && (s == Productive <==> !Says(judge, framed.events, Error) && (Says(judge, framed.events, Productive) || tooLong))
      && (s == Terminal <==>
            && !Says(judge, framed.events, Error) && !Says(judge, framed.events, Productive) && !tooLong
            && Says(judge, framed.events, Terminal))
  {
    TakesHighest(judge, framed.events);
  }

  /** Some event says so. */
  ghost predicate Says(judge: Judge, events: seq<string>, s: Signal) {
    exists k :: 0 <= k < |events| && judge(events[k]) == s
  }

  // ---------- the check of a raw chunk ----------

  ghost predicate AllIn(s: string, lo: int, hi: int, chars: set<char>) {
    0 <= lo <= hi <= |s| && forall i :: lo <= i < hi ==> s[i] in chars
  }

  /** What follows a byte order mark and blanks starts at `n`. */
  ghost predicate BodyAt(chunk: string, n: int) {
    var mark := if "\U{00EF}\U{00BB}\U{00BF}" <= chunk then 3 else 0;
    && AllIn(chunk, mark, n, {' ', '\t', '\r', '\n'})
    && (n < |chunk| ==> chunk[n] !in {' ', '\t', '\r', '\n'})
  }

  /** The payload of a body at `n`: the rest of its first line when that is a data line, else all of
      it; behind blanks. */
  ghost predicate PayloadAt(chunk: string, n: int, lo: int, hi: int)
    requires 0 <= n <= |chunk|
  {
    var isData := OccursAt("data:", chunk, n);
    var start := if isData then n + 5 else n;
    && AllIn(chunk, start, lo, {' ', '\t', '\r'}) && lo <= hi <= |chunk|
    && (lo < hi ==> chunk[lo] !in {' ', '\t', '\r'})
    && (!isData ==> hi == |chunk|)
    && (isData ==> (hi < |chunk| ==> chunk[hi] == '\n') && forall i :: start <= i < hi ==> chunk[i] != '\n')
  }

  lemma {:induction false} SkipAnyIs(s: string, blanks: set<char>) returns (n: nat)
    ensures n <= |s| && SkipAny(s, blanks) == s[n..] && AllIn(s, 0, n, blanks) && (n < |s| ==> s[n] !in blanks)
    decreases |s|
  {
    if s != "" && s[0] in blanks {
      var m := SkipAnyIs(s[1..], blanks);
      n := m + 1;
      assert s[1..][m..] == s[n..];
      forall i | 0 <= i < n ensures s[i] in blanks {
        assert i > 0 ==> s[i] == s[1..][i - 1];
      }
    } else {
      n := 0;
    }
  }

  function Unmarked(chunk: string): string {
    if "\U{00EF}\U{00BB}\U{00BF}" <= chunk then chunk[3..] else chunk
  }

  lemma BodyIs(chunk: string) returns (n: nat)
    ensures BodyAt(chunk, n) && SkipAny(Unmarked(chunk), {' ', '\t', '\r', '\n'}) == chunk[n..]
  {
    var blanks := {' ', '\t', '\r', '\n'};
    var m := SkipAnyIs(Unmarked(chunk), blanks);
    var mark := if "\U{00EF}\U{00BB}\U{00BF}" <= chunk then 3 else 0;
    var text := chunk[mark..];
    assert text == Unmarked(chunk);
    n := mark + m;
    assert text[m..] == chunk[n..];
    forall i | mark <= i < n ensures chunk[i] in blanks {
      assert chunk[i] == text[i - mark];
    }
    assert n < |chunk| ==> chunk[n] == text[m];
  }

  lemma OneBody(chunk: string, m: int, n: int)
    requires BodyAt(chunk, m) && BodyAt(chunk, n)
    ensures m == n
  {
  }

  function PayloadOf(body: string): string {
    SkipAny(if "data:" <= body then FirstLine(body[5..]) else body, {' ', '\t', '\r'})
  }

  lemma FirstLineIs(s: string) returns (n: nat)
    ensures n <= |s| && FirstLine(s) == s[..n] && (n < |s| ==> s[n] == '\n') && forall i :: 0 <= i < n ==> s[i] != '\n'
  {
    match Find(s, "\n")
    case Some(i) =>
      n := i;
      assert s[i..i + 1] == "\n";
      assert s[i] == s[i..i + 1][0];
      forall j | 0 <= j < i ensures s[j] != '\n' {
        assert !OccursAt("\n", s, j);
        assert s[j..j + 1] == [s[j]];
      }
    case None =>
      n := |s|;
      forall j | 0 <= j < |s| ensures s[j] != '\n' {
        assert !OccursAt("\n", s, j);
        assert s[j..j + 1] == [s[j]];
      }
  }

  /** The line, or the rest, that the payload of a body is taken from. */
  lemma StretchIs(chunk: string, n: nat) returns (start: nat, hi: nat)
    requires n <= |chunk|
    ensures start <= hi <= |chunk| && start == (if OccursAt("data:", chunk, n) then n + 5 else n)
    ensures chunk[start..hi] == if "data:" <= chunk[n..] then FirstLine(chunk[n..][5..]) else chunk[n..]
    ensures if OccursAt("data:", chunk, n)
            then (hi < |chunk| ==> chunk[hi] == '\n') && forall i :: start <= i < hi ==> chunk[i] != '\n'
            else hi == |chunk|
  {
    var body := chunk[n..];
    PrefixOccurs("data:", chunk, n);
    if "data:" <= body {
      start := n + 5;
      var rest := body[5..];
      assert rest == chunk[start..];
      var m := FirstLineIs(rest);
      hi := start + m;
      assert chunk[start..hi] == rest[..m];
      assert hi < |chunk| ==> chunk[hi] == rest[m];
      forall i | start <= i < hi ensures chunk[i] != '\n' {
        assert chunk[i] == rest[i - start];
      }
    } else {
      start, hi := n, |chunk|;
    }
  }

  lemma PrefixOccurs(tag: string, s: string, n: nat)
    requires n <= |s|
    ensures tag <= s[n..] <==> OccursAt(tag, s, n)
  {
    if n + |tag| <= |s| {
      assert s[n..][..|tag|] == s[n..n + |tag|];
    }
  }

  lemma BehindBlanks(chunk: string, start: nat, hi: nat, blanks: set<char>) returns (lo: nat)
    requires start <= hi <= |chunk|
    ensures lo <= hi && AllIn(chunk, start, lo, blanks) && (lo < hi ==> chunk[lo] !in blanks)
    ensures SkipAny(chunk[start..hi], blanks) == chunk[lo..hi]
  {
    var text := chunk[start..hi];
    var m := SkipAnyIs(text, blanks);
    lo := start + m;
    assert text[m..] == chunk[lo..hi];
    forall i | start <= i < lo ensures chunk[i] in blanks {
      assert chunk[i] == text[i - start];
    }
    assert lo < hi ==> chunk[lo] == text[m];
  }

  lemma PayloadIs(chunk: string, n: nat) returns (lo: nat, hi: nat)
    requires n <= |chunk|
    ensures PayloadAt(chunk, n, lo, hi) && PayloadOf(chunk[n..]) == chunk[lo..hi]
  {
    var start;
    start, hi := StretchIs(chunk, n);
    lo := BehindBlanks(chunk, start, hi, {' ', '\t', '\r'});
  }

  lemma OnePayload(chunk: string, n: nat, lo: int, hi: int, lo': int, hi': int)
    requires n <= |chunk| && PayloadAt(chunk, n, lo, hi) && PayloadAt(chunk, n, lo', hi')
    ensures hi == hi' && (lo < hi ==> lo == lo' < hi')
  {
  }

  /** The stretch from `lo` to `hi` is a payload, and parses to an error. */
  ghost predicate ErrorAt(parse: Parser, chunk: string, n: int, lo: int, hi: int) {
    && BodyAt(chunk, n) && n < |chunk| && chunk[n] != ':'
    && PayloadAt(chunk, n, lo, hi) && lo < hi
    && parse(chunk[lo..hi]).Some? && ErrorByPath(parse(chunk[lo..hi]).value)
  }

  lemma JudgedPayload(parse: Parser, chunk: string, n: nat, lo: nat, hi: nat)
    requires BodyAt(chunk, n) && SkipAny(Unmarked(chunk), {' ', '\t', '\r', '\n'}) == chunk[n..]
    requires PayloadAt(chunk, n, lo, hi) && PayloadOf(chunk[n..]) == chunk[lo..hi]
    ensures FirstChunkError(parse, chunk) <==> ErrorAt(parse, chunk, n, lo, hi)
  {
    var body, text := chunk[n..], chunk[lo..hi];
    assert body != "" <==> n < |chunk|;
    assert body != "" ==> body[0] == chunk[n];
    assert text != "" <==> lo < hi;
    if parse(text).Some? {
      EnvelopeIff(parse(text).value);
    }
  }

  lemma OneError(parse: Parser, chunk: string, n: int, lo: int, hi: int, n': int, lo': int, hi': int)
    requires BodyAt(chunk, n) && PayloadAt(chunk, n, lo, hi)
    requires ErrorAt(parse, chunk, n', lo', hi')
    ensures ErrorAt(parse, chunk, n, lo, hi)
  {
    OneBody(chunk, n, n');
    OnePayload(chunk, n, lo', hi', lo, hi);
    assert chunk[lo'] !in {' ', '\t', '\r'};
  }

  /** The check of a raw chunk: its first data line, or the whole chunk, parses to an error. */
  lemma FirstChunkErrorIff(parse: Parser, chunk: string)
    ensures FirstChunkError(parse, chunk) <==> exists n, lo, hi :: ErrorAt(parse, chunk, n, lo, hi)
  {
    var n := BodyIs(chunk);
    var lo, hi := PayloadIs(chunk, n);
    JudgedPayload(parse, chunk, n, lo, hi);
    if n', lo', hi' :| ErrorAt(parse, chunk, n', lo', hi') {
      OneError(parse, chunk, n, lo, hi, n', lo', hi');
    }
  }

  /** So a stream whose first chunk is one data line with an error in it fails over, whatever follows. */
  lemma ErrorLineFailsOver(parse: Parser, text: string, v: Json, rest: seq<Item>, isSse: bool, ok: bool)
    requires text != "" && text[0] !in {' ', '\t', '\r'} && forall i :: 0 <= i < |text| ==> text[i] != '\n'
    requires parse(text) == Some(v) && ErrorByPath(v)
    ensures Prime(AnalyserOf(parse), [Bytes("data:" + text + LFLF)] + rest, isSse, ok) == FailOver
  {
    ErrorLineIsSuspect(parse, text, v);
    var items := [Bytes("data:" + text + LFLF)] + rest;
    assert items[0] == Bytes("data:" + text + LFLF);
  }

  lemma ErrorLineIsSuspect(parse: Parser, text: string, v: Json)
    requires text != "" && text[0] !in {' ', '\t', '\r'} && forall i :: 0 <= i < |text| ==> text[i] != '\n'
    requires parse(text) == Some(v) && ErrorByPath(v)
    ensures FirstChunkError(parse, "data:" + text + LFLF)
  {
    var name, end := "data:", LFLF;
    var chunk, hi := name + text + end, 5 + |text|;
    assert chunk[..5] == name && chunk[5..hi] == text && chunk[hi] == '\n';
    assert chunk[0] == 'd' && OccursAt(name, chunk, 0);
    forall i | 5 <= i < hi ensures chunk[i] != '\n' {
      assert chunk[i] == text[i - 5];
    }
    assert chunk[5] == text[0];
    assert BodyAt(chunk, 0) && PayloadAt(chunk, 0, 5, hi);
    assert ErrorAt(parse, chunk, 0, 5, hi);
    FirstChunkErrorIff(parse, chunk);
  }
}
