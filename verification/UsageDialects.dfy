/** Which usage object an event yields, dialect by dialect (src/service/proxy.rs).

An event is read through its data lines.  A Chat frame carries its usage at `usage`, a Responses
frame at `response.usage`, a native Anthropic frame (`type` starting with `message_`) at
`message.usage` or `usage`.  The theorems say by paths into the parsed value which of them counts,
what the native count becomes, and which values end the stream. */
module UsageDialects {
  import opened Text
  import opened Json
  import opened JsonPaths
  import opened Sse
  import opened EventText
  import opened UsageCapture
  import Int64

  ghost predicate IsNative(v: Json) {
    var t := At(v, ["type"]);
    t.Some? && t.value.Str? && "message_" <= t.value.text
  }

  /** The frames of a usage object that may not decode. */
  function Decoded(u: Option<Usage>): seq<Usage> {
    if u.Some? then [u.value] else []
  }

  /** The native input of a frame: the prompt count, else the input count, else zero. */
  ghost predicate HasNativeInput(f: Usage, n: int) {
    match f.prompt
    case Some(p) => n == p
    case None =>
      match f.input
      case Some(i) => n == i
      case None => n == 0
  }

  /** `g` is the frame `f` with the cache buckets counted as input: taking them off again gives the
      native input, unless the sum does not fit `i64`; without buckets the frame is as it was. */
  ghost predicate IsFolded(f: Usage, g: Usage) {
    var read := if f.cacheRead.Some? then f.cacheRead.value else 0;
    var write := if f.cacheWrite.Some? then f.cacheWrite.value else 0;
    && (read + write <= 0 ==> g == f)
    && (read + write > 0 ==>
          && g.prompt.None? && g.input.Some?
          && g.completion == f.completion && g.output == f.output
          && g.cacheRead == f.cacheRead && g.cacheWrite == f.cacheWrite
          && forall n :: HasNativeInput(f, n) && -Int64.MAX - 1 <= n <= Int64.MAX ==>
               if n + read + write <= Int64.MAX && read + write <= Int64.MAX then g.input.value - read - write == n
               else g.input.value == Int64.Min(Int64.MAX, n + Int64.Min(read + write, Int64.MAX)))
  }

  lemma FoldIsFolded(f: Usage)
    ensures IsFolded(f, FoldAnthropicInput(f))
  {
  }

  /** Which usage object a value yields: both places of each dialect, and which of them goes first. */
  ghost predicate YieldsByPath(dec: Decoder, v: Json, frames: seq<Usage>) {
    var top, inMessage, inResponse := At(v, ["usage"]), At(v, ["message", "usage"]), At(v, ["response", "usage"]);
    && (!IsNative(v) && top.Some? ==> frames == Decoded(dec.usage(top.value)))
    && (!IsNative(v) && top.None? && inResponse.Some? ==> frames == Decoded(dec.usage(inResponse.value)))
    && (!IsNative(v) && top.None? && inResponse.None? ==> frames == [])
    && (IsNative(v) && inMessage.Some? ==> YieldsFolded(dec.usage(inMessage.value), frames))
    && (IsNative(v) && inMessage.None? && top.Some? ==> YieldsFolded(dec.usage(top.value), frames))
    && (IsNative(v) && inMessage.None? && top.None? ==> frames == [])
  }

  ghost predicate YieldsFolded(u: Option<Usage>, frames: seq<Usage>) {
    if u.None? then frames == [] else |frames| == 1 && IsFolded(u.value, frames[0])
  }

  lemma UsageByPath(dec: Decoder, v: Json)
    ensures YieldsByPath(dec, v, Decoded(UsageOf(dec, v)))
  {
    AtOne(v, "type");
    AtOne(v, "usage");
    AtTwo(v, "message", "usage");
    AtTwo(v, "response", "usage");
    forall u | At(v, ["usage"]) == Some(u) || At(v, ["message", "usage"]) == Some(u)
      ensures YieldsFolded(dec.usage(u), Decoded(Folded(dec.usage(u))))
    {
      FoldingYields(dec.usage(u));
    }
  }

  function Folded(u: Option<Usage>): Option<Usage> {
    if u.None? then None else Some(FoldAnthropicInput(u.value))
  }

  lemma FoldingYields(u: Option<Usage>)
    ensures YieldsFolded(u, Decoded(Folded(u)))
  {
    if u.Some? {
      FoldIsFolded(u.value);
    }
  }

  /** The value's type is one that ends a stream. */
  ghost predicate EndsByPath(v: Json) {
    || At(v, ["type"]) == Some(Str("response.completed"))
    || At(v, ["type"]) == Some(Str("response.incomplete"))
    || At(v, ["type"]) == Some(Str("response.failed"))
    || At(v, ["type"]) == Some(Str("response.done"))
    || At(v, ["type"]) == Some(Str("message_stop"))
  }

  lemma TerminalByPath(v: Json)
    ensures IsTerminalValue(v) <==> EndsByPath(v)
  {
    AtOne(v, "type");
  }

  // ---------- one event ----------

  /** One of the words that let an event through to the parser. */
  ghost predicate HasMarker(event: string) {
    exists word, i ::
      && word in {"[DONE]", "usage", "response.completed", "response.incomplete", "response.failed",
                  "response.done", "message_stop"}
      && OccursAt(word, event, i)
  }

  lemma MayCarryIff(event: string)
    ensures MayCarry(event) <==> HasMarker(event)
  {
    if MayCarry(event) {
      if Find(event, "[DONE]").Some? {
        assert OccursAt("[DONE]", event, Find(event, "[DONE]").value);
      } else if Find(event, "usage").Some? {
        assert OccursAt("usage", event, Find(event, "usage").value);
      } else {
        var ty :| ty in TERMINAL_TYPES && Find(event, ty).Some?;
        assert OccursAt(ty, event, Find(event, ty).value);
      }
    }
  }

  /** The event has one data line, which carries `text`; its other lines carry other fields. */
  ghost predicate OnlyData(lines: seq<string>, text: string) {
    exists k :: Carries(lines, k, "data:", text) && forall j :: 0 <= j < |lines| && j != k ==> !("data:" <= lines[j])
  }

  lemma {:induction false} NoDataReadsNothing(dec: Decoder, lines: seq<string>)
    requires forall j :: 0 <= j < |lines| ==> !("data:" <= lines[j])
    ensures ReadLines(dec, lines) == LineFacts([], false)
  {
    if lines != [] {
      NoDataReadsNothing(dec, lines[1..]);
    }
  }

  lemma {:induction false} OnlyDataReads(dec: Decoder, lines: seq<string>, k: nat, text: string)
    requires Carries(lines, k, "data:", text)
    requires forall j :: 0 <= j < |lines| && j != k ==> !("data:" <= lines[j])
    ensures ReadLines(dec, lines) == ReadData(dec, text)
  {
    var facts := ReadData(dec, text);
    if k == 0 {
      NoDataReadsNothing(dec, lines[1..]);
      assert facts.frames + [] == facts.frames;
    } else {
      assert Carries(lines[1..], k - 1, "data:", text);
      OnlyDataReads(dec, lines[1..], k - 1, text);
      assert [] + facts.frames == facts.frames;
    }
  }

  /** What an event with one data line contributes, by paths into the value that the line parses to:
      the frames to merge, and whether the stream ends.  Without a marker word it is not looked at. */
  lemma EventContributes(dec: Decoder, event: string, text: string, v: Json)
    requires OnlyData(Lines(event), text) && text != "[DONE]" && dec.json(text) == Some(v)
    ensures HasMarker(event) ==>
      && YieldsByPath(dec, v, ReadEvent(dec, event).frames)
      && (ReadEvent(dec, event).terminal <==> EndsByPath(v))
    ensures !HasMarker(event) ==> ReadEvent(dec, event) == LineFacts([], false)
  {
    MayCarryIff(event);
    var lines := Lines(event);
    var k :| Carries(lines, k, "data:", text) && forall j :: 0 <= j < |lines| && j != k ==> !("data:" <= lines[j]);
    OnlyDataReads(dec, lines, k, text);
    UsageByPath(dec, v);
    TerminalByPath(v);
  }

  /** What is billed of a native event: with buckets in the frame, and unless the counts overflow, the
      merged input is the native input and the buckets, and the merged buckets are the frame's. */
  lemma NativeInputIsMerged(dec: Decoder, event: string, text: string, v: Json, u: Json, f: Usage, n: int,
                            before: Option<Usage>)
    requires OnlyData(Lines(event), text) && text != "[DONE]" && dec.json(text) == Some(v) && HasMarker(event)
    requires IsNative(v) && dec.usage(u) == Some(f) && HasNativeInput(f, n)
    requires At(v, ["message", "usage"]) == Some(u) || (At(v, ["message", "usage"]).None? && At(v, ["usage"]) == Some(u))
    requires f.cacheRead.Some? && f.cacheWrite.Some? && f.cacheRead.value + f.cacheWrite.value > 0
    requires -Int64.MAX - 1 <= n <= n + f.cacheRead.value + f.cacheWrite.value <= Int64.MAX
    requires f.cacheRead.value + f.cacheWrite.value <= Int64.MAX
    ensures
      var m := MergeAll(before, ReadEvent(dec, event).frames);
      && m.Some? && m.value.input.Some? && m.value.cacheRead == f.cacheRead && m.value.cacheWrite == f.cacheWrite
      && m.value.input.value - m.value.cacheRead.value - m.value.cacheWrite.value == n
  {
    EventContributes(dec, event, text, v);
    var frames := ReadEvent(dec, event).frames;
    assert YieldsFolded(Some(f), frames);
    OneFrame(before, frames);
  }

  lemma OneFrame(before: Option<Usage>, frames: seq<Usage>)
    requires |frames| == 1
    ensures MergeAll(before, frames) == Some(MergeUsage(before, frames[0]))
  {
    assert frames[1..] == [];
  }

  /** The events that contribute no frame whatever they say: the end marker, text that does not
      parse, and lines of other fields. */
  lemma EventContributesNothing(dec: Decoder, event: string, text: string)
    ensures OnlyData(Lines(event), "[DONE]") && HasMarker(event) ==> ReadEvent(dec, event) == LineFacts([], true)
    ensures OnlyData(Lines(event), text) && text != "[DONE]" && dec.json(text).None? ==>
      ReadEvent(dec, event) == LineFacts([], false)
    ensures (forall j :: 0 <= j < |Lines(event)| ==> !("data:" <= Lines(event)[j])) ==>
      ReadEvent(dec, event) == LineFacts([], false)
  {
    MayCarryIff(event);
    var lines := Lines(event);
    forall t | OnlyData(lines, t) ensures ReadLines(dec, lines) == ReadData(dec, t) {
      var k :| Carries(lines, k, "data:", t) && forall j :: 0 <= j < |lines| && j != k ==> !("data:" <= lines[j]);
      OnlyDataReads(dec, lines, k, t);
    }
    if forall j :: 0 <= j < |lines| ==> !("data:" <= lines[j]) {
      NoDataReadsNothing(dec, lines);
    }
  }

  /** Several data lines contribute one after the other. */
  lemma {:induction false} LinesContributeInOrder(dec: Decoder, a: seq<string>, b: seq<string>)
    ensures ReadLines(dec, a + b) == Both(ReadLines(dec, a), ReadLines(dec, b))
  {
    if a == [] {
      assert a + b == b;
      NothingFirst(ReadLines(dec, b));
    } else {
      var head, tail := a[0], a[1..];
      HeadFirst(a, b);
      LinesContributeInOrder(dec, tail, b);
      FirstContributes(dec, head, tail + b);
      BothInOrder(ReadLine(dec, head), ReadLines(dec, tail), ReadLines(dec, b));
    }
  }

  lemma NothingFirst(x: LineFacts)
    ensures Both(LineFacts([], false), x) == x
  {
    assert [] + x.frames == x.frames;
  }

  function Both(x: LineFacts, y: LineFacts): LineFacts {
    LineFacts(x.frames + y.frames, x.terminal || y.terminal)
  }

  lemma BothInOrder(x: LineFacts, y: LineFacts, z: LineFacts)
    ensures Both(x, Both(y, z)) == Both(Both(x, y), z)
  {
  }

  lemma FirstContributes(dec: Decoder, head: string, tail: seq<string>)
    ensures ReadLines(dec, [head] + tail) == Both(ReadLine(dec, head), ReadLines(dec, tail))
  {
    assert ([head] + tail)[1..] == tail;
  }
}
