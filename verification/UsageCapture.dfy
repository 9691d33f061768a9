/** Usage capture from a proxied stream (src/service/proxy.rs).

Every chunk is also fed to a usage scanner, which drains complete events, merges the usage frames
it finds in them and stops behind a terminal event.  The theorems: merging is associative and keeps
the last value present of every field, and the cheap substring test in front of the JSON parser
loses nothing. */
module UsageCapture {
  import opened Text
  import opened Json
  import opened Sse
  import Int64

  const MAX_PENDING: int := 1_000_000

  // ---------- usage frames ----------

  datatype Usage = Usage(
    prompt: Option<int>, completion: Option<int>, input: Option<int>, output: Option<int>,
    cacheRead: Option<int>, cacheWrite: Option<int>)

  function Over(later: Option<int>, earlier: Option<int>): Option<int> {
    if later.Some? then later else earlier
  }

  /** `merge_usage`: the fields of the later frame that are present win. */
  function MergeUsage(dst: Option<Usage>, src: Usage): Usage {
    match dst
    case None => src
    case Some(d) =>
      Usage(Over(src.prompt, d.prompt), Over(src.completion, d.completion), Over(src.input, d.input),
            Over(src.output, d.output), Over(src.cacheRead, d.cacheRead), Over(src.cacheWrite, d.cacheWrite))
  }

  function MergeInto(dst: Option<Usage>, src: Option<Usage>): Option<Usage> {
    match src
    case None => dst
    case Some(u) => Some(MergeUsage(dst, u))
  }

  function MergeAll(dst: Option<Usage>, frames: seq<Usage>): Option<Usage>
    decreases frames
  {
    if frames == [] then dst
    else MergeAll(Some(MergeUsage(dst, frames[0])), frames[1..])
  }

  lemma MergeAssociative(a: Option<Usage>, b: Option<Usage>, c: Option<Usage>)
    ensures MergeInto(MergeInto(a, b), c) == MergeInto(a, MergeInto(b, c))
  {
  }

  lemma {:induction false} MergeAllAppend(dst: Option<Usage>, f: seq<Usage>, g: seq<Usage>)
    ensures MergeAll(dst, f + g) == MergeAll(MergeAll(dst, f), g)
    decreases f
  {
    if f == [] {
      assert f + g == g;
    } else {
      assert (f + g)[1..] == f[1..] + g;
      MergeAllAppend(Some(MergeUsage(dst, f[0])), f[1..], g);
    }
  }

  /** Merging what one chunk contributed is merging its frames one by one. */
  lemma {:induction false} MergeChunk(dst: Option<Usage>, seen: Option<Usage>, frames: seq<Usage>)
    ensures MergeInto(dst, MergeAll(seen, frames)) == MergeAll(MergeInto(dst, seen), frames)
    decreases frames
  {
    if frames != [] {
      MergeChunk(dst, Some(MergeUsage(seen, frames[0])), frames[1..]);
      MergeAssociative(dst, seen, Some(frames[0]));
    }
  }

  /** The last value present in a column of the frames. */
  function LastPresent(column: seq<Option<int>>): Option<int> {
    if column == [] then None
    else if column[|column| - 1].Some? then column[|column| - 1]
    else LastPresent(column[..|column| - 1])
  }

  function Column(frames: seq<Usage>, field: Usage -> Option<int>): seq<Option<int>> {
    seq(|frames|, i requires 0 <= i < |frames| => field(frames[i]))
  }

  /** What merging means: each field of the merged usage is the last one present in any frame. */
  lemma {:induction false} MergedIsLastPresent(frames: seq<Usage>)
    requires frames != []
    ensures MergeAll(None, frames) == Some(Usage(
      LastPresent(Column(frames, (u: Usage) => u.prompt)), LastPresent(Column(frames, (u: Usage) => u.completion)),
      LastPresent(Column(frames, (u: Usage) => u.input)), LastPresent(Column(frames, (u: Usage) => u.output)),
      LastPresent(Column(frames, (u: Usage) => u.cacheRead)), LastPresent(Column(frames, (u: Usage) => u.cacheWrite))))
  {
    var n := |frames| - 1;
    var init, last := frames[..n], frames[n];
    assert frames == init + [last];
    MergeAllAppend(None, init, [last]);
    LastOfColumn(frames, (u: Usage) => u.prompt);
    LastOfColumn(frames, (u: Usage) => u.completion);
    LastOfColumn(frames, (u: Usage) => u.input);
    LastOfColumn(frames, (u: Usage) => u.output);
    LastOfColumn(frames, (u: Usage) => u.cacheRead);
    LastOfColumn(frames, (u: Usage) => u.cacheWrite);
    if init != [] {
      MergedIsLastPresent(init);
    }
  }

  lemma LastOfColumn(frames: seq<Usage>, field: Usage -> Option<int>)
    requires frames != []
    ensures LastPresent(Column(frames, field))
         == Over(field(frames[|frames| - 1]), LastPresent(Column(frames[..|frames| - 1], field)))
  {
    var n := |frames| - 1;
    assert Column(frames, field)[..n] == Column(frames[..n], field);
  }

  // ---------- reading a data line ----------

  /** The two foreign parsers: JSON text to a value, and a usage object to a frame. */
  datatype Decoder = Decoder(json: string -> Option<Json>, usage: Json -> Option<Usage>)

  function OrZero(x: Option<int>): int {
    if x.Some? then x.value else 0
  }

  /** `fold_anthropic_input`: the native input count excludes the cache buckets; add them. */
  function FoldAnthropicInput(u: Usage): Usage {
    var buckets := Int64.SaturatingAdd(OrZero(u.cacheRead), OrZero(u.cacheWrite));
    if buckets > 0 then
      u.(prompt := None, input := Some(Int64.SaturatingAdd(OrZero(Over(u.prompt, u.input)), buckets)))
    else u
  }

  function GetIn(v: Option<Json>, key: string): Option<Json> {
    if v.Some? then Get(v.value, key) else None
  }

  function TypeOf(v: Json): Option<string> {
    var t := Get(v, "type");
    if t.Some? && t.value.Str? then Some(t.value.text) else None
  }

  function OrElse<T>(a: Option<T>, b: Option<T>): Option<T> {
    if a.Some? then a else b
  }

  /** `extract_usage_frame`, followed by the folding of the native dialect. */
  function UsageOf(dec: Decoder, v: Json): Option<Usage> {
    var ty := TypeOf(v);
    var anthropic := ty.Some? && "message_" <= ty.value;
    var u := if anthropic then OrElse(GetIn(Get(v, "message"), "usage"), Get(v, "usage"))
             else OrElse(Get(v, "usage"), GetIn(Get(v, "response"), "usage"));
    if u.None? then None
    else
      var frame := dec.usage(u.value);
      if frame.None? then None
      else if anthropic then Some(FoldAnthropicInput(frame.value))
      else frame
  }

  const TERMINAL_TYPES: set<string> :=
    {"response.completed", "response.incomplete", "response.failed", "response.done", "message_stop"}

  predicate IsTerminalValue(v: Json) {
    TypeOf(v).Some? && TypeOf(v).value in TERMINAL_TYPES
  }

  /** What one line contributes. */
  datatype LineFacts = LineFacts(frames: seq<Usage>, terminal: bool)

  /** What the value of a data line contributes. */
  function ReadData(dec: Decoder, data: string): LineFacts {
    if data == "[DONE]" then LineFacts([], true)
    else
      match dec.json(data)
      case None => LineFacts([], false)
      case Some(v) =>
        var u := UsageOf(dec, v);
        LineFacts(if u.Some? then [u.value] else [], IsTerminalValue(v))
  }

  function ReadLine(dec: Decoder, line: string): LineFacts {
    match FieldOf(line, "data:")
    case None => LineFacts([], false)
    case Some(data) => ReadData(dec, data)
  }

  function ReadLines(dec: Decoder, lines: seq<string>): LineFacts {
    if lines == [] then LineFacts([], false)
    else
      var head := ReadLine(dec, lines[0]);
      var tail := ReadLines(dec, lines[1..]);
      LineFacts(head.frames + tail.frames, head.terminal || tail.terminal)
  }

  /** `frame_may_carry_usage_or_terminal`. */
  predicate MayCarry(event: string) {
    || Find(event, "[DONE]").Some?
    || Find(event, "usage").Some?
    || exists ty | ty in TERMINAL_TYPES :: Find(event, ty).Some?
  }

  /** What one event contributes, behind the prefilter. */
  function ReadEvent(dec: Decoder, event: string): LineFacts {
    if MayCarry(event) then ReadLines(dec, Lines(event)) else LineFacts([], false)
  }

  predicate IsTerminal(dec: Decoder, event: string) {
    ReadEvent(dec, event).terminal
  }

  function Frames(dec: Decoder, events: seq<string>): seq<Usage> {
    if events == [] then [] else ReadEvent(dec, events[0]).frames + Frames(dec, events[1..])
  }

  /** The events up to and including the first terminal one. */
  function UpToTerminal(dec: Decoder, events: seq<string>): seq<string> {
    if events == [] then []
    else if IsTerminal(dec, events[0]) then [events[0]]
    else [events[0]] + UpToTerminal(dec, events[1..])
  }

  predicate HasTerminal(dec: Decoder, events: seq<string>) {
    events != [] && (IsTerminal(dec, events[0]) || HasTerminal(dec, events[1..]))
  }

  lemma {:induction false} FramesAppend(dec: Decoder, a: seq<string>, b: seq<string>)
    ensures Frames(dec, a + b) == Frames(dec, a) + Frames(dec, b)
  {
    if a == [] {
      assert a + b == b;
    } else {
      assert (a + b)[1..] == a[1..] + b;
      FramesAppend(dec, a[1..], b);
    }
  }

  /** Nothing behind the first terminal event counts. */
  lemma {:induction false} UpToTerminalStable(dec: Decoder, a: seq<string>, b: seq<string>)
    requires HasTerminal(dec, a)
    ensures UpToTerminal(dec, a + b) == UpToTerminal(dec, a)
    ensures HasTerminal(dec, a + b)
  {
    assert (a + b)[1..] == a[1..] + b;
    if !IsTerminal(dec, a[0]) {
      UpToTerminalStable(dec, a[1..], b);
    }
  }

  lemma {:induction false} UpToTerminalSkip(dec: Decoder, a: seq<string>, b: seq<string>)
    requires !HasTerminal(dec, a)
    ensures UpToTerminal(dec, a + b) == a + UpToTerminal(dec, b)
    ensures HasTerminal(dec, a + b) == HasTerminal(dec, b)
  {
    if a == [] {
      assert a + b == b;
    } else {
      UpToTerminalSkip(dec, a[1..], b);
      SkipOne(dec, a[0], a[1..] + b);
      HeadFirst(a, b);
      HeadFirst(a, UpToTerminal(dec, b));
    }
  }

  lemma SkipOne(dec: Decoder, head: string, tail: seq<string>)
    requires !IsTerminal(dec, head)
    ensures UpToTerminal(dec, [head] + tail) == [head] + UpToTerminal(dec, tail)
    ensures HasTerminal(dec, [head] + tail) == HasTerminal(dec, tail)
  {
    assert ([head] + tail)[1..] == tail;
  }

  // ---------- the prefilter ----------

  /** A text that can be the value of a data line. */
  ghost predicate IsPayload(text: string) {
    Trim(text) == text && NoBreak(text)
  }

  ghost predicate NoBreak(text: string) {
    forall i :: 0 <= i < |text| ==> text[i] != '\n'
  }

  /** Every payload that contributes something has a marker word in its text; a parser that unescapes
      the word does not guarantee that. */
  ghost predicate SpellsMarkers(dec: Decoder) {
    forall text :: Spells(dec, text)
  }

  ghost predicate Spells(dec: Decoder, text: string) {
    IsPayload(text) && ReadData(dec, text) != LineFacts([], false) ==> MayCarry(text)
  }

  /** `part` is a stretch of `whole`. */
  ghost predicate Within(part: string, whole: string) {
    exists i :: OccursAt(part, whole, i)
  }

  lemma SameSlice(part: string, whole: string, i: int, lo: nat, hi: nat)
    requires OccursAt(part, whole, i) && lo <= hi <= |part|
    ensures whole[i + lo..i + hi] == part[lo..hi]
  {
    var x, y := whole[i + lo..i + hi], part[lo..hi];
    assert |x| == |y|;
    forall k | 0 <= k < |x| ensures x[k] == y[k] {
      assert x[k] == whole[i + (lo + k)] == whole[i..i + |part|][lo + k] == part[lo + k];
    }
  }

  lemma FindWithin(tag: string, part: string, whole: string)
    requires Find(part, tag).Some? && Within(part, whole)
    ensures Find(whole, tag).Some?
  {
    var i :| OccursAt(part, whole, i);
    var k := Find(part, tag).value;
    SameSlice(part, whole, i, k, k + |tag|);
    assert OccursAt(tag, whole, i + k);
  }

  lemma SliceWithin(s: string, i: nat, j: nat, whole: string)
    requires i <= j <= |s| && Within(s, whole)
    ensures Within(s[i..j], whole)
  {
    var k :| OccursAt(s, whole, k);
    SameSlice(s, whole, k, i, j);
    assert OccursAt(s[i..j], whole, k + i);
  }

  lemma {:induction false} TrimWithin(s: string, whole: string)
    requires Within(s, whole)
    ensures Within(Trim(s), whole)
    decreases |s|
  {
    if s != "" && IsBlank(s[0]) {
      SliceWithin(s, 1, |s|, whole);
      assert s[1..|s|] == s[1..];
      TrimWithin(s[1..], whole);
    } else if s != "" && IsBlank(s[|s| - 1]) {
      SliceWithin(s, 0, |s| - 1, whole);
      assert s[0..|s| - 1] == s[..|s| - 1];
      TrimWithin(s[..|s| - 1], whole);
    }
  }

  lemma FirstLineWithin(text: string, i: nat, whole: string)
    requires i <= |text| && Within(text, whole)
    ensures Within(StripCr(text[..i]), whole)
  {
    SliceWithin(text, 0, i, whole);
    assert text[0..i] == text[..i];
    if i > 0 {
      SliceWithin(text, 0, i - 1, whole);
      assert text[0..i - 1] == text[..i][..i - 1];
    }
  }

  /** Every line of a text is a stretch of the text. */
  lemma {:induction false} LinesWithin(text: string, whole: string, k: nat)
    requires Within(text, whole) && k < |Lines(text)|
    ensures Within(Lines(text)[k], whole)
    decreases |text|
  {
    match Find(text, "\n")
    case None =>
    case Some(i) =>
      if k == 0 {
        FirstLineWithin(text, i, whole);
      } else {
        SliceWithin(text, i + 1, |text|, whole);
        assert text[i + 1..|text|] == text[i + 1..];
        LinesWithin(text[i + 1..], whole, k - 1);
      }
  }

  lemma MarkerWithin(part: string, whole: string)
    requires MayCarry(part) && Within(part, whole)
    ensures MayCarry(whole)
  {
    if Find(part, "[DONE]").Some? {
      FindWithin("[DONE]", part, whole);
    } else if Find(part, "usage").Some? {
      FindWithin("usage", part, whole);
    } else {
      var ty :| ty in TERMINAL_TYPES && Find(part, ty).Some?;
      FindWithin(ty, part, whole);
    }
  }

  lemma {:induction false} TrimIsPayload(s: string)
    requires NoBreak(s)
    ensures IsPayload(Trim(s))
    decreases |s|
  {
    if s != "" && IsBlank(s[0]) {
      TrimIsPayload(s[1..]);
    } else if s != "" && IsBlank(s[|s| - 1]) {
      TrimIsPayload(s[..|s| - 1]);
    }
  }

  lemma BeforeBreak(text: string, i: nat)
    requires Find(text, "\n") == Some(i) && i < |text|
    ensures NoBreak(text[..i])
  {
    forall j | 0 <= j < i ensures text[j] != '\n' {
      assert !OccursAt("\n", text, j);
      assert text[j..j + 1] == [text[j]];
    }
  }

  lemma {:induction false} LinesHaveNoBreak(text: string, k: nat)
    requires k < |Lines(text)|
    ensures NoBreak(Lines(text)[k])
    decreases |text|
  {
    match Find(text, "\n")
    case None =>
      forall j | 0 <= j < |text| ensures text[j] != '\n' {
        assert !OccursAt("\n", text, j);
        assert text[j..j + 1] == [text[j]];
      }
    case Some(i) =>
      if k == 0 {
        BeforeBreak(text, i);
      } else {
        LinesHaveNoBreak(text[i + 1..], k - 1);
      }
  }

  lemma LineNeedsWord(dec: Decoder, line: string, event: string)
    requires SpellsMarkers(dec) && Within(line, event) && NoBreak(line) && !MayCarry(event)
    ensures ReadLine(dec, line) == LineFacts([], false)
  {
    var name := "data:";
    if name <= line {
      var value := line[|name|..];
      SliceWithin(line, |name|, |line|, event);
      assert line[|name|..|line|] == value;
      TrimWithin(value, event);
      TrimIsPayload(value);
      assert Spells(dec, Trim(value));
      if MayCarry(Trim(value)) {
        MarkerWithin(Trim(value), event);
      }
    }
  }

  lemma {:induction false} LinesNeedWord(dec: Decoder, lines: seq<string>, event: string)
    requires SpellsMarkers(dec) && !MayCarry(event)
    requires forall k :: 0 <= k < |lines| ==> Within(lines[k], event) && NoBreak(lines[k])
    ensures ReadLines(dec, lines) == LineFacts([], false)
  {
    if lines != [] {
      LineNeedsWord(dec, lines[0], event);
      LinesNeedWord(dec, lines[1..], event);
    }
  }

  /** The whole event is read. */
  ghost predicate ReadsFully(dec: Decoder, event: string) {
    ReadEvent(dec, event) == ReadLines(dec, Lines(event))
  }

  lemma SpelledIsLossless(dec: Decoder, event: string)
    requires SpellsMarkers(dec)
    ensures ReadsFully(dec, event)
  {
    if !MayCarry(event) {
      assert event[0..|event|] == event;
      assert OccursAt(event, event, 0);
      forall k | 0 <= k < |Lines(event)| ensures Within(Lines(event)[k], event) && NoBreak(Lines(event)[k]) {
        LinesWithin(event, event, k);
        LinesHaveNoBreak(event, k);
      }
      LinesNeedWord(dec, Lines(event), event);
    }
  }

  /** A word that does not begin inside the field name is in the value. */
  lemma MarkerIsInValue(name: string, text: string, tag: string)
    requires tag != "" && tag[0] !in name && Find(name + text, tag).Some?
    ensures Find(text, tag).Some?
  {
    var i := Find(name + text, tag).value;
    assert tag[0] == (name + text)[i..i + |tag|][0] == (name + text)[i];
    assert forall j :: 0 <= j < |name| ==> (name + text)[j] == name[j];
    OccursShift(tag, name, text, i - |name|);
  }

  /** No marker word begins inside the field name. */
  ghost predicate FreeOfMarkers(name: string) {
    '[' !in name && 'u' !in name && 'r' !in name && 'm' !in name
  }

  lemma ValueCarries(name: string, text: string)
    requires FreeOfMarkers(name) && MayCarry(name + text)
    ensures MayCarry(text)
  {
    var event := name + text;
    if Find(event, "[DONE]").Some? {
      MarkerIsInValue(name, text, "[DONE]");
    } else if Find(event, "usage").Some? {
      MarkerIsInValue(name, text, "usage");
    } else {
      var ty :| ty in TERMINAL_TYPES && Find(event, ty).Some?;
      assert ty[0] == 'r' || ty[0] == 'm';
      MarkerIsInValue(name, text, ty);
    }
  }

  lemma NoBreakIsOneLine(text: string)
    requires NoBreak(text) && text != ""
    ensures Lines(text) == [text]
  {
    forall j | 0 <= j < |text| ensures !OccursAt("\n", text, j) {
      assert text[j..j + 1] == [text[j]];
    }
  }

  /** An event of one data line reads as its value. */
  lemma OneLine(dec: Decoder, text: string)
    requires IsPayload(text)
    ensures ReadLines(dec, Lines("data:" + text)) == ReadData(dec, text)
  {
    var name := "data:";
    var event := name + text;
    NoBreakIsOneLine(event);
    assert event[|name|..] == text;
    assert ReadLine(dec, event) == ReadData(dec, text);
    var none: seq<string> := [];
    assert [event][1..] == none;
    assert ReadData(dec, text).frames + [] == ReadData(dec, text).frames;
  }

  lemma LosslessIsSpelled(dec: Decoder, text: string)
    requires ReadsFully(dec, "data:" + text)
    ensures Spells(dec, text)
  {
    if IsPayload(text) && ReadData(dec, text) != LineFacts([], false) {
      OneLine(dec, text);
      ValueCarries("data:", text);
    }
  }

  ghost predicate IsLossless(dec: Decoder) {
    forall event :: ReadsFully(dec, event)
  }

  /** The exact condition: skipping the events that fail the substring test loses no usage and no
      terminal event if and only if the parser reads those only where the marker words are spelled. */
  lemma PrefilterIsLosslessIff(dec: Decoder)
    ensures IsLossless(dec) <==> SpellsMarkers(dec)
  {
    if SpellsMarkers(dec) {
      SpellingSuffices(dec);
    }
    if IsLossless(dec) {
      SpellingIsNeeded(dec);
    }
  }

  lemma SpellingSuffices(dec: Decoder)
    requires SpellsMarkers(dec)
    ensures IsLossless(dec)
  {
    forall event ensures ReadsFully(dec, event) {
      SpelledIsLossless(dec, event);
    }
  }

  lemma SpellingIsNeeded(dec: Decoder)
    requires IsLossless(dec)
    ensures SpellsMarkers(dec)
  {
    forall text ensures Spells(dec, text) {
      assert ReadsFully(dec, "data:" + text);
      LosslessIsSpelled(dec, text);
    }
  }

  // ---------- the scanner ----------

  datatype Fed = Fed(buf: string, usage: Option<Usage>, done: bool)

  /** The event loop of `feed_sse`: stops behind a terminal event. */
  function FeedEvents(dec: Decoder, buf: string, usage: Option<Usage>): Fed
    decreases |buf|
  {
    match FindEventEnd(buf)
    case None => Fed(buf, usage, false)
    case Some(q) =>
      var facts := ReadEvent(dec, buf[..q]);
      var merged := MergeAll(usage, facts.frames);
      if facts.terminal then Fed(buf[q..], merged, true) else FeedEvents(dec, buf[q..], merged)
  }

  function Feed(dec: Decoder, buf: string, chunk: string): Fed {
    var fed := FeedEvents(dec, buf + chunk, None);
    if |fed.buf| > MAX_PENDING then fed.(buf := "") else fed
  }

  /** `feed_sse`. */
  method FeedSse(dec: Decoder, buf: string, chunk: string) returns (rest: string, usage: Option<Usage>, done: bool)
    ensures Fed(rest, usage, done) == Feed(dec, buf, chunk)
  {
    rest, usage, done := buf + chunk, None, false;
    ghost var result := FeedEvents(dec, rest, usage);
    while true
      invariant !done && FeedEvents(dec, rest, usage) == result
      decreases |rest|
    {
      var end := FindEventEnd(rest);
      if end.None? {
        break;
      }
      var event := rest[..end.value];
      rest := rest[end.value..];
      usage, done := ScanEvent(dec, event, usage);
      if done {
        break;
      }
    }
    if |rest| > MAX_PENDING {
      rest := "";
    }
  }

  /** One event: the prefilter, then line by line. */
  method ScanEvent(dec: Decoder, event: string, before: Option<Usage>) returns (usage: Option<Usage>, done: bool)
    ensures usage == MergeAll(before, ReadEvent(dec, event).frames)
    ensures done == ReadEvent(dec, event).terminal
  {
    usage, done := before, false;
    if !MayCarry(event) {
      return;
    }
    var lines := Lines(event);
    for i := 0 to |lines|
      invariant MergeAll(usage, ReadLines(dec, lines[i..]).frames) == MergeAll(before, ReadLines(dec, lines).frames)
      invariant (done || ReadLines(dec, lines[i..]).terminal) == ReadLines(dec, lines).terminal
    {
      ghost var tail := ReadLines(dec, lines[i + 1..]).frames;
      assert lines[i..][1..] == lines[i + 1..];
      ghost var usage0 := usage;
      MergeAllAppend(usage0, ReadLine(dec, lines[i]).frames, tail);
      match FieldOf(lines[i], "data:") {
        case None =>
        case Some(data) =>
          if data == "[DONE]" {
            done := true;
          } else {
            match dec.json(data) {
              case None =>
              case Some(v) =>
                var u := UsageOf(dec, v);
                if u.Some? {
                  usage := Some(MergeUsage(usage, u.value));
                }
                if IsTerminalValue(v) {
                  done := true;
                }
            }
          }
      }
      assert usage == MergeAll(usage0, ReadLine(dec, lines[i]).frames);
    }
  }
}
