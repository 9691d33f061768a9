/** The separator of inline `<think>...</think>` blocks (src/service/inline_think.rs).

Some upstreams mix their reasoning into the answer text.  The separator is fed the text
in arbitrary chunks and hands out reasoning and answer increments.  The main theorem is
chunk invariance: whatever the chunks, the increments add up to a one-shot split of the
whole text. */
module InlineThink {
  import opened Text

  const THINK_OPEN: string := "<think>"
  const THINK_CLOSE: string := "</think>"

  datatype Mode = Detecting | Reasoning | Answer

  datatype PrefixDecision = NeedMore | IsReasoning | IsText

  /** Unicode `White_Space`, the set `str::trim_start` removes. */
  predicate IsWhitespace(c: char) {
    || '\U{0009}' <= c <= '\U{000D}'
    || c in {'\U{0020}', '\U{0085}', '\U{00A0}', '\U{1680}', '\U{2028}', '\U{2029}', '\U{202F}', '\U{205F}', '\U{3000}'}
    || '\U{2000}' <= c <= '\U{200A}'
  }

  function TrimStart(s: string): (t: string)
    ensures |t| <= |s| && t == s[|s| - |t|..]
  {
    if s != "" && IsWhitespace(s[0]) then TrimStart(s[1..]) else s
  }

  /** Only whitespace is trimmed, and all of it. */
  lemma {:induction false} TrimStartSplits(s: string)
    ensures TrimStart(s) != "" ==> !IsWhitespace(TrimStart(s)[0])
    ensures forall i :: 0 <= i < |s| - |TrimStart(s)| ==> IsWhitespace(s[i])
  {
    if s != "" && IsWhitespace(s[0]) {
      TrimStartSplits(s[1..]);
      assert forall i :: 1 <= i < |s| ==> s[i] == s[1..][i - 1];
    }
  }

  /** Is the start of the text, leading whitespace aside, a think block?  The tags are
      parameters of the functions below so that the reasoning is about tags in general. */
  function LeadingPrefixDecision(buffer: string, open: string): PrefixDecision {
    Decide(TrimStart(buffer), open)
  }

  function Decide(trimmed: string, open: string): PrefixDecision {
    if trimmed == "" then NeedMore
    else if trimmed <= open then NeedMore
    else if open <= trimmed then IsReasoning
    else IsText
  }

  /** The last `k` characters of `s` are the first `k` of the tag. */
  predicate EndsWithPartial(s: string, tag: string, k: nat) {
    k <= |tag| && k <= |s| && s[|s| - k..] == tag[..k]
  }

  /** The longest suffix of the buffer that may grow into the tag. */
  function PartialSuffixLen(buffer: string, tag: string): (k: nat)
    ensures EndsWithPartial(buffer, tag, k)
    ensures forall j: nat :: EndsWithPartial(buffer, tag, j) ==> j <= k
  {
    LongestPartial(buffer, tag, if |tag| <= |buffer| then |tag| else |buffer|)
  }

  function LongestPartial(buffer: string, tag: string, limit: nat): (k: nat)
    requires limit <= |tag| && limit <= |buffer|
    requires forall j: nat :: EndsWithPartial(buffer, tag, j) ==> j <= limit
    ensures EndsWithPartial(buffer, tag, k)
    ensures forall j: nat :: EndsWithPartial(buffer, tag, j) ==> j <= k
  {
    if EndsWithPartial(buffer, tag, limit) then limit else LongestPartial(buffer, tag, limit - 1)
  }

  /** The non-streaming split: the first complete block anywhere in the text. */
  function SplitLeadingBlock(text: string, open: string, close: string): Option<(string, string)> {
    match Find(text, open)
    case None => None
    case Some(start) =>
      var afterOpen := text[start + |open|..];
      match Find(afterOpen, close)
      case None => None
      case Some(end) => Some((afterOpen[..end], afterOpen[end + |close|..]))
  }

  // ---------- the one-shot answer ----------

  /** The reference: (reasoning, answer) of a whole text. */
  function OneShot(s: string, open: string, close: string): (string, string) {
    OneShotTrimmed(s, TrimStart(s), open, close)
  }

  function OneShotTrimmed(s: string, trimmed: string, open: string, close: string): (string, string) {
    if |trimmed| > |open| && open <= trimmed then
      var body := trimmed[|open|..];
      match Find(body, close)
      case Some(end) => (body[..end], body[end + |close|..])
      case None => (body, "")
    else
      ("", s)
  }

  /** What the separator holds and has handed out once it has seen a text. */
  datatype Progress = Progress(mode: Mode, held: string, reasoning: string, answer: string)

  function ProgressAfter(seen: string, open: string, close: string): Progress {
    ProgressTrimmed(seen, TrimStart(seen), open, close)
  }

  function ProgressTrimmed(seen: string, trimmed: string, open: string, close: string): Progress {
    match Decide(trimmed, open)
    case NeedMore => Progress(Detecting, seen, "", "")
    case IsText => Progress(Answer, "", "", seen)
    case IsReasoning => BodyProgress(trimmed[|open|..], close)
  }

  function BodyProgress(body: string, close: string): Progress {
    match Find(body, close)
    case Some(end) => Progress(Answer, "", body[..end], body[end + |close|..])
    case None =>
      var cut := |body| - PartialSuffixLen(body, close);
      Progress(Reasoning, body[cut..], body[..cut], "")
  }

  // ---------- lemmas ----------

  lemma {:induction false} TrimStartAppend(s: string, d: string)
    ensures TrimStart(s) != "" ==> TrimStart(s + d) == TrimStart(s) + d
  {
    if s != "" {
      assert (s + d)[1..] == s[1..] + d;
      if IsWhitespace(s[0]) {
        TrimStartAppend(s[1..], d);
      }
    }
  }

  /** The first open tag sits right behind the leading whitespace. */
  lemma OpenTagPosition(s: string, open: string)
    requires open != "" && !IsWhitespace(open[0])
    requires open <= TrimStart(s)
    ensures Find(s, open) == Some(|s| - |TrimStart(s)|)
  {
    TrimStartSplits(s);
    FirstOccurrence(s, TrimStart(s), open);
  }

  lemma FirstOccurrence(s: string, t: string, tag: string)
    requires |t| <= |s| && t == s[|s| - |t|..] && tag != "" && tag <= t
    requires forall i :: 0 <= i < |s| - |t| ==> s[i] != tag[0]
    ensures Find(s, tag) == Some(|s| - |t|)
  {
    var p := |s| - |t|;
    assert s[p..p + |tag|] == t[..|tag|];
    forall j | OccursAt(tag, s, j) ensures p <= j {
      assert tag[0] == s[j..j + |tag|][0] == s[j];
    }
    FindIs(s, tag, p);
  }

  /** A tag that needs the new delta starts inside the held suffix. */
  lemma TagStartsInHeld(sent: string, held: string, delta: string, tag: string, i: nat)
    requires forall j: nat :: EndsWithPartial(sent + held, tag, j) ==> j <= |held|
    requires !OccursAt(tag, sent + held, i)
    requires OccursAt(tag, sent + held + delta, i)
    ensures |sent| <= i
  {
    var body := sent + held;
    if i + |tag| <= |body| {
      OccursPrefix(tag, body, delta, i);
    } else if i < |body| {
      assert body[i..] == (body + delta)[i..i + |tag|][..|body| - i];
      assert EndsWithPartial(body, tag, |body| - i);
    }
  }

  /** So scanning only the held suffix plus the delta finds the same tag. */
  lemma FindInHeld(sent: string, held: string, delta: string, tag: string)
    requires forall j: nat :: EndsWithPartial(sent + held, tag, j) ==> j <= |held|
    requires Find(sent + held, tag).None?
    ensures Find(held + delta, tag).Some? ==>
              Find(sent + held + delta, tag) == Some(|sent| + Find(held + delta, tag).value)
    ensures Find(held + delta, tag).None? ==> Find(sent + held + delta, tag).None?
  {
    var whole, tail := sent + held + delta, held + delta;
    assert whole == sent + tail;
    forall j: nat | OccursAt(tag, whole, j) ensures |sent| <= j && OccursAt(tag, tail, j - |sent|) {
      TagStartsInHeld(sent, held, delta, tag, j);
      OccursShift(tag, sent, tail, j - |sent|);
    }
    if Find(tail, tag).Some? {
      OccursShift(tag, sent, tail, Find(tail, tag).value);
    }
  }

  /** Dropping the delta from a partial tag leaves a partial tag of the body. */
  lemma PartialOfPrefix(body: string, delta: string, tag: string, x: nat)
    requires x >= |delta| && EndsWithPartial(body + delta, tag, x)
    ensures EndsWithPartial(body, tag, x - |delta|)
  {
    var n := x - |delta|;
    assert body[|body| - n..] == (body + delta)[|body + delta| - x..][..n];
    assert tag[..x][..n] == tag[..n];
  }

  /** A partial tag only sees the characters it covers. */
  lemma PartialOfSuffix(sent: string, tail: string, tag: string, x: nat)
    requires x <= |tail|
    ensures EndsWithPartial(sent + tail, tag, x) <==> EndsWithPartial(tail, tag, x)
  {
    assert (sent + tail)[|sent + tail| - x..] == tail[|tail| - x..];
  }

  /** A partial tag of the body plus the delta does not reach in front of the held suffix. */
  lemma PartialStaysInTail(sent: string, held: string, delta: string, tag: string, x: nat)
    requires forall j: nat :: EndsWithPartial(sent + held, tag, j) ==> j <= |held|
    ensures EndsWithPartial(sent + held + delta, tag, x) <==> EndsWithPartial(held + delta, tag, x)
  {
    assert sent + held + delta == sent + (held + delta);
    if x <= |held + delta| {
      PartialOfSuffix(sent, held + delta, tag, x);
    } else if EndsWithPartial(sent + held + delta, tag, x) {
      PartialOfPrefix(sent + held, delta, tag, x);
    }
  }

  /** The held suffix plus the delta ends with the same partial tag as the whole body. */
  lemma SamePartialSuffix(sent: string, held: string, delta: string, tag: string)
    requires forall j: nat :: EndsWithPartial(sent + held, tag, j) ==> j <= |held|
    ensures PartialSuffixLen(sent + held + delta, tag) == PartialSuffixLen(held + delta, tag)
  {
    PartialStaysInTail(sent, held, delta, tag, PartialSuffixLen(sent + held + delta, tag));
    PartialStaysInTail(sent, held, delta, tag, PartialSuffixLen(held + delta, tag));
  }

  lemma BodyShape(body: string, close: string)
    requires Find(body, close).None?
    ensures
      var p := BodyProgress(body, close);
      && body == p.reasoning + p.held
      && |p.held| == PartialSuffixLen(body, close)
  {
  }

  /** One more delta in reasoning mode. */
  lemma BodyStep(body: string, delta: string, close: string)
    requires Find(body, close).None?
    ensures
      var before := BodyProgress(body, close);
      var step := BodyProgress(before.held + delta, close);
      BodyProgress(body + delta, close) == step.(reasoning := before.reasoning + step.reasoning)
  {
    BodyShape(body, close);
    var before := BodyProgress(body, close);
    BodyStepAt(before.reasoning, before.held, delta, close);
  }

  lemma BodyStepAt(sent: string, held: string, delta: string, close: string)
    requires forall j: nat :: EndsWithPartial(sent + held, close, j) ==> j <= |held|
    requires Find(sent + held, close).None?
    ensures
      var step := BodyProgress(held + delta, close);
      BodyProgress(sent + held + delta, close) == step.(reasoning := sent + step.reasoning)
  {
    assert sent + held + delta == sent + (held + delta);
    FindInHeld(sent, held, delta, close);
    SamePartialSuffix(sent, held, delta, close);
    BodyShift(sent, held + delta, sent + held + delta, close);
  }

  /** Text in front of a scanned tail is just more reasoning. */
  lemma BodyShift(sent: string, tail: string, whole: string, close: string)
    requires whole == sent + tail
    requires Find(tail, close).Some? ==> Find(whole, close) == Some(|sent| + Find(tail, close).value)
    requires Find(tail, close).None? ==> Find(whole, close).None?
    requires PartialSuffixLen(whole, close) == PartialSuffixLen(tail, close)
    ensures BodyProgress(whole, close)
         == BodyProgress(tail, close).(reasoning := sent + BodyProgress(tail, close).reasoning)
  {
    match Find(tail, close)
    case Some(e) =>
      SliceShift(sent, tail, e);
      SliceShift(sent, tail, e + |close|);
      assert BodyProgress(whole, close) == Progress(Answer, "", sent + tail[..e], tail[e + |close|..]);
    case None =>
      var cut := |tail| - PartialSuffixLen(tail, close);
      SliceShift(sent, tail, cut);
      assert BodyProgress(whole, close) == Progress(Reasoning, tail[cut..], sent + tail[..cut], "");
  }

  lemma SliceShift(a: string, b: string, i: nat)
    requires i <= |b|
    ensures (a + b)[..|a| + i] == a + b[..i]
    ensures (a + b)[|a| + i..] == b[i..]
  {
  }

  /** After the closing tag, more text is more answer. */
  lemma ClosedBodyStep(body: string, delta: string, close: string)
    requires Find(body, close).Some?
    ensures BodyProgress(body + delta, close)
         == BodyProgress(body, close).(answer := BodyProgress(body, close).answer + delta)
  {
    var end := Find(body, close).value;
    forall j | 0 <= j <= end ensures OccursAt(close, body, j) <==> OccursAt(close, body + delta, j) {
      OccursPrefix(close, body, delta, j);
    }
    FindIs(body + delta, close, end);
  }

  /** In answer mode every further character is answer. */
  lemma AnswerStep(seen: string, delta: string, open: string, close: string)
    requires ProgressAfter(seen, open, close).mode.Answer?
    ensures ProgressAfter(seen + delta, open, close)
         == ProgressAfter(seen, open, close).(answer := ProgressAfter(seen, open, close).answer + delta)
  {
    DecisionIsFinal(seen, delta, open);
    if LeadingPrefixDecision(seen, open).IsReasoning? {
      ClosedBodyStep(TrimStart(seen)[|open|..], delta, close);
    }
  }

  /** A decision, once taken, is not changed by more text. */
  lemma DecisionIsFinal(seen: string, delta: string, open: string)
    requires !LeadingPrefixDecision(seen, open).NeedMore?
    ensures LeadingPrefixDecision(seen + delta, open) == LeadingPrefixDecision(seen, open)
    ensures LeadingPrefixDecision(seen, open).IsReasoning? ==>
              TrimStart(seen + delta)[|open|..] == TrimStart(seen)[|open|..] + delta
  {
    TrimStartAppend(seen, delta);
    DecideAppend(TrimStart(seen), delta, open);
  }

  lemma DecideAppend(t: string, delta: string, open: string)
    requires !Decide(t, open).NeedMore?
    ensures Decide(t + delta, open) == Decide(t, open)
    ensures open <= t ==> (t + delta)[|open|..] == t[|open|..] + delta
  {
  }

  lemma ReasoningStep(seen: string, delta: string, open: string, close: string)
    requires ProgressAfter(seen, open, close).mode.Reasoning?
    ensures
      var before := ProgressAfter(seen, open, close);
      var step := BodyProgress(before.held + delta, close);
      ProgressAfter(seen + delta, open, close) == step.(reasoning := before.reasoning + step.reasoning)
  {
    DecisionIsFinal(seen, delta, open);
    BodyStep(TrimStart(seen)[|open|..], delta, close);
  }

  /** What the separator has handed out once it is flushed. */
  function Flushed(p: Progress): (string, string) {
    match p.mode
    case Detecting => (p.reasoning, p.answer + p.held)
    case Reasoning => (p.reasoning + p.held, p.answer)
    case Answer => (p.reasoning, p.answer)
  }

  /** Flushing completes the one-shot answer. */
  lemma FlushCompletes(seen: string, open: string, close: string)
    ensures Flushed(ProgressAfter(seen, open, close)) == OneShot(seen, open, close)
  {
    FlushCompletesTrimmed(seen, TrimStart(seen), open, close);
  }

  lemma FlushCompletesTrimmed(s: string, t: string, open: string, close: string)
    ensures Flushed(ProgressTrimmed(s, t, open, close)) == OneShotTrimmed(s, t, open, close)
  {
    match Decide(t, open)
    case NeedMore => assert "" + s == s;
    case IsText =>
    case IsReasoning => FlushedBody(t[|open|..], close);
  }

  lemma FlushedBody(body: string, close: string)
    ensures Find(body, close).None? ==> Flushed(BodyProgress(body, close)) == (body, "")
  {
    var cut := |body| - PartialSuffixLen(body, close);
    assert body[..cut] + body[cut..] == body;
  }

  /** In reasoning mode less than one closing tag is held. */
  lemma ReasoningHoldsLessThanTag(seen: string, open: string, close: string)
    ensures ProgressAfter(seen, open, close).mode.Reasoning? ==> |ProgressAfter(seen, open, close).held| < |close|
  {
    TrimmedHoldsLessThanTag(seen, TrimStart(seen), open, close);
  }

  lemma TrimmedHoldsLessThanTag(s: string, t: string, open: string, close: string)
    ensures ProgressTrimmed(s, t, open, close).mode.Reasoning? ==> |ProgressTrimmed(s, t, open, close).held| < |close|
  {
    if ProgressTrimmed(s, t, open, close).mode.Reasoning? {
      BodyHoldsLessThanTag(t[|open|..], close);
    }
  }

  lemma BodyHoldsLessThanTag(body: string, close: string)
    requires Find(body, close).None?
    ensures PartialSuffixLen(body, close) < |close|
  {
    var k := PartialSuffixLen(body, close);
    assert k == |close| ==> OccursAt(close, body, |body| - k);
  }

  /** The non-streaming split agrees with the streaming one exactly when the text, leading
      whitespace aside, starts with the open tag; otherwise it drops the text before the block. */
  lemma SplitLeadingThinkAgreesIff(text: string, open: string, close: string)
    requires open != "" && !IsWhitespace(open[0]) && close != ""
    requires SplitLeadingBlock(text, open, close).Some?
    ensures SplitLeadingBlock(text, open, close).value == OneShot(text, open, close)
       <==> open <= TrimStart(text)
  {
    if open <= TrimStart(text) {
      SplitOfLeadingBlock(text, TrimStart(text), open, close);
    } else {
      SplitDropsText(text, open, close);
    }
  }

  ghost predicate IsNoneOr(x: Option<(string, string)>, y: (string, string)) {
    x == None || x == Some(y)
  }

  lemma SplitOfLeadingBlock(text: string, t: string, open: string, close: string)
    requires open != "" && !IsWhitespace(open[0]) && close != ""
    requires t == TrimStart(text) && open <= t
    ensures IsNoneOr(SplitLeadingBlock(text, open, close), OneShotTrimmed(text, t, open, close))
  {
    assert Find(text, open) == Some(|text| - |t|) by {
      OpenTagPosition(text, open);
    }
    SplitOfBlockAt(text, t, open, close);
  }

  lemma SplitOfBlockAt(text: string, t: string, open: string, close: string)
    requires |t| <= |text| && t == text[|text| - |t|..] && open <= t && close != ""
    requires Find(text, open) == Some(|text| - |t|)
    ensures IsNoneOr(SplitLeadingBlock(text, open, close), OneShotTrimmed(text, t, open, close))
  {
    var body := t[|open|..];
    assert text[|text| - |t| + |open|..] == body;
  }

  lemma SplitDropsText(text: string, open: string, close: string)
    requires open != "" && SplitLeadingBlock(text, open, close).Some?
    ensures |SplitLeadingBlock(text, open, close).value.1| < |text|
  {
  }

  /** What one delta does to the mode and the held text, and what it hands out. */
  function Step(mode: Mode, held: string, delta: string, open: string, close: string): Progress {
    match mode
    case Answer => Progress(Answer, held, "", delta)
    case Detecting => ProgressAfter(held + delta, open, close)
    case Reasoning => BodyProgress(held + delta, close)
  }

  /** The increments of `step` handed out after those of `before`. */
  function Then(before: Progress, step: Progress): Progress {
    Progress(step.mode, step.held, before.reasoning + step.reasoning, before.answer + step.answer)
  }

  lemma ThenFromEmpty(before: Progress, step: Progress)
    ensures before.reasoning == "" ==> Then(before, step).reasoning == step.reasoning
    ensures before.answer == "" ==> Then(before, step).answer == step.answer
    ensures step.reasoning == "" ==> Then(before, step).reasoning == before.reasoning
  {
  }

  /** Feeding one more delta keeps the progress a function of the text seen so far. */
  lemma StepAdvances(seen: string, delta: string, open: string, close: string)
    ensures
      var before := ProgressAfter(seen, open, close);
      ProgressAfter(seen + delta, open, close) == Then(before, Step(before.mode, before.held, delta, open, close))
  {
    var before := ProgressAfter(seen, open, close);
    ThenFromEmpty(before, Step(before.mode, before.held, delta, open, close));
    ProgressShape(seen, open, close);
    if before.mode.Reasoning? {
      ReasoningStep(seen, delta, open, close);
    } else if before.mode.Answer? {
      AnswerStep(seen, delta, open, close);
    }
  }

  lemma ProgressShape(seen: string, open: string, close: string)
    ensures var p := ProgressAfter(seen, open, close);
      match p.mode
      case Detecting => p.held == seen && p.reasoning == "" && p.answer == ""
      case Reasoning => p.answer == ""
      case Answer => p.held == ""
  {
  }

  lemma FlushedThen(p: Progress)
    ensures var f := Flushed(Progress(p.mode, p.held, "", ""));
      Flushed(p) == (p.reasoning + f.0, p.answer + f.1)
  {
    assert p.reasoning + "" == p.reasoning && p.answer + "" == p.answer && "" + p.held == p.held;
  }

  // ---------- the separator ----------

  class InlineThinkState {
    const open: string
    const close: string
    var mode: Mode
    var buffer: string

    constructor ()
      ensures open == THINK_OPEN && close == THINK_CLOSE
      ensures mode == Detecting && buffer == ""
    {
      open, close := THINK_OPEN, THINK_CLOSE;
      mode, buffer := Detecting, "";
    }

    /** One content delta; returns the reasoning and answer increments that are safe to send. */
    method Feed(delta: string) returns (r: seq<string>, t: seq<string>)
      requires open != "" && !IsWhitespace(open[0])
      modifies this`mode, this`buffer
      ensures Progress(mode, buffer, Concat(r), Concat(t)) == Step(old(mode), old(buffer), delta, open, close)
    {
      match mode {
        case Answer =>
          r, t := [], [delta];
          ConcatOne(delta);
        case Detecting =>
          buffer := buffer + delta;
          ConcatOne(buffer);
          match LeadingPrefixDecision(buffer, open) {
            case NeedMore =>
              r, t := [], [];
            case IsReasoning =>
              mode := Reasoning;
              StripOpenTag();
              r, t := EmitReasoning();
            case IsText =>
              mode := Answer;
              r, t := [], [buffer];
              buffer := "";
          }
        case Reasoning =>
          buffer := buffer + delta;
          r, t := EmitReasoning();
      }
    }

    /** Stream boundary: what is held goes where the mode says, and everything after is answer. */
    method Flush() returns (r: seq<string>, t: seq<string>)
      modifies this`mode, this`buffer
      ensures mode == Answer
      ensures (Concat(r), Concat(t)) == Flushed(Progress(old(mode), old(buffer), "", ""))
    {
      ConcatOne(buffer);
      assert "" + buffer == buffer;
      match mode {
        case Answer =>
          r, t := [], [];
        case Detecting =>
          mode := Answer;
          r, t := [], if buffer == "" then [] else [buffer];
          buffer := "";
        case Reasoning =>
          r, t := if buffer == "" then [] else [buffer], [];
          buffer, mode := "", Answer;
      }
    }

    /** Hands out the reasoning that can no longer be part of a closing tag; at a closing tag
        hands out the rest of the reasoning and the answer behind it. */
    method EmitReasoning() returns (r: seq<string>, t: seq<string>)
      requires mode.Reasoning?
      modifies this`mode, this`buffer
      ensures Progress(mode, buffer, Concat(r), Concat(t)) == BodyProgress(old(buffer), close)
    {
      match Find(buffer, close) {
        case Some(end) =>
          var head := buffer[..end];
          var rest := buffer[end + |close|..];
          buffer, mode := "", Answer;
          r := if head == "" then [] else [head];
          t := if rest == "" then [] else [rest];
        case None =>
          var hold := PartialSuffixLen(buffer, close);
          if |buffer| == hold {
            return [], [];
          }
          var emit := |buffer| - hold;
          r, t := [buffer[..emit]], [];
          buffer := buffer[emit..];
      }
    }

    method StripOpenTag()
      requires open != "" && !IsWhitespace(open[0])
      requires open <= TrimStart(buffer)
      modifies this`buffer
      ensures buffer == TrimStart(old(buffer))[|open|..]
    {
      OpenTagPosition(buffer, open);
      match Find(buffer, open) {
        case Some(pos) => buffer := buffer[pos + |open|..];
        case None =>
      }
    }
  }

  /** Chunk invariance: whatever the chunks, what is held and handed out is a function of their
      concatenation. */
  method FeedAll(state: InlineThinkState, chunks: seq<string>) returns (reasoning: string, answer: string)
    requires state.mode == Detecting && state.buffer == ""
    requires state.open != "" && !IsWhitespace(state.open[0])
    modifies state
    ensures Progress(state.mode, state.buffer, reasoning, answer)
         == ProgressAfter(Concat(chunks), state.open, state.close)
  {
    reasoning, answer := "", "";
    ghost var seen := "";
    for i := 0 to |chunks|
      invariant seen == Concat(chunks[..i])
      invariant Progress(state.mode, state.buffer, reasoning, answer) == ProgressAfter(seen, state.open, state.close)
    {
      StepAdvances(seen, chunks[i], state.open, state.close);
      var r, t := state.Feed(chunks[i]);
      reasoning, answer := reasoning + Concat(r), answer + Concat(t);
      seen := seen + chunks[i];
      ConcatTake(chunks, i);
    }
    assert chunks[..|chunks|] == chunks;
  }

  /** Hence feeding the chunks of a text and flushing gives the one-shot split of the text. */
  method SplitStream(chunks: seq<string>) returns (reasoning: string, answer: string)
    ensures (reasoning, answer) == OneShot(Concat(chunks), THINK_OPEN, THINK_CLOSE)
  {
    var state := new InlineThinkState();
    reasoning, answer := FeedAll(state, chunks);
    FlushCompletes(Concat(chunks), state.open, state.close);
    FlushedThen(Progress(state.mode, state.buffer, reasoning, answer));
    var r, t := state.Flush();
    reasoning, answer := reasoning + Concat(r), answer + Concat(t);
  }
}
