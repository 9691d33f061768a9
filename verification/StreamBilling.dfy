/** The life of a proxied stream as far as billing is concerned: `wrap_stream`, its tail and
`BillingOnDrop` (src/service/proxy.rs).

The `recorded` flag is swapped before `usage::record` is called.  A call made while a chunk or
the end of the stream is processed is awaited by the stream itself; a call made on drop runs in
a task of its own.  So a stream that is dropped while it awaits its own call cancels it. */
module StreamBilling {
  import opened Text
  import opened Sse
  import opened UsageCapture

  datatype State = State(
    buf: string, captured: Option<Usage>, recorded: bool,
    ended: bool, dropped: bool,
    /** `usage::record` calls made, in order, and those that ran to completion. */
    calls: seq<Option<Usage>>, commits: seq<Option<Usage>>,
    /** the stream awaits the last call */
    awaiting: bool)

  const INIT := State("", None, false, false, false, [], [], false)

  datatype Action = Chunk(bytes: string) | Fault | Eof | RecordDone | Drop

  /** A call made and awaited by the stream. */
  function CallInline(s: State): State {
    s.(recorded := true, calls := s.calls + [s.captured], captured := None, awaiting := true)
  }

  function ScanChunk(dec: Decoder, capture: bool, s: State, bytes: string): (State, bool) {
    if capture then
      var fed := Feed(dec, s.buf, bytes);
      (s.(buf := fed.buf, captured := MergeInto(s.captured, fed.usage)), fed.done)
    else (s, false)
  }

  function Step(dec: Decoder, capture: bool, s: State, a: Action): State {
    match a
    case Chunk(bytes) =>
      var (t, done) := ScanChunk(dec, capture, s, bytes);
      if done && !t.recorded then CallInline(t) else t
    case Fault => s
    case Eof =>
      var (t, _) := ScanChunk(dec, capture, s.(ended := true), LFLF);
      if !t.recorded then CallInline(t) else t
    case RecordDone =>
      s.(awaiting := false, commits := s.commits + (if s.calls == [] then [] else [s.calls[|s.calls| - 1]]))
    case Drop =>
      if s.recorded then s.(dropped := true, awaiting := false)
      else s.(dropped := true, recorded := true, calls := s.calls + [s.captured],
              commits := s.commits + [s.captured], captured := None)
  }

  /** The stream is polled only while it is alive and not awaiting a call. */
  predicate Enabled(s: State, a: Action) {
    && !s.dropped
    && match a
       case Chunk(_) => !s.awaiting && !s.ended
       case Fault => !s.awaiting && !s.ended
       case Eof => !s.awaiting && !s.ended
       case RecordDone => s.awaiting
       case Drop => true
  }

  function Run(dec: Decoder, capture: bool, actions: seq<Action>): State {
    if actions == [] then INIT
    else Step(dec, capture, Run(dec, capture, actions[..|actions| - 1]), actions[|actions| - 1])
  }

  ghost predicate Legal(dec: Decoder, capture: bool, actions: seq<Action>) {
    actions == [] ||
    (var n := |actions| - 1;
     Legal(dec, capture, actions[..n]) && Enabled(Run(dec, capture, actions[..n]), actions[n]))
  }

  /** The bytes that arrived during a run. */
  function Seen(actions: seq<Action>): string {
    if actions == [] then ""
    else
      var n := |actions| - 1;
      Seen(actions[..n]) + (if actions[n].Chunk? then actions[n].bytes else "")
  }

  /** The run cancelled its own record call: it was dropped while awaiting it. */
  function Cancelled(dec: Decoder, capture: bool, actions: seq<Action>): bool {
    actions != [] &&
    (var n := |actions| - 1;
     actions[n].Drop? && Run(dec, capture, actions[..n]).awaiting)
  }

  // ---------- exactly once ----------

  /** Over every run: the flag is set exactly when the one call was made, a dropped or ended
      stream has made it, and every call but a cancelled or still awaited one has completed. */
  lemma {:induction false} BilledExactlyOnce(dec: Decoder, capture: bool, actions: seq<Action>)
    requires Legal(dec, capture, actions)
    ensures
      var s := Run(dec, capture, actions);
      && |s.calls| == (if s.recorded then 1 else 0)
      && (s.dropped || s.ended ==> s.recorded)
      && (s.awaiting ==> s.recorded && !s.dropped)
      && s.commits == (if s.awaiting || Cancelled(dec, capture, actions) then [] else s.calls)
      && (Cancelled(dec, capture, actions) ==> s.dropped)
  {
    if actions != [] {
      var n := |actions| - 1;
      BilledExactlyOnce(dec, capture, actions[..n]);
      var before := Run(dec, capture, actions[..n]);
      assert !Cancelled(dec, capture, actions[..n]);
      OneStep(dec, capture, before, actions[n]);
    }
  }

  lemma OneStep(dec: Decoder, capture: bool, s: State, a: Action)
    requires Enabled(s, a)
    requires |s.calls| == (if s.recorded then 1 else 0)
    requires s.ended ==> s.recorded
    requires s.awaiting ==> s.recorded
    requires s.commits == (if s.awaiting then [] else s.calls)
    ensures
      var t := Step(dec, capture, s, a);
      && |t.calls| == (if t.recorded then 1 else 0)
      && (t.dropped || t.ended ==> t.recorded)
      && (t.awaiting ==> t.recorded && !t.dropped)
      && t.commits == (if t.awaiting || (a.Drop? && s.awaiting) then [] else t.calls)
  {
    if a.RecordDone? {
      assert s.calls == [s.calls[0]];
    }
  }

  /** A stream whose run ends by a drop has been billed to completion if and only if the drop did
      not cancel the call. */
  lemma CommittedIffNotCancelled(dec: Decoder, capture: bool, actions: seq<Action>)
    requires Legal(dec, capture, actions) && Run(dec, capture, actions).dropped
    ensures |Run(dec, capture, actions).calls| == 1
    ensures |Run(dec, capture, actions).commits| == 1 <==> !Cancelled(dec, capture, actions)
  {
    BilledExactlyOnce(dec, capture, actions);
  }

  /** The shortest such run: the stream ends, and the client leaves while the record is written. */
  lemma LostBill(dec: Decoder, capture: bool)
    ensures Legal(dec, capture, [Eof, Drop]) && Cancelled(dec, capture, [Eof, Drop])
    ensures |Run(dec, capture, [Eof, Drop]).calls| == 1 && Run(dec, capture, [Eof, Drop]).commits == []
  {
    var run: seq<Action> := [Eof, Drop];
    assert run[..1] == [Eof] && [Eof][..0] == [];
    assert Run(dec, capture, []) == INIT;
    assert Run(dec, capture, run[..1]) == Step(dec, capture, INIT, Eof);
    assert Legal(dec, capture, []);
    assert Legal(dec, capture, run[..1]);
  }

  // ---------- what is billed ----------

  /** The end of the stream forces out an event without its blank line. */
  function FlushEvents(s: string): seq<string> {
    Drain(Drain(s).rest + LFLF).events
  }

  /** The merge of all usage frames up to and including the first terminal event, or of all
      frames when there is none.  Chunks do not occur in it. */
  function Bill(dec: Decoder, s: string): Option<Usage> {
    MergeAll(None, Frames(dec, UpToTerminal(dec, Drain(s).events + FlushEvents(s))))
  }

  /** The merge of the usage frames of the complete events. */
  function PartialBill(dec: Decoder, s: string): Option<Usage> {
    MergeAll(None, Frames(dec, Drain(s).events))
  }

  /** No prefix of the stream leaves an incomplete event beyond the cap. */
  ghost predicate Capped(s: string) {
    forall n :: 0 <= n <= |s| ==> |Drain(s[..n]).rest| <= MAX_PENDING
  }

  ghost predicate HasEnd(dec: Decoder, s: string) {
    HasTerminal(dec, Drain(s).events)
  }

  /** The scanner reads the events of its buffer up to the first terminal one. */
  lemma {:induction false} FeedEventsScans(dec: Decoder, buf: string, usage: Option<Usage>)
    ensures
      var fed := FeedEvents(dec, buf, usage);
      var events := Drain(buf).events;
      && fed.done == HasTerminal(dec, events)
      && fed.usage == MergeAll(usage, Frames(dec, UpToTerminal(dec, events)))
      && (!fed.done ==> fed.buf == Drain(buf).rest)
    decreases |buf|
  {
    match FindEventEnd(buf)
    case None =>
    case Some(q) =>
      var head, tail := buf[..q], Drain(buf[q..]).events;
      var facts := ReadEvent(dec, head);
      assert ([head] + tail)[1..] == tail;
      if facts.terminal {
        FramesOne(dec, head);
      } else {
        FeedEventsScans(dec, buf[q..], MergeAll(usage, facts.frames));
        FramesCons(dec, head, UpToTerminal(dec, tail));
        MergeAllAppend(usage, facts.frames, Frames(dec, UpToTerminal(dec, tail)));
      }
  }

  lemma FramesCons(dec: Decoder, head: string, tail: seq<string>)
    ensures Frames(dec, [head] + tail) == ReadEvent(dec, head).frames + Frames(dec, tail)
  {
    assert ([head] + tail)[1..] == tail;
  }

  lemma FramesOne(dec: Decoder, head: string)
    ensures Frames(dec, [head]) == ReadEvent(dec, head).frames
  {
    assert [head] == [head] + [];
    FramesCons(dec, head, []);
  }

  /** A bill that was due at a terminal event stays the bill of the longer stream. */
  lemma BillIsFinal(dec: Decoder, s: string, c: string)
    requires Uniform(s + c) && HasEnd(dec, s)
    ensures HasEnd(dec, s + c) && Bill(dec, s + c) == Bill(dec, s)
  {
    DrainAppend(s, c);
    var early := Drain(s).events;
    var late := Drain(Drain(s).rest + c).events;
    UpToTerminalStable(dec, early, late);
    UpToTerminalStable(dec, early, FlushEvents(s));
    UpToTerminalStable(dec, early + late, FlushEvents(s + c));
  }

  // ---------- the bill of every run ----------

  /** The scanner's buffer is cleared beyond the cap. */
  function Kept(rest: string): string {
    if |rest| > MAX_PENDING then "" else rest
  }

  /** One more text for the framing of a run. */
  function FrameMore(before: Framed, text: string): Framed {
    var now := Drain(before.rest + text);
    Framed(before.events + now.events, Kept(now.rest))
  }

  /** The events of a run as its chunks, and its end, frame them. */
  function FramedBy(actions: seq<Action>): Framed {
    if actions == [] then Framed([], "")
    else
      var n := |actions| - 1;
      var before := FramedBy(actions[..n]);
      match actions[n]
      case Chunk(bytes) => FrameMore(before, bytes)
      case Eof => FrameMore(before, LFLF)
      case _ => before
  }

  /** What is held and what was billed, in terms of those events. */
  ghost predicate Settled(dec: Decoder, t: State, framed: Framed) {
    if !t.recorded then
      && !t.ended && t.buf == framed.rest && !HasTerminal(dec, framed.events)
      && t.captured == MergeAll(None, Frames(dec, framed.events))
    else
      && |t.calls| == 1
      && t.calls[0] == MergeAll(None, Frames(dec, UpToTerminal(dec, framed.events)))
      && (t.ended || t.dropped || HasTerminal(dec, framed.events))
  }

  /** Scanning one more text, before anything was billed. */
  lemma TextScans(dec: Decoder, before: Framed, captured: Option<Usage>, text: string)
    requires captured == MergeAll(None, Frames(dec, before.events)) && !HasTerminal(dec, before.events)
    ensures
      var fed := Feed(dec, before.rest, text);
      var after := FrameMore(before, text);
      && fed.done == HasTerminal(dec, after.events)
      && MergeInto(captured, fed.usage) == MergeAll(None, Frames(dec, UpToTerminal(dec, after.events)))
      && (!fed.done ==> fed.buf == after.rest && UpToTerminal(dec, after.events) == after.events)
  {
    var late := Drain(before.rest + text).events;
    FeedEventsScans(dec, before.rest + text, None);
    UpToTerminalSkip(dec, before.events, late);
    MergeScanned(dec, before.events, UpToTerminal(dec, late));
    if !HasTerminal(dec, late) {
      UpToTerminalSkip(dec, late, []);
      assert late + [] == late;
    }
  }

  /** Merging a text's usage into the captured one is merging all frames. */
  lemma MergeScanned(dec: Decoder, early: seq<string>, late: seq<string>)
    ensures MergeInto(MergeAll(None, Frames(dec, early)), MergeAll(None, Frames(dec, late)))
         == MergeAll(None, Frames(dec, early + late))
  {
    FramesAppend(dec, early, late);
    MergeAllAppend(None, Frames(dec, early), Frames(dec, late));
    MergeChunk(MergeAll(None, Frames(dec, early)), None, Frames(dec, late));
  }

  lemma TextSettles(dec: Decoder, t: State, framed: Framed, a: Action, text: string)
    requires Settled(dec, t, framed) && Enabled(t, a) && |t.calls| == (if t.recorded then 1 else 0)
    requires a == Chunk(text) || (a == Eof && text == LFLF)
    ensures Settled(dec, Step(dec, true, t, a), FrameMore(framed, text))
  {
    if t.recorded {
      UpToTerminalStable(dec, framed.events, Drain(framed.rest + text).events);
    } else {
      TextScans(dec, framed, t.captured, text);
    }
  }

  /** A drop bills what was captured so far. */
  lemma DropSettles(dec: Decoder, t: State, framed: Framed)
    requires Settled(dec, t, framed) && Enabled(t, Drop) && |t.calls| == (if t.recorded then 1 else 0)
    ensures Settled(dec, Step(dec, true, t, Drop), framed)
  {
    if !t.recorded {
      UpToTerminalSkip(dec, framed.events, []);
      assert framed.events + [] == framed.events;
    }
  }

  /** Over every run of chunks, faults, end, completed calls and drop, whatever the line endings and
      sizes: the one bill is the merge of the usage frames of the run's events up to and including
      the first terminal one. */
  lemma {:induction false} BillFollowsFraming(dec: Decoder, actions: seq<Action>)
    requires Legal(dec, true, actions)
    ensures Settled(dec, Run(dec, true, actions), FramedBy(actions))
  {
    if actions != [] {
      var n := |actions| - 1;
      var init, a := actions[..n], actions[n];
      BillFollowsFraming(dec, init);
      BilledExactlyOnce(dec, true, init);
      var before := Run(dec, true, init);
      match a
      case Chunk(c) => TextSettles(dec, before, FramedBy(init), a, c);
      case Eof => TextSettles(dec, before, FramedBy(init), a, LFLF);
      case Drop => DropSettles(dec, before, FramedBy(init));
      case _ =>
    }
  }

  // ---------- independence of the chunks ----------

  /** What has been scanned and billed, as a function of the bytes seen. */
  ghost predicate Accounted(dec: Decoder, t: State, s: string) {
    if !t.recorded then
      !t.ended && t.buf == Drain(s).rest && t.captured == PartialBill(dec, s) && !HasEnd(dec, s)
    else
      && |t.calls| == 1
      && (t.ended || HasEnd(dec, s) ==> t.calls[0] == Bill(dec, s))
      && (!t.ended && !HasEnd(dec, s) ==> t.dropped && t.calls[0] == PartialBill(dec, s))
  }

  /** The framing of a uniform stream within the cap is that of its bytes. */
  lemma {:induction false} FramedIsDrained(dec: Decoder, actions: seq<Action>)
    requires Legal(dec, true, actions) && Uniform(Seen(actions)) && Capped(Seen(actions))
    ensures
      var s := Seen(actions);
      if Run(dec, true, actions).ended then FramedBy(actions).events == Drain(s).events + FlushEvents(s)
      else FramedBy(actions) == Drain(s)
  {
    if actions == [] {
      assert Drain("") == Framed([], "");
    } else {
      var n := |actions| - 1;
      var init, a := actions[..n], actions[n];
      var s, whole := Seen(init), Seen(actions);
      assert s <= whole;
      PrefixFits(s, whole);
      FramedIsDrained(dec, init);
      assert s + "" == s;
      if a.Chunk? {
        assert whole[..|whole|] == whole;
        DrainAppend(s, a.bytes);
      }
    }
  }

  lemma PrefixFits(s: string, whole: string)
    requires s <= whole && Uniform(whole) && Capped(whole)
    ensures Uniform(s) && Capped(s)
  {
    assert whole == "" + s + whole[|s|..];
    UniformSub("", s, whole[|s|..]);
    forall n | 0 <= n <= |s| ensures |Drain(s[..n]).rest| <= MAX_PENDING {
      assert s[..n] == whole[..n];
    }
  }

  /** Chunk invariance of billing: over every run, what is held and what was billed is a function of
      the bytes seen, for streams that are uniform and within the cap. */
  lemma BillingIsChunkInvariant(dec: Decoder, actions: seq<Action>)
    requires Legal(dec, true, actions)
    requires Uniform(Seen(actions)) && Capped(Seen(actions))
    ensures Accounted(dec, Run(dec, true, actions), Seen(actions))
  {
    BillFollowsFraming(dec, actions);
    FramedIsDrained(dec, actions);
    BillOfEvents(dec, Seen(actions));
  }

  /** The bill of the bytes in terms of their complete events. */
  lemma BillOfEvents(dec: Decoder, s: string)
    ensures HasEnd(dec, s) ==> Bill(dec, s) == MergeAll(None, Frames(dec, UpToTerminal(dec, Drain(s).events)))
    ensures !HasEnd(dec, s) ==> UpToTerminal(dec, Drain(s).events) == Drain(s).events
  {
    if HasEnd(dec, s) {
      UpToTerminalStable(dec, Drain(s).events, FlushEvents(s));
    } else {
      UpToTerminalSkip(dec, Drain(s).events, []);
      assert Drain(s).events + [] == Drain(s).events;
    }
  }

  /** So a stream that reached its end was billed once, with the bill of its bytes. */
  lemma EndedBill(dec: Decoder, actions: seq<Action>)
    requires Legal(dec, true, actions) && Run(dec, true, actions).ended
    requires Uniform(Seen(actions)) && Capped(Seen(actions))
    ensures Run(dec, true, actions).calls == [Bill(dec, Seen(actions))]
  {
    BillingIsChunkInvariant(dec, actions);
    BilledExactlyOnce(dec, true, actions);
  }

  /** A stream that is not captured (a non-2xx answer) is billed without usage. */
  lemma {:induction false} NotCaptured(dec: Decoder, actions: seq<Action>)
    requires Legal(dec, false, actions)
    ensures Run(dec, false, actions).captured.None?
    ensures forall i :: 0 <= i < |Run(dec, false, actions).calls| ==> Run(dec, false, actions).calls[i].None?
  {
    if actions != [] {
      NotCaptured(dec, actions[..|actions| - 1]);
    }
  }

  // ---------- the stream object ----------

  class BillingStream {
    const dec: Decoder
    const capture: bool
    var buf: string
    var captured: Option<Usage>
    var recorded: bool
    var ended: bool
    var dropped: bool
    var calls: seq<Option<Usage>>
    var commits: seq<Option<Usage>>
    var awaiting: bool

    function View(): State
      reads this
    {
      State(buf, captured, recorded, ended, dropped, calls, commits, awaiting)
    }

    constructor (dec: Decoder, capture: bool)
      ensures View() == INIT && this.dec == dec && this.capture == capture
    {
      this.dec, this.capture := dec, capture;
      buf, captured, recorded := "", None, false;
      ended, dropped, calls, commits, awaiting := false, false, [], [], false;
    }

    /** The stream starts a record call and waits for it. */
    method CallAndAwait()
      requires !recorded
      modifies this
      ensures View() == CallInline(old(View()))
    {
      recorded := true;
      calls := calls + [captured];
      captured := None;
      awaiting := true;
    }

    /** A chunk passes: it is handed on unchanged. */
    method OnChunk(bytes: string) returns (out: string)
      requires Enabled(View(), Chunk(bytes))
      modifies this
      ensures View() == Step(dec, capture, old(View()), Chunk(bytes))
      ensures out == bytes
    {
      var done := false;
      if capture {
        var rest, usage, d := FeedSse(dec, buf, bytes);
        buf, done := rest, d;
        if usage.Some? {
          captured := Some(MergeUsage(captured, usage.value));
        }
      }
      if done && !recorded {
        CallAndAwait();
      }
      out := bytes;
    }

    /** The upstream ended: flush, and bill if nothing was billed. */
    method OnEof()
      requires Enabled(View(), Eof)
      modifies this
      ensures View() == Step(dec, capture, old(View()), Eof)
    {
      ended := true;
      if capture {
        var rest, usage, _ := FeedSse(dec, buf, LFLF);
        buf := rest;
        if usage.Some? {
          captured := Some(MergeUsage(captured, usage.value));
        }
      }
      if !recorded {
        CallAndAwait();
      }
    }

    method OnRecordDone()
      requires Enabled(View(), RecordDone) && calls != []
      modifies this
      ensures View() == Step(dec, capture, old(View()), RecordDone)
    {
      awaiting := false;
      commits := commits + [calls[|calls| - 1]];
    }

    /** `BillingOnDrop`. */
    method OnDrop()
      requires Enabled(View(), Drop)
      modifies this
      ensures View() == Step(dec, capture, old(View()), Drop)
    {
      dropped := true;
      if !recorded {
        recorded := true;
        calls := calls + [captured];
        commits := commits + [captured];
        captured := None;
      } else {
        awaiting := false;
      }
    }
  }
}
