/** A uniform stream with an event beyond the buffer's cap, whose bill depends on where it is cut: why
chunk invariance of billing asks for events within the cap. */
module CapExample {
  import opened Text
  import opened Json
  import opened Sse
  import opened PlainEvents
  import opened UsageCapture
  import opened StreamBilling
  import opened BillingExample

  /** A line with usage, longer than the cap. */
  ghost predicate HugeUsage(dec: Decoder, y: string, u: Usage) {
    IsPlain(y) && MayCarry(y) && |y| > MAX_PENDING && ReadLine(dec, y) == LineFacts([u], false)
  }

  lemma BlankEvent(dec: Decoder)
    ensures Drain(LFLF) == Framed([LFLF], "") && ReadEvent(dec, LFLF) == LineFacts([], false)
  {
    PlainEvent("", "");
    NothingToDrain();
    assert "" + LFLF + "" == LFLF && "" + LFLF == LFLF;
    assert [LFLF] + [] == [LFLF];
    ReadBlank(dec, "");
  }

  lemma HugeEvent(dec: Decoder, y: string, u: Usage)
    requires HugeUsage(dec, y, u)
    ensures Drain(y + LFLF) == Framed([y + LFLF], "") && ReadEvent(dec, y + LFLF) == LineFacts([u], false)
  {
    PlainEvent(y, "");
    NothingToDrain();
    assert y + LFLF + "" == y + LFLF;
    assert [y + LFLF] + [] == [y + LFLF];
    ReadBlank(dec, y);
    PrefixCarries(y, LFLF);
    ReadThrough(dec, y + LFLF, [y, ""]);
  }

  /** Events without a terminal one are all billed. */
  lemma BillOfTwo(dec: Decoder, first: string, second: string)
    requires !IsTerminal(dec, first) && !IsTerminal(dec, second)
    ensures UpToTerminal(dec, [first, second]) == [first, second]
    ensures Frames(dec, [first, second]) == ReadEvent(dec, first).frames + ReadEvent(dec, second).frames
  {
    SkipOne(dec, second, []);
    SkipOne(dec, first, [second]);
    FramesOne(dec, second);
    FramesCons(dec, first, [second]);
    assert [first] + [second] == [first, second] && [second] + [] == [second];
  }

  lemma OneChunk(dec: Decoder, bytes: string)
    ensures Legal(dec, true, [Chunk(bytes)]) && FramedBy([Chunk(bytes)]) == FrameMore(Framed([], ""), bytes)
    ensures !Run(dec, true, [Chunk(bytes)]).ended && !Run(dec, true, [Chunk(bytes)]).dropped
    ensures !HasTerminal(dec, Drain(bytes).events) ==> !Run(dec, true, [Chunk(bytes)]).awaiting
  {
    var actions := [Chunk(bytes)];
    assert actions[..0] == [];
    assert Run(dec, true, []) == INIT && Legal(dec, true, []);
    assert "" + bytes == bytes;
    FeedEventsScans(dec, bytes, None);
  }

  /** The end may come whenever the stream is polled. */
  lemma EofAfter(dec: Decoder, actions: seq<Action>)
    requires Legal(dec, true, actions) && Enabled(Run(dec, true, actions), Eof)
    ensures Legal(dec, true, actions + [Eof]) && Run(dec, true, actions + [Eof]).ended
    ensures FramedBy(actions + [Eof]) == FrameMore(FramedBy(actions), LFLF)
  {
    assert (actions + [Eof])[..|actions|] == actions;
  }

  lemma FrameOne(events: seq<string>, e: string)
    requires Drain(e) == Framed([e], "")
    ensures FrameMore(Framed(events, ""), e) == Framed(events + [e], "")
  {
    assert "" + e == e;
  }

  /** A complete event in one chunk, and then the end. */
  lemma ThenEnd(dec: Decoder, e: string)
    requires Drain(e) == Framed([e], "") && !HasTerminal(dec, [e])
    ensures
      var actions := [Chunk(e), Eof];
      Legal(dec, true, actions) && FramedBy(actions).events == [e, LFLF] && Run(dec, true, actions).ended
  {
    BlankEvent(dec);
    OneChunk(dec, e);
    FrameOne([], e);
    FrameOne([] + [e], LFLF);
    EofAfter(dec, [Chunk(e)]);
    assert [Chunk(e)] + [Eof] == [Chunk(e), Eof];
    assert [] + [e] + [LFLF] == [e, LFLF];
  }

  lemma WholeHuge(dec: Decoder, y: string, u: Usage)
    requires HugeUsage(dec, y, u)
    ensures
      var actions := [Chunk(y + LFLF), Eof];
      Legal(dec, true, actions) && FramedBy(actions).events == [y + LFLF, LFLF] && Run(dec, true, actions).ended
  {
    HugeEvent(dec, y, u);
    assert [y + LFLF][1..] == [];
    ThenEnd(dec, y + LFLF);
  }

  lemma CutHuge(dec: Decoder, y: string, u: Usage)
    requires HugeUsage(dec, y, u)
    ensures
      var actions := [Chunk(y), Chunk(LFLF), Eof];
      Legal(dec, true, actions) && FramedBy(actions).events == [LFLF, LFLF] && Run(dec, true, actions).ended
  {
    PlainRest(y);
    BlankEvent(dec);
    assert !HasTerminal(dec, [LFLF]);
    SecondChunk(dec, y, LFLF);
    EndAfterTwo(dec, y, LFLF);
  }

  lemma EndAfterTwo(dec: Decoder, y: string, e: string)
    requires Drain(y) == Framed([], y) && |y| > MAX_PENDING
    requires Drain(e) == Framed([e], "") && Drain(LFLF) == Framed([LFLF], "")
    requires
      var two := [Chunk(y), Chunk(e)];
      Legal(dec, true, two) && !Run(dec, true, two).awaiting && !Run(dec, true, two).ended && !Run(dec, true, two).dropped
    ensures
      var actions := [Chunk(y), Chunk(e), Eof];
      Legal(dec, true, actions) && FramedBy(actions).events == [e, LFLF] && Run(dec, true, actions).ended
  {
    TwoFrames(y, e);
    FrameOne([e], LFLF);
    EofAfter(dec, [Chunk(y), Chunk(e)]);
    assert [Chunk(y), Chunk(e)] + [Eof] == [Chunk(y), Chunk(e), Eof];
    assert [e] + [LFLF] == [e, LFLF];
  }

  lemma TwoFrames(y: string, e: string)
    requires Drain(y) == Framed([], y) && |y| > MAX_PENDING && Drain(e) == Framed([e], "")
    ensures FramedBy([Chunk(y), Chunk(e)]) == Framed([e], "")
  {
    var one, two := [Chunk(y)], [Chunk(y), Chunk(e)];
    assert two[..1] == one && one[..0] == [];
    assert "" + y == y && "" + e == e;
    var none: seq<string> := [];
    assert [] + none == none && [] + [e] == [e];
    assert FramedBy(one) == Framed([], "");
  }

  /** A chunk after a cleared buffer. */
  lemma SecondChunk(dec: Decoder, y: string, bytes: string)
    requires Drain(y) == Framed([], y) && |y| > MAX_PENDING && !HasTerminal(dec, Drain(bytes).events)
    ensures
      var two := [Chunk(y), Chunk(bytes)];
      Legal(dec, true, two) && !Run(dec, true, two).awaiting && !Run(dec, true, two).ended && !Run(dec, true, two).dropped
  {
    var one, two := [Chunk(y)], [Chunk(y), Chunk(bytes)];
    assert two[..1] == one;
    OneChunk(dec, y);
    BillFollowsFraming(dec, one);
    assert "" + y == y && "" + bytes == bytes;
    var none: seq<string> := [];
    assert [] + none == none;
    assert FramedBy(one) == Framed([], "");
    FeedEventsScans(dec, bytes, None);
  }

  lemma EndedBillOf(dec: Decoder, actions: seq<Action>, first: string, second: string)
    requires Legal(dec, true, actions) && Run(dec, true, actions).ended && FramedBy(actions).events == [first, second]
    requires !IsTerminal(dec, first) && !IsTerminal(dec, second)
    ensures Run(dec, true, actions).calls == [MergeAll(None, ReadEvent(dec, first).frames + ReadEvent(dec, second).frames)]
  {
    BillFollowsFraming(dec, actions);
    BilledExactlyOnce(dec, true, actions);
    BillOfTwo(dec, first, second);
  }

  lemma SameHugeBytes(a: string, b: string)
    ensures Seen([Chunk(a + b), Eof]) == a + b == Seen([Chunk(a), Chunk(b), Eof])
  {
    var whole: seq<Action>, cut: seq<Action> := [Chunk(a + b), Eof], [Chunk(a), Chunk(b), Eof];
    assert whole[..1] == [Chunk(a + b)] && cut[..2] == [Chunk(a), Chunk(b)] && cut[..2][..1] == [Chunk(a)];
    SeenOne(a + b);
    SeenOne(a);
    assert Seen(cut[..2]) == a + b;
    assert a + b + "" == a + b;
  }

  /** The same bytes, one bill with usage and one without: an event beyond the cap, in one chunk and
      cut before its end. */
  lemma CapChangesTheBill(dec: Decoder, y: string, u: Usage)
    requires HugeUsage(dec, y, u)
    ensures
      var whole: seq<Action> := [Chunk(y + LFLF), Eof];
      var cut: seq<Action> := [Chunk(y), Chunk(LFLF), Eof];
      && Legal(dec, true, whole) && Legal(dec, true, cut) && Seen(whole) == Seen(cut)
      && Run(dec, true, whole).calls == [Some(u)] && Run(dec, true, cut).calls == [None]
  {
    HugeEvent(dec, y, u);
    BlankEvent(dec);
    SameHugeBytes(y, LFLF);
    WholeHuge(dec, y, u);
    CutHuge(dec, y, u);
    EndedBillOf(dec, [Chunk(y + LFLF), Eof], y + LFLF, LFLF);
    EndedBillOf(dec, [Chunk(y), Chunk(LFLF), Eof], LFLF, LFLF);
    assert [u] + [] == [u];
    var none: seq<Usage> := [];
    assert none + none == none;
  }

  // ---------- there is such an event ----------

  function Spaces(n: nat): (s: string)
    ensures |s| == n && IsPlain(s)
  {
    if n == 0 then "" else " " + Spaces(n - 1)
  }

  lemma {:induction false} TrimSkipsSpaces(n: nat, text: string)
    ensures Trim(Spaces(n) + text) == Trim(text)
  {
    if n == 0 {
      assert "" + text == text;
    } else {
      assert (Spaces(n) + text)[1..] == Spaces(n - 1) + text;
      TrimSkipsSpaces(n - 1, text);
    }
  }

  lemma PaddedField(name: string, n: nat, text: string)
    ensures FieldOf(name + (Spaces(n) + text), name) == Some(Trim(text))
  {
    var y := name + (Spaces(n) + text);
    assert name <= y && y[|name|..] == Spaces(n) + text;
    TrimSkipsSpaces(n, text);
  }

  lemma PaddedMarker(name: string, n: nat)
    ensures MayCarry(name + (Spaces(n) + "usage"))
  {
    var y, i := name + (Spaces(n) + "usage"), |name| + n;
    assert y[i..i + |"usage"|] == "usage";
    assert OccursAt("usage", y, i);
  }

  lemma PlainPadded(name: string, n: nat, text: string)
    requires IsPlain(name) && IsPlain(text)
    ensures IsPlain(name + (Spaces(n) + text)) && |name + (Spaces(n) + text)| == |name| + n + |text|
  {
  }

  lemma PaddedIsHuge(dec: Decoder, name: string, n: nat)
    requires dec == Decoder(UsageOnly, (v: Json) => Some(SOME_USAGE)) && name == "data:" && n >= MAX_PENDING
    ensures HugeUsage(dec, name + (Spaces(n) + "usage"), SOME_USAGE)
  {
    PlainPadded(name, n, "usage");
    PaddedMarker(name, n);
    PaddedField(name, n, "usage");
    assert Trim("usage") == "usage";
    UsageOfUsageOnly(dec);
  }

  lemma SuchAnEvent() returns (dec: Decoder, y: string, u: Usage)
    ensures HugeUsage(dec, y, u)
  {
    dec, u := Decoder(UsageOnly, (v: Json) => Some(SOME_USAGE)), SOME_USAGE;
    y := "data:" + (Spaces(MAX_PENDING) + "usage");
    PaddedIsHuge(dec, "data:", MAX_PENDING);
  }
}
