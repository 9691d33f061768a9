/** A stream with mixed line endings whose bill depends on where it is cut: why chunk invariance of
billing asks for uniform endings. */
module BillingExample {
  import opened Text
  import opened SortedEntries
  import opened Json
  import opened Sse
  import opened PlainEvents
  import opened UsageCapture
  import opened StreamBilling

  // ---------- framing ----------

  /** Two LF in a row stand only at the end. */
  lemma OnlyLastBlank(x: string, y: string, j: int)
    requires IsPlain(x) && IsPlain(y) && y != "" && OccursAt(LFLF, x + CRLFCRLF + (y + LFLF), j)
    ensures j == |x| + 4 + |y|
  {
    var s, n := x + CRLFCRLF + (y + LFLF), |x| + 4;
    assert forall k :: 0 <= k < |x| ==> s[k] == x[k];
    assert s[|x|] == '\r' && s[|x| + 2] == '\r';
    assert forall k :: 0 <= k < |y| ==> s[n + k] == y[k];
    assert s[n] == y[0] != '\n';
    assert s[j] == s[j..j + 2][0] == '\n' && s[j + 1] == s[j..j + 2][1] == '\n';
  }

  lemma NoBlank(x: string, j: int)
    requires IsPlain(x)
    ensures !OccursAt(LFLF, x + CRLFCRLF, j)
  {
    var s := x + CRLFCRLF;
    if 0 <= j && j + 2 <= |s| {
      assert s[j..j + 2][0] == s[j] && s[j..j + 2][1] == s[j + 1];
    }
  }

  lemma FirstCr(x: string)
    requires IsPlain(x)
    ensures Find(x + CRLFCRLF, CRLFCRLF) == Some(|x|)
  {
    var s := x + CRLFCRLF;
    assert s[|x|..|x| + 4] == CRLFCRLF;
    forall j | 0 <= j < |x| ensures !OccursAt(CRLFCRLF, s, j) {
      assert s[j..j + 4][0] == x[j];
    }
    FindIs(s, CRLFCRLF, |x|);
  }

  lemma DrainStep(s: string, q: nat)
    requires FindEventEnd(s) == Some(q) && q <= |s|
    ensures Drain(s) == Framed([s[..q]] + Drain(s[q..]).events, Drain(s[q..]).rest)
  {
  }

  lemma WholeSlices(s: string, rest: Framed)
    requires rest == Framed([], "")
    ensures s[..|s|] == s && s[|s|..] == ""
    ensures Framed([s[..|s|]] + rest.events, rest.rest) == Framed([s], "")
  {
    assert [s] + [] == [s];
  }

  lemma WholeBuffer(s: string)
    requires FindEventEnd(s) == Some(|s|)
    ensures Drain(s) == Framed([s], "")
  {
    DrainStep(s, |s|);
    NothingToDrain();
    WholeSlices(s, Drain(""));
  }

  lemma CutFraming(x: string, y: string)
    requires IsPlain(x) && IsPlain(y)
    ensures Drain(x + CRLFCRLF) == Framed([x + CRLFCRLF], "")
    ensures Drain(y + LFLF) == Framed([y + LFLF], "")
  {
    forall j ensures !OccursAt(LFLF, x + CRLFCRLF, j) {
      NoBlank(x, j);
    }
    FirstCr(x);
    WholeBuffer(x + CRLFCRLF);
    PlainEvent(y, "");
    assert y + LFLF + "" == y + LFLF;
    NothingToDrain();
  }

  lemma WholeFraming(x: string, y: string)
    requires IsPlain(x) && IsPlain(y) && y != ""
    ensures var s := x + CRLFCRLF + (y + LFLF); Drain(s) == Framed([s], "")
  {
    var s := x + CRLFCRLF + (y + LFLF);
    var n := |x| + 4 + |y|;
    assert s[n..n + 2] == LFLF;
    forall j | 0 <= j < n ensures !OccursAt(LFLF, s, j) {
      if OccursAt(LFLF, s, j) {
        OnlyLastBlank(x, y, j);
      }
    }
    FindIs(s, LFLF, n);
    WholeBuffer(s);
  }

  // ---------- reading ----------

  lemma CrText(x: string, rest: string)
    ensures x + "\r" + "\n" + ("\r\n" + rest) == x + CRLFCRLF + rest
    ensures "\r" + "\n" + rest == "\r\n" + rest
    ensures StripCr(x + "\r") == x
  {
  }

  lemma CrLines(x: string, rest: string)
    requires IsPlain(x)
    ensures Lines(x + CRLFCRLF + rest) == [x, ""] + Lines(rest)
  {
    CrText(x, rest);
    CrText("", rest);
    assert "" + "\r" == "\r";
    NoLineFeed(x);
    FirstBreak(x + "\r", "\r\n" + rest);
    FirstBreak("\r", rest);
    assert [x] + ([""] + Lines(rest)) == [x, ""] + Lines(rest);
  }

  lemma NoLineFeed(x: string)
    requires IsPlain(x)
    ensures forall i :: 0 <= i < |x + "\r"| ==> (x + "\r")[i] != '\n'
  {
  }

  lemma ReadBlank(dec: Decoder, line: string)
    ensures ReadLines(dec, [line, ""]) == ReadLine(dec, line)
  {
    assert [line, ""][1..] == [""] && [""][1..] == [];
    assert ReadLine(dec, "") == LineFacts([], false);
    assert ReadLines(dec, [""]) == LineFacts([], false);
    assert ReadLine(dec, line).frames + [] == ReadLine(dec, line).frames;
  }

  lemma ReadTwo(dec: Decoder, x: string, y: string)
    ensures ReadLines(dec, [x, ""] + [y, ""]) ==
      LineFacts(ReadLine(dec, x).frames + ReadLine(dec, y).frames, ReadLine(dec, x).terminal || ReadLine(dec, y).terminal)
  {
    var lines := [x, ""] + [y, ""];
    assert lines[1..] == ["", y, ""] && lines[1..][1..] == [y, ""];
    ReadBlank(dec, y);
    assert ReadLine(dec, "") == LineFacts([], false);
    assert [] + ReadLine(dec, y).frames == ReadLine(dec, y).frames;
  }

  /** A terminal line, then a line with usage. */
  ghost predicate TerminalThenUsage(dec: Decoder, x: string, y: string, u: Usage) {
    && IsPlain(x) && IsPlain(y) && MayCarry(x)
    && ReadLine(dec, x) == LineFacts([], true) && ReadLine(dec, y) == LineFacts([u], false)
  }

  lemma PrefixCarries(x: string, rest: string)
    requires MayCarry(x)
    ensures MayCarry(x + rest)
  {
    assert (x + rest)[0..0 + |x|] == x;
    assert OccursAt(x, x + rest, 0);
    MarkerWithin(x, x + rest);
  }

  lemma ReadCut(dec: Decoder, x: string, y: string, u: Usage)
    requires TerminalThenUsage(dec, x, y, u)
    ensures ReadEvent(dec, x + CRLFCRLF) == LineFacts([], true)
  {
    CrLines(x, "");
    assert x + CRLFCRLF + "" == x + CRLFCRLF;
    assert [x, ""] + Lines("") == [x, ""];
    ReadBlank(dec, x);
    PrefixCarries(x, CRLFCRLF);
  }

  lemma ReadWhole(dec: Decoder, x: string, y: string, u: Usage)
    requires TerminalThenUsage(dec, x, y, u)
    ensures ReadEvent(dec, x + CRLFCRLF + (y + LFLF)) == LineFacts([u], true)
  {
    MixedLines(x, y);
    MixedCarries(x, y);
    ReadTwo(dec, x, y);
    ReadThrough(dec, x + CRLFCRLF + (y + LFLF), [x, ""] + [y, ""]);
    assert [] + [u] == [u];
  }

  lemma MixedLines(x: string, y: string)
    requires IsPlain(x) && IsPlain(y)
    ensures Lines(x + CRLFCRLF + (y + LFLF)) == [x, ""] + [y, ""]
  {
    CrLines(x, y + LFLF);
    PlainEvent(y, "");
  }

  lemma MixedCarries(x: string, y: string)
    requires MayCarry(x)
    ensures MayCarry(x + CRLFCRLF + (y + LFLF))
  {
    var rest := CRLFCRLF + (y + LFLF);
    assert x + CRLFCRLF + (y + LFLF) == x + rest;
    PrefixCarries(x, rest);
  }

  lemma ReadThrough(dec: Decoder, event: string, lines: seq<string>)
    requires MayCarry(event) && Lines(event) == lines
    ensures ReadEvent(dec, event) == ReadLines(dec, lines)
  {
  }

  // ---------- the two bills ----------

  lemma BillOfFirst(dec: Decoder, first: string, more: seq<string>)
    requires IsTerminal(dec, first)
    ensures HasTerminal(dec, [first] + more)
    ensures MergeAll(None, Frames(dec, UpToTerminal(dec, [first] + more))) == MergeAll(None, ReadEvent(dec, first).frames)
  {
    FramesOne(dec, first);
  }

  lemma RunOf(dec: Decoder, bytes: string)
    requires HasTerminal(dec, Drain(bytes).events)
    ensures Legal(dec, true, [Chunk(bytes)]) && Run(dec, true, [Chunk(bytes)]).awaiting
    ensures Run(dec, true, [Chunk(bytes)]).recorded
    ensures !Run(dec, true, [Chunk(bytes)]).dropped && !Run(dec, true, [Chunk(bytes)]).ended
    ensures FramedBy([Chunk(bytes)]) == FrameMore(Framed([], ""), bytes)
  {
    var actions := [Chunk(bytes)];
    assert actions[..0] == [];
    assert Run(dec, true, []) == INIT && Legal(dec, true, []);
    assert "" + bytes == bytes;
    FeedEventsScans(dec, bytes, None);
  }

  lemma BillOfRun(dec: Decoder, actions: seq<Action>, first: string, more: seq<string>)
    requires Legal(dec, true, actions) && FramedBy(actions).events == [first] + more && IsTerminal(dec, first)
    ensures Run(dec, true, actions).calls == [MergeAll(None, ReadEvent(dec, first).frames)]
  {
    BillFollowsFraming(dec, actions);
    BillOfFirst(dec, first, more);
    BilledExactlyOnce(dec, true, actions);
  }

  lemma WholeBill(dec: Decoder, x: string, y: string, u: Usage)
    requires TerminalThenUsage(dec, x, y, u)
    ensures
      var s := x + CRLFCRLF + (y + LFLF);
      Legal(dec, true, [Chunk(s)]) && Run(dec, true, [Chunk(s)]).calls == [Some(u)]
  {
    var s := x + CRLFCRLF + (y + LFLF);
    WholeFraming(x, y);
    ReadWhole(dec, x, y, u);
    BillOfFirst(dec, s, []);
    assert [s] + [] == [s];
    RunOf(dec, s);
    assert "" + s == s;
    assert [] + [s] == [s];
    BillOfRun(dec, [Chunk(s)], s, []);
  }

  lemma CutRun(dec: Decoder, a: string, b: string)
    requires Drain(a) == Framed([a], "") && Drain(b) == Framed([b], "") && IsTerminal(dec, a)
    ensures Legal(dec, true, [Chunk(a), RecordDone, Chunk(b)])
    ensures FramedBy([Chunk(a), RecordDone, Chunk(b)]).events == [a] + [b]
  {
    var one, two, three := [Chunk(a)], [Chunk(a), RecordDone], [Chunk(a), RecordDone, Chunk(b)];
    assert two[..1] == one && three[..2] == two;
    RunOf(dec, a);
    assert "" + a == a && "" + b == b && [] + [a] == [a];
    assert FramedBy(one) == Framed([a], "");
    assert Legal(dec, true, two);
    assert FramedBy(two) == FramedBy(one);
  }

  lemma CutBill(dec: Decoder, x: string, y: string, u: Usage)
    requires TerminalThenUsage(dec, x, y, u)
    ensures
      var actions := [Chunk(x + CRLFCRLF), RecordDone, Chunk(y + LFLF)];
      Legal(dec, true, actions) && Run(dec, true, actions).calls == [None]
  {
    var a, b := x + CRLFCRLF, y + LFLF;
    CutFraming(x, y);
    ReadCut(dec, x, y, u);
    CutRun(dec, a, b);
    BillOfRun(dec, [Chunk(a), RecordDone, Chunk(b)], a, [b]);
  }

  /** The same bytes, one bill with usage and one without: a terminal line closed by CR LF CR LF and
      usage behind it closed by LF LF, in one chunk and in two. */
  lemma MixedEndingsChangeTheBill(dec: Decoder, x: string, y: string, u: Usage)
    requires TerminalThenUsage(dec, x, y, u)
    ensures
      var whole: seq<Action> := [Chunk(x + CRLFCRLF + (y + LFLF))];
      var cut: seq<Action> := [Chunk(x + CRLFCRLF), RecordDone, Chunk(y + LFLF)];
      && Legal(dec, true, whole) && Legal(dec, true, cut) && Seen(whole) == Seen(cut)
      && Run(dec, true, whole).calls == [Some(u)] && Run(dec, true, cut).calls == [None]
  {
    SameBytes(x + CRLFCRLF, y + LFLF);
    WholeBill(dec, x, y, u);
    CutBill(dec, x, y, u);
  }

  lemma SameBytes(a: string, b: string)
    ensures Seen([Chunk(a + b)]) == a + b == Seen([Chunk(a), RecordDone, Chunk(b)])
  {
    var cut: seq<Action> := [Chunk(a), RecordDone, Chunk(b)];
    assert cut[..2] == [Chunk(a), RecordDone] && cut[..2][..1] == [Chunk(a)];
    SeenOne(a + b);
    SeenOne(a);
    assert Seen(cut[..2]) == a + "";
    assert a + "" == a;
  }

  lemma SeenOne(a: string)
    ensures Seen([Chunk(a)]) == a
  {
    var one: seq<Action> := [Chunk(a)];
    assert one[..0] == [];
    assert "" + a == a;
  }

  // ---------- there is such a stream ----------

  const SOME_USAGE := Usage(None, None, Some(1), Some(1), None, None)

  function UsageOnly(text: string): Option<Json> {
    if text == "usage" then Some(Obj([Entry("usage", Null)])) else None
  }

  lemma TrimsToItself(name: string, text: string)
    requires text != "" && !IsBlank(text[0]) && !IsBlank(text[|text| - 1])
    ensures FieldOf(name + text, name) == Some(text)
  {
    assert name <= name + text;
    assert (name + text)[|name|..] == text;
    assert Trim(text) == text;
  }

  lemma UsageOfUsageOnly(dec: Decoder)
    requires dec == Decoder(UsageOnly, (v: Json) => Some(SOME_USAGE))
    ensures ReadData(dec, "usage") == LineFacts([SOME_USAGE], false)
  {
    var fields := [Entry("usage", Null)];
    assert IndexOf(fields, "usage") == 0 && IndexOf(fields, "type") == 1;
    assert TypeOf(Obj(fields)) == None;
    assert UsageOf(dec, Obj(fields)) == Some(SOME_USAGE);
  }

  lemma DoneLine(dec: Decoder)
    ensures var x := "data:" + "[DONE]"; IsPlain(x) && MayCarry(x) && ReadLine(dec, x) == LineFacts([], true)
  {
    var x := "data:" + "[DONE]";
    TrimsToItself("data:", "[DONE]");
    assert x[5..5 + |"[DONE]"|] == "[DONE]";
    assert OccursAt("[DONE]", x, 5);
  }

  lemma UsageLine(dec: Decoder)
    requires dec == Decoder(UsageOnly, (v: Json) => Some(SOME_USAGE))
    ensures var y := "data:" + "usage"; IsPlain(y) && ReadLine(dec, y) == LineFacts([SOME_USAGE], false)
  {
    TrimsToItself("data:", "usage");
    UsageOfUsageOnly(dec);
  }

  lemma SuchAStream() returns (dec: Decoder, x: string, y: string, u: Usage)
    ensures TerminalThenUsage(dec, x, y, u)
  {
    dec, u := Decoder(UsageOnly, (v: Json) => Some(SOME_USAGE)), SOME_USAGE;
    x, y := "data:" + "[DONE]", "data:" + "usage";
    DoneLine(dec);
    UsageLine(dec);
  }
}
