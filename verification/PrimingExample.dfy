/** A stream whose fate in the priming window depends on where it is cut. */
module PrimingExample {
  import opened Text
  import opened SortedEntries
  import opened Json
  import opened Sse
  import opened PlainEvents
  import opened Priming
  import opened PrimingCuts

  lemma PlainSignal(parse: Parser, line: string)
    requires IsPlain(line) && FieldOf(line, "event:").None?
    ensures EventSignal(parse, line + LFLF) == LineSignal(parse, line, None)
  {
    PlainEvent(line, "");
    var lines := [line, ""];
    assert lines[1..] == [""] && lines[1..][1..] == [];
    assert EventName(lines[1..]) == None;
    assert EventName(lines) == None;
    assert LinesSignal(parse, lines[1..], None) == Neutral;
  }

  lemma OneEvent(judge: Judge, event: string)
    ensures EventsSignal(judge, [event]) == judge(event)
  {
    assert [event][1..] == [];
  }

  lemma PlainFramed(line: string)
    requires IsPlain(line)
    ensures Drain(line + LFLF) == Framed([line + LFLF], "")
  {
    PlainEvent(line, "");
    assert line + LFLF + "" == line + LFLF;
    assert Drain("") == Framed([], "");
    assert [line + LFLF] + [] == [line + LFLF];
  }

  lemma TwoFramed(x: string, y: string)
    requires IsPlain(x) && IsPlain(y)
    ensures Drain(x + LFLF + (y + LFLF)).events == [x + LFLF, y + LFLF]
  {
    PlainEvent(x, y + LFLF);
    PlainFramed(y);
    assert [x + LFLF] + [y + LFLF] == [x + LFLF, y + LFLF];
  }

  /** Output and then an error, in two chunks, is committed; the same bytes in one chunk fail over. */
  lemma CutDecides(an: Analyser, a: string, b: string, ok: bool)
    requires Shrinks(an) && an.frame(a) == Framed([a], "") && an.frame(a + b).events == [a, b]
    requires IsOutput(an.judge(a)) && an.judge(b) == Error && !an.suspect(a)
    ensures Concat([a, b]) == a + b == Concat([a + b])
    ensures Commits(an, [a, b], ok) && !Commits(an, [a + b], ok)
  {
    TwoChunks(a, b);
    ConcatOne(a + b);
    OneEvent(an.judge, a);
    OneEvent(an.judge, b);
    FirstCutCommits(an, a, b, ok, [a]);
    EventsSignalAppend(an.judge, [a], [b]);
    assert [a] + [b] == [a, b];
    WholeFails(an, a + b, ok);
  }

  lemma OutputThenError(parse: Parser, x: string, y: string, ok: bool)
    requires IsPlain(x) && IsPlain(y) && !FirstChunkError(parse, x + LFLF)
    requires IsOutput(EventSignal(parse, x + LFLF)) && EventSignal(parse, y + LFLF) == Error
    ensures
      var a, b := x + LFLF, y + LFLF;
      && Concat([a, b]) == Concat([a + b])
      && Commits(AnalyserOf(parse), [a, b], ok)
      && !Commits(AnalyserOf(parse), [a + b], ok)
  {
    ProxyShrinks(parse);
    PlainFramed(x);
    TwoFramed(x, y);
    CutDecides(AnalyserOf(parse), x + LFLF, y + LFLF, ok);
  }

  /** The check of a chunk that starts with a data line. */
  lemma DataChunk(parse: Parser, after: string, text: string)
    requires text != "" && text[0] !in {' ', '\t', '\r'} && FirstLine(after) == text
    ensures FirstChunkError(parse, "data:" + after) <==> parse(text).Some? && IsErrorEnvelope(parse(text).value)
  {
    var chunk := "data:" + after;
    assert chunk[0] == 'd' && chunk[5..] == after;
    assert SkipAny(chunk, {' ', '\t', '\r', '\n'}) == chunk;
    assert SkipAny(text, {' ', '\t', '\r'}) == text;
  }

  // ---------- the example ----------

  const OUTPUT_LINE: string := "data:p"
  const ERROR_LINE: string := "data:e"

  /** A parser under which one line is output and one is an error. */
  function TwoLines(text: string): Option<Json> {
    if text == "p" then Some(Obj([Entry("type", Str("content_block_delta"))]))
    else if text == "e" then Some(Obj([Entry("type", Str("error"))]))
    else None
  }

  lemma TypeOnly(name: string)
    ensures
      var v := Obj([Entry("type", Str(name))]);
      StrAt(v, "type") == Some(name) && Get(v, "error") == None
  {
    var fields := [Entry("type", Str(name))];
    assert IndexOf(fields, "type") == 0 && IndexOf(fields, "error") == 1;
  }

  lemma ShortData(c: char)
    requires !IsBlank(c)
    ensures FieldOf("data:" + [c], "data:") == Some([c]) && FieldOf("data:" + [c], "event:") == None
  {
    var line := "data:" + [c];
    assert line[5..] == [c];
    assert line[0] == 'd';
  }

  lemma OutputSignal()
    ensures EventSignal(TwoLines, OUTPUT_LINE + LFLF) == Productive
  {
    ShortData('p');
    assert OUTPUT_LINE == "data:" + ['p'];
    PlainSignal(TwoLines, OUTPUT_LINE);
    TypeOnly("content_block_delta");
  }

  lemma ErrorSignal()
    ensures EventSignal(TwoLines, ERROR_LINE + LFLF) == Error
  {
    ShortData('e');
    assert ERROR_LINE == "data:" + ['e'];
    PlainSignal(TwoLines, ERROR_LINE);
    TypeOnly("error");
  }

  lemma OutputIsHarmless()
    ensures !FirstChunkError(TwoLines, OUTPUT_LINE + LFLF)
  {
    assert OUTPUT_LINE + LFLF == "data:" + ("p" + "\n" + "\n");
    FirstBreak("p", "\n");
    DataChunk(TwoLines, "p" + "\n" + "\n", "p");
    TypeOnly("content_block_delta");
  }

  lemma CutsCanDisagree(ok: bool)
    ensures
      var a, b := OUTPUT_LINE + LFLF, ERROR_LINE + LFLF;
      && Concat([a, b]) == Concat([a + b])
      && Commits(AnalyserOf(TwoLines), [a, b], ok)
      && !Commits(AnalyserOf(TwoLines), [a + b], ok)
  {
    OutputSignal();
    ErrorSignal();
    OutputIsHarmless();
    OutputThenError(TwoLines, OUTPUT_LINE, ERROR_LINE, ok);
  }

  // ---------- an envelope inside an event ----------

  lemma WholeCommits(an: Analyser, s: string, ok: bool)
    requires Shrinks(an) && an.frame(s).events == [s] && IsOutput(an.judge(s)) && !an.suspect(s)
    ensures Commits(an, [s], ok)
  {
    var items := Items([s]);
    assert "" + s == s && items[0] == Bytes(s);
    assert [] + [s] == [s];
    assert Heard(an, items, 1).events == [s];
    OneEvent(an.judge, s);
    assert HarmlessAt(an, items, 0);
    OutputCommits(an, items, true, ok);
  }

  lemma EnvelopeChunkFails(an: Analyser, x: string, y: string, z: string, ok: bool)
    requires Shrinks(an) && an.frame(x) == Framed([], x) && |x| < MAX_BYTES && !an.suspect(x) && an.suspect(y)
    ensures !Commits(an, [x, y, z], ok)
  {
    var items := Items([x, y, z]);
    assert "" + x == x && items[0] == Bytes(x) && items[1] == Bytes(y);
    var none: seq<string> := [];
    assert [] + none == none;
    assert Heard(an, items, 1) == Framed([], x);
    assert Read(items, 1) == x;
    assert QuietAt(an, items, 0);
    EnvelopeFails(an, items, 1, ok);
  }

  lemma ThreeChunks(x: string, y: string, z: string)
    ensures Concat([x, y, z]) == x + y + z == Concat([x + y + z])
  {
    assert [x, y, z] == [x] + [y] + [z];
    ConcatSnoc([x] + [y], z);
    ConcatSnoc([x], y);
    ConcatOne(x);
    ConcatOne(x + y + z);
  }

  lemma EnvelopeInside(parse: Parser, x: string, y: string, ok: bool)
    requires IsPlain(x) && IsPlain(y) && |x| < MAX_BYTES
    requires IsOutput(EventSignal(parse, x + y + LFLF)) && !FirstChunkError(parse, x + y + LFLF)
    requires !FirstChunkError(parse, x) && FirstChunkError(parse, y)
    ensures Concat([x, y, LFLF]) == x + y + LFLF == Concat([x + y + LFLF])
    ensures Commits(AnalyserOf(parse), [x + y + LFLF], ok)
    ensures !Commits(AnalyserOf(parse), [x, y, LFLF], ok)
  {
    ProxyShrinks(parse);
    ThreeChunks(x, y, LFLF);
    PlainFramed(x + y);
    PlainRest(x);
    WholeCommits(AnalyserOf(parse), x + y + LFLF, ok);
    EnvelopeChunkFails(AnalyserOf(parse), x, y, LFLF, ok);
  }

  /** A parser under which a line is output and its tail, by itself, an error envelope. */
  function InnerError(text: string): Option<Json> {
    if text == "pe" then Some(Obj([Entry("type", Str("content_block_delta"))]))
    else if text == "e" then Some(Obj([Entry("type", Str("error"))]))
    else None
  }

  lemma InnerOutput()
    ensures EventSignal(InnerError, "data:p" + "e" + LFLF) == Productive
  {
    var line := "data:p" + "e";
    assert line[5..] == "pe" && line[0] == 'd';
    assert FieldOf(line, "data:") == Some("pe");
    PlainSignal(InnerError, line);
    TypeOnly("content_block_delta");
  }

  lemma InnerChunks()
    ensures !FirstChunkError(InnerError, "data:p" + "e" + LFLF)
    ensures !FirstChunkError(InnerError, "data:p")
  {
    assert "data:p" + "e" + LFLF == "data:" + ("pe" + "\n" + "\n");
    FirstBreak("pe", "\n");
    assert ("pe" + "\n" + "\n")[..2] == "pe";
    DataChunk(InnerError, "pe" + "\n" + "\n", "pe");
    TypeOnly("content_block_delta");
    assert "data:p" == "data:" + "p";
    assert Find("p", "\n").None?;
    DataChunk(InnerError, "p", "p");
  }

  lemma InnerEnvelope()
    ensures FirstChunkError(InnerError, "e")
  {
    SkipChar('e', {' ', '\t', '\r', '\n'});
    SkipChar('e', {' ', '\t', '\r'});
    assert "e" == ['e'];
    TypeOnly("error");
  }

  /** One event that is output: committed when it arrives at once, failed over when its tail arrives
      as a chunk of its own. */
  lemma EnvelopeCanDisagree(ok: bool)
    ensures Concat(["data:p", "e", LFLF]) == Concat(["data:p" + "e" + LFLF])
    ensures Commits(AnalyserOf(InnerError), ["data:p" + "e" + LFLF], ok)
    ensures !Commits(AnalyserOf(InnerError), ["data:p", "e", LFLF], ok)
  {
    InnerOutput();
    InnerChunks();
    InnerEnvelope();
    EnvelopeInside(InnerError, "data:p", "e", ok);
  }
}
