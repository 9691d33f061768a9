/** When the fate of a stream in the priming window depends on its chunk boundaries.

Two things depend on them: whether an error event behind output is drained together with that output,
and whether a stretch of the stream arrives as a chunk that is an error envelope by itself, which the
proxy checks for every chunk.  The theorem says exactly when neither makes a difference. */
module PrimingCuts {
  import opened Text
  import opened Sse
  import opened Priming

  // ---------- what chunks say ----------

  function Items(chunks: seq<string>): seq<Item> {
    seq(|chunks|, i requires 0 <= i < |chunks| => Bytes(chunks[i]))
  }

  lemma {:induction false} ReadChunks(chunks: seq<string>, n: nat)
    requires n <= |chunks|
    ensures Read(Items(chunks), n) == Concat(chunks[..n])
  {
    if n > 0 {
      ReadChunks(chunks, n - 1);
      ConcatTake(chunks, n - 1);
    } else {
      assert chunks[..0] == [];
    }
  }

  /** What the analyser drains from the chunks of a text does not depend on the chunks. */
  ghost predicate CutFree(an: Analyser, s: string) {
    forall chunks :: Concat(chunks) == s ==> Heard(an, Items(chunks), |chunks|).events == an.frame(s).events
  }

  lemma {:induction false} HeardIsDrained(parse: Parser, chunks: seq<string>, n: nat)
    requires n <= |chunks|
    ensures Heard(AnalyserOf(parse), Items(chunks), n) == DrainChunks(chunks[..n])
  {
    if n > 0 {
      HeardIsDrained(parse, chunks, n - 1);
      assert chunks[..n][..n - 1] == chunks[..n - 1];
    }
  }

  /** For the proxy that holds of exactly the uniform streams. */
  lemma CutFreeIffUniform(parse: Parser, s: string)
    ensures CutFree(AnalyserOf(parse), s) <==> Uniform(s)
  {
    if Uniform(s) {
      forall chunks | Concat(chunks) == s
        ensures Heard(AnalyserOf(parse), Items(chunks), |chunks|).events == Drain(s).events
      {
        HeardInAll(parse, chunks);
        UniformChunks(chunks);
      }
    } else {
      var chunks := BadCut(s);
      HeardInAll(parse, chunks);
    }
  }

  lemma HeardInAll(parse: Parser, chunks: seq<string>)
    ensures Heard(AnalyserOf(parse), Items(chunks), |chunks|) == DrainChunks(chunks)
  {
    HeardIsDrained(parse, chunks, |chunks|);
    assert chunks[..|chunks|] == chunks;
  }

  /** No chunk that arrives while all is neutral is an error envelope by itself. */
  ghost predicate Clean(an: Analyser, chunks: seq<string>) {
    forall k :: 0 <= k < |chunks| && SignalAfter(an, Items(chunks), k) == Neutral ==> !an.suspect(chunks[k])
  }

  /** Is the stream committed when it arrives in these chunks? */
  ghost predicate Commits(an: Analyser, chunks: seq<string>, ok: bool) {
    Prime(an, Items(chunks), true, ok).Committed?
  }

  /** All ways to cut the stream lead to the same fate. */
  ghost predicate AllCutsAgree(an: Analyser, s: string, ok: bool) {
    forall c, d :: Concat(c) == s && Concat(d) == s ==> Commits(an, c, ok) == Commits(an, d, ok)
  }

  /** The stream's first non-neutral event is an error, or no event is. */
  predicate ErrorsComeFirst(judge: Judge, events: seq<string>) {
    FirstSignal(judge, events) == Error || EventsSignal(judge, events) != Error
  }

  /** Then its fate depends on its events alone. */
  lemma FateOfCut(an: Analyser, s: string, chunks: seq<string>, ok: bool)
    requires Shrinks(an) && CutFree(an, s) && |s| < MAX_BYTES && ErrorsComeFirst(an.judge, an.frame(s).events)
    requires Concat(chunks) == s && Clean(an, chunks)
    ensures Commits(an, chunks, ok) <==> IsOutput(EventsSignal(an.judge, an.frame(s).events))
  {
    var items := Items(chunks);
    ReadChunks(chunks, |chunks|);
    assert chunks[..|chunks|] == chunks;
    match EventsSignal(an.judge, an.frame(s).events)
    case Neutral => NeutralFailsOver(an, items, ok);
    case Error =>
      ErrorFirst(an, items, true, ok);
      var outcome := Prime(an, items, true, ok);
      if outcome.Committed? {
        var _ := HeardGrows(an, items, outcome.read, |items|);
      }
    case _ =>
      forall k | 0 <= k < |items| ensures HarmlessAt(an, items, k) {
        assert items[k] == Bytes(chunks[k]);
      }
      OutputCommits(an, items, true, ok);
  }

  /** The position just behind the first event that is not neutral. */
  function FirstLoud(judge: Judge, events: seq<string>): (n: nat)
    requires EventsSignal(judge, events) != Neutral
    ensures 0 < n <= |events|
    ensures EventsSignal(judge, events[..n]) == FirstSignal(judge, events) != Neutral
  {
    if judge(events[0]) != Neutral then
      assert events[..1][1..] == [];
      1
    else
      var n := FirstLoud(judge, events[1..]);
      assert events[..n + 1][1..] == events[1..][..n];
      n + 1
  }

  /** The text up to there can be framed by itself. */
  ghost predicate CutsBehind(an: Analyser, s: string, n: nat, a: string, b: string)
    requires n <= |an.frame(s).events|
  {
    a + b == s && an.frame(a) == Framed(an.frame(s).events[..n], "")
  }

  /** The two-cut witness: a stream with an error event behind output is failed over when it arrives
      at once, and committed when the first chunk ends right behind that output. */
  lemma CutBehindFirstSignal(an: Analyser, s: string, a: string, b: string, ok: bool)
    requires Shrinks(an) && !ErrorsComeFirst(an.judge, an.frame(s).events)
    requires CutsBehind(an, s, FirstLoud(an.judge, an.frame(s).events), a, b)
    requires !an.suspect(a)
    ensures Concat([a, b]) == s && Concat([s]) == s
    ensures Commits(an, [a, b], ok) && !Commits(an, [s], ok)
    ensures !an.suspect(s) ==> Clean(an, [a, b]) && Clean(an, [s])
  {
    ConcatOne(s);
    assert [a, b] == [a] + [b];
    ConcatSnoc([a], b);
    ConcatOne(a);
    var events := an.frame(s).events;
    FirstCutCommits(an, a, b, ok, events[..FirstLoud(an.judge, events)]);
    WholeFails(an, s, ok);
  }

  lemma FirstCutCommits(an: Analyser, a: string, b: string, ok: bool, events: seq<string>)
    requires Shrinks(an) && an.frame(a) == Framed(events, "") && !an.suspect(a)
    requires IsOutput(EventsSignal(an.judge, events))
    ensures Commits(an, [a, b], ok) && Clean(an, [a, b])
  {
    var items := Items([a, b]);
    assert "" + a == a;
    assert [] + events == events;
    assert Heard(an, items, 0) == Framed([], "");
    assert Heard(an, items, 1) == an.frame(a);
    assert SignalAfter(an, items, 1) == EventsSignal(an.judge, events);
    assert Quiet(an, items, 0);
    assert CommitsAt(an, items, 0);
    WindowCommits(an, items, true, ok, 0);
  }

  lemma WholeFails(an: Analyser, s: string, ok: bool)
    requires EventsSignal(an.judge, an.frame(s).events) == Error
    ensures !Commits(an, [s], ok)
    ensures !an.suspect(s) ==> Clean(an, [s])
  {
    assert "" + s == s;
    assert Items([s])[0] == Bytes(s);
    assert ChunkSignal(an.judge, an.frame(s)) == Error;
  }

  // ---------- prefixes ----------

  /** What is drained and read from the first items does not depend on the later ones. */
  lemma {:induction false} HeardInPrefix(an: Analyser, items: seq<Item>, more: seq<Item>, n: nat)
    requires n <= |items|
    ensures Heard(an, items + more, n) == Heard(an, items, n) && Read(items + more, n) == Read(items, n)
  {
    if n > 0 {
      HeardInPrefix(an, items, more, n - 1);
      assert (items + more)[n - 1] == items[n - 1];
    }
  }

  lemma SameAtPrefix(an: Analyser, items: seq<Item>, more: seq<Item>, k: nat)
    requires k < |items|
    ensures QuietAt(an, items + more, k) <==> QuietAt(an, items, k)
    ensures CommitsAt(an, items + more, k) <==> CommitsAt(an, items, k)
  {
    HeardInPrefix(an, items, more, k + 1);
    assert (items + more)[k] == items[k];
  }

  /** A commitment stands, whatever follows. */
  lemma CommitmentStands(an: Analyser, items: seq<Item>, more: seq<Item>, isSse: bool, ok: bool)
    requires Shrinks(an) && Prime(an, items, isSse, ok).Committed?
    ensures Prime(an, items + more, isSse, ok) == Prime(an, items, isSse, ok)
  {
    var outcome := Prime(an, items, isSse, ok);
    OutcomeIsJustified(an, items, isSse, ok);
    OutcomeIsJustified(an, items + more, isSse, ok);
    var n := outcome.read - 1;
    forall k | 0 <= k < n ensures QuietAt(an, items + more, k) {
      assert QuietAt(an, items, k);
      SameAtPrefix(an, items, more, k);
    }
    SameAtPrefix(an, items, more, n);
    JustifiedIsUnique(an, items + more, isSse, ok, outcome, Prime(an, items + more, isSse, ok));
  }

  /** Every prefix of the stream is framed alike, however it is cut. */
  ghost predicate PrefixFree(an: Analyser, s: string) {
    forall n :: 0 <= n <= |s| ==> CutFree(an, s[..n])
  }

  lemma UniformIsPrefixFree(parse: Parser, s: string)
    requires Uniform(s)
    ensures PrefixFree(AnalyserOf(parse), s)
  {
    forall n | 0 <= n <= |s| ensures CutFree(AnalyserOf(parse), s[..n]) {
      assert s == "" + s[..n] + s[n..];
      UniformSub("", s[..n], s[n..]);
      CutFreeIffUniform(parse, s[..n]);
    }
  }

  /** What has been drained from the first chunks is what their text frames to. */
  lemma HeardOfChunks(an: Analyser, chunks: seq<string>, n: nat)
    requires n <= |chunks| && CutFree(an, Concat(chunks[..n]))
    ensures Heard(an, Items(chunks), n).events == an.frame(Concat(chunks[..n])).events
  {
    ItemsSplit(chunks, n);
    HeardInPrefix(an, Items(chunks[..n]), Items(chunks)[n..], n);
    HeardWhole(an, chunks[..n]);
  }

  lemma ItemsSplit(chunks: seq<string>, n: nat)
    requires n <= |chunks|
    ensures |Items(chunks[..n])| == n && Items(chunks) == Items(chunks[..n]) + Items(chunks)[n..]
  {
  }

  lemma HeardWhole(an: Analyser, chunks: seq<string>)
    requires CutFree(an, Concat(chunks))
    ensures Heard(an, Items(chunks), |chunks|).events == an.frame(Concat(chunks)).events
  {
  }

  lemma PrefixOfText(chunks: seq<string>, n: nat)
    requires n <= |chunks|
    ensures Concat(chunks[..n]) <= Concat(chunks)
    ensures n < |chunks| ==>
      var i := |Concat(chunks[..n])|;
      i + |chunks[n]| <= |Concat(chunks)| && Concat(chunks)[i..i + |chunks[n]|] == chunks[n]
  {
    assert chunks == chunks[..n] + chunks[n..];
    ConcatAppend(chunks[..n], chunks[n..]);
    if n < |chunks| {
      assert chunks[n..] == [chunks[n]] + chunks[n + 1..];
      ConcatCons(chunks[n], chunks[n + 1..]);
    }
  }

  // ---------- error envelopes inside the stream ----------

  /** The stretch from `i` to `j` is an error envelope by itself, and nothing loud stands before it. */
  ghost predicate EnvelopeAt(an: Analyser, s: string, i: int, j: int) {
    0 <= i <= j <= |s| && EventsSignal(an.judge, an.frame(s[..i]).events) == Neutral && an.suspect(s[i..j])
  }

  ghost predicate HasEnvelope(an: Analyser, s: string) {
    exists i, j :: EnvelopeAt(an, s, i, j)
  }

  /** Chunk `k` as a stretch of the text. */
  lemma StretchOf(s: string, chunks: seq<string>, k: nat) returns (i: nat, j: nat)
    requires Concat(chunks) == s && k < |chunks|
    ensures i <= j <= |s| && s[..i] == Concat(chunks[..k]) && s[i..j] == chunks[k]
  {
    PrefixOfText(chunks, k);
    i := |Concat(chunks[..k])|;
    j := i + |chunks[k]|;
  }

  lemma ChunkIsNoEnvelope(an: Analyser, s: string, chunks: seq<string>, k: nat)
    requires PrefixFree(an, s) && !HasEnvelope(an, s) && Concat(chunks) == s && k < |chunks|
    requires SignalAfter(an, Items(chunks), k) == Neutral
    ensures !an.suspect(chunks[k])
  {
    var i, j := StretchOf(s, chunks, k);
    assert CutFree(an, s[..i]);
    HeardOfChunks(an, chunks, k);
    assert !EnvelopeAt(an, s, i, j);
  }

  /** Without such a stretch every chunking is clean. */
  lemma CutsAreClean(an: Analyser, s: string, chunks: seq<string>)
    requires PrefixFree(an, s) && !HasEnvelope(an, s) && Concat(chunks) == s
    ensures Clean(an, chunks)
  {
    forall k | 0 <= k < |chunks| && SignalAfter(an, Items(chunks), k) == Neutral ensures !an.suspect(chunks[k]) {
      ChunkIsNoEnvelope(an, s, chunks, k);
    }
  }

  // ---------- single characters ----------

  /** A text, character by character. */
  function Chars(s: string): seq<string> {
    seq(|s|, i requires 0 <= i < |s| => [s[i]])
  }

  lemma {:induction false} CharsOfPrefix(s: string, n: nat)
    requires n <= |s|
    ensures Concat(Chars(s)[..n]) == s[..n]
  {
    if n == 0 {
      assert Chars(s)[..0] == [];
    } else {
      CharsOfPrefix(s, n - 1);
      ConcatTake(Chars(s), n - 1);
    }
  }

  lemma CharsConcat(s: string)
    ensures Concat(Chars(s)) == s
  {
    CharsOfPrefix(s, |s|);
    assert Chars(s)[..|s|] == Chars(s) && s[..|s|] == s;
  }

  /** No character is an error envelope. */
  ghost predicate CharsAreHarmless(an: Analyser) {
    forall ch: char :: !an.suspect([ch])
  }

  /** Character by character up to an output, and then the rest, is committed. */
  lemma CharsCommit(an: Analyser, a: string, b: string, ok: bool)
    requires Shrinks(an) && CharsAreHarmless(an) && CutFree(an, a) && IsOutput(EventsSignal(an.judge, an.frame(a).events))
    ensures Concat(Chars(a) + [b]) == a + b && Commits(an, Chars(a) + [b], ok)
  {
    CharsConcat(a);
    ConcatSnoc(Chars(a), b);
    HeardWhole(an, Chars(a));
    AllCharsHarmless(an, a);
    OutputCommits(an, Items(Chars(a)), true, ok);
    ItemsSnoc(Chars(a), b);
    CommitmentStands(an, Items(Chars(a)), [Bytes(b)], true, ok);
  }

  lemma AllCharsHarmless(an: Analyser, a: string)
    requires CharsAreHarmless(an)
    ensures forall k :: 0 <= k < |Items(Chars(a))| ==> HarmlessAt(an, Items(Chars(a)), k)
  {
    forall k | 0 <= k < |Items(Chars(a))| ensures HarmlessAt(an, Items(Chars(a)), k) {
      assert Items(Chars(a))[k] == Bytes([a[k]]);
    }
  }

  lemma ItemsSnoc(chunks: seq<string>, b: string)
    ensures Items(chunks + [b]) == Items(chunks) + [Bytes(b)]
  {
  }

  /** The chunks in which the stretch from `i` to `j` arrives by itself. */
  function Isolating(s: string, i: nat, j: nat): seq<string>
    requires i <= j <= |s|
  {
    Chars(s[..i]) + [s[i..j]] + [s[j..]]
  }

  lemma IsolatingConcat(s: string, i: nat, j: nat)
    requires i <= j <= |s|
    ensures Concat(Isolating(s, i, j)) == s
  {
    CharsConcat(s[..i]);
    ConcatSnoc(Chars(s[..i]), s[i..j]);
    ConcatSnoc(Chars(s[..i]) + [s[i..j]], s[j..]);
    assert s[..i] + s[i..j] + s[j..] == s;
  }

  lemma CharIsQuiet(an: Analyser, a: string, k: nat)
    requires CharsAreHarmless(an) && k < |a| < MAX_BYTES && SignalAfter(an, Items(Chars(a)), |a|) == Neutral
    ensures QuietAt(an, Items(Chars(a)), k)
  {
    SignalGrows(an, Items(Chars(a)), k + 1, |a|);
    ReadChunks(Chars(a), k + 1);
    CharsOfPrefix(a, k + 1);
    assert Items(Chars(a))[k] == Bytes([a[k]]);
  }

  /** Neutral characters leave the window quiet. */
  lemma CharsAreQuiet(an: Analyser, a: string, more: seq<Item>)
    requires CharsAreHarmless(an) && CutFree(an, a) && |a| < MAX_BYTES
    requires EventsSignal(an.judge, an.frame(a).events) == Neutral
    ensures Quiet(an, Items(Chars(a)) + more, |a|)
  {
    CharsConcat(a);
    assert |Chars(a)| == |a|;
    forall k | 0 <= k < |a| ensures QuietAt(an, Items(Chars(a)) + more, k) {
      CharIsQuiet(an, a, k);
      SameAtPrefix(an, Items(Chars(a)), more, k);
    }
  }

  /** Behind a quiet start an error envelope fails over. */
  lemma EnvelopeFails(an: Analyser, items: seq<Item>, n: nat, ok: bool)
    requires Shrinks(an) && Quiet(an, items, n) && n < |items| && items[n].Bytes? && an.suspect(items[n].chunk)
    ensures Prime(an, items, true, ok) == FailOver
  {
    assert FailsAt(an, items, true, ok, n);
    OutcomeIsJustified(an, items, true, ok);
    JustifiedIsUnique(an, items, true, ok, FailOver, Prime(an, items, true, ok));
  }

  lemma IsolatingItems(s: string, i: nat, j: nat)
    requires i <= j <= |s|
    ensures Items(Isolating(s, i, j)) == Items(Chars(s[..i])) + [Bytes(s[i..j]), Bytes(s[j..])]
    ensures |Items(Chars(s[..i]))| == i
  {
  }

  /** An envelope that arrives by itself fails over. */
  lemma IsolatedEnvelopeFails(an: Analyser, s: string, i: nat, j: nat, ok: bool)
    requires Shrinks(an) && CharsAreHarmless(an) && PrefixFree(an, s) && |s| < MAX_BYTES && EnvelopeAt(an, s, i, j)
    ensures Concat(Isolating(s, i, j)) == s && !Commits(an, Isolating(s, i, j), ok)
  {
    IsolatingConcat(s, i, j);
    IsolatingItems(s, i, j);
    CharsAreQuiet(an, s[..i], [Bytes(s[i..j]), Bytes(s[j..])]);
    EnvelopeFails(an, Items(Isolating(s, i, j)), i, ok);
  }

  // ---------- the exact condition ----------

  /** The stream does not open with output; or none of its events is an error and no error envelope
      stands in it before the first loud event is complete. */
  ghost predicate CutsCannotMatter(an: Analyser, s: string) {
    || !IsOutput(FirstSignal(an.judge, an.frame(s).events))
    || (EventsSignal(an.judge, an.frame(s).events) != Error && !HasEnvelope(an, s))
  }

  lemma {:induction false} FirstNeutralIsNeutral(judge: Judge, events: seq<string>)
    requires FirstSignal(judge, events) == Neutral
    ensures EventsSignal(judge, events) == Neutral
  {
    if events != [] {
      FirstNeutralIsNeutral(judge, events[1..]);
    }
  }

  /** Without output first, no chunking is committed. */
  lemma NoOutputNeverCommits(an: Analyser, s: string, chunks: seq<string>, ok: bool)
    requires Shrinks(an) && CutFree(an, s) && |s| < MAX_BYTES && Concat(chunks) == s
    requires !IsOutput(FirstSignal(an.judge, an.frame(s).events))
    ensures !Commits(an, chunks, ok)
  {
    var items := Items(chunks);
    ReadChunks(chunks, |chunks|);
    assert chunks[..|chunks|] == chunks;
    if FirstSignal(an.judge, an.frame(s).events) == Neutral {
      FirstNeutralIsNeutral(an.judge, an.frame(s).events);
      NeutralFailsOver(an, items, ok);
    } else {
      ErrorFirst(an, items, true, ok);
      var outcome := Prime(an, items, true, ok);
      if outcome.Committed? {
        var _ := HeardGrows(an, items, outcome.read, |items|);
      }
    }
  }

  lemma CutsAgree(an: Analyser, s: string, ok: bool)
    requires Shrinks(an) && PrefixFree(an, s) && |s| < MAX_BYTES && CutsCannotMatter(an, s)
    ensures AllCutsAgree(an, s, ok)
  {
    assert s[..|s|] == s;
    forall c, d | Concat(c) == s && Concat(d) == s ensures Commits(an, c, ok) == Commits(an, d, ok) {
      if !IsOutput(FirstSignal(an.judge, an.frame(s).events)) {
        NoOutputNeverCommits(an, s, c, ok);
        NoOutputNeverCommits(an, s, d, ok);
      } else {
        CutsAreClean(an, s, c);
        CutsAreClean(an, s, d);
        FateOfCut(an, s, c, ok);
        FateOfCut(an, s, d, ok);
      }
    }
  }

  /** The text up to the first loud event is a stretch of the stream, and is framed by itself. */
  lemma LoudPrefixCommits(an: Analyser, s: string, a: string, b: string, ok: bool) returns (chunks: seq<string>)
    requires Shrinks(an) && CharsAreHarmless(an) && PrefixFree(an, s) && IsOutput(FirstSignal(an.judge, an.frame(s).events))
    requires EventsSignal(an.judge, an.frame(s).events) != Neutral
    requires CutsBehind(an, s, FirstLoud(an.judge, an.frame(s).events), a, b)
    ensures Concat(chunks) == s && Commits(an, chunks, ok)
  {
    assert a == s[..|a|];
    CharsCommit(an, a, b, ok);
    chunks := Chars(a) + [b];
  }

  lemma SomeCutFails(an: Analyser, s: string, ok: bool) returns (chunks: seq<string>)
    requires Shrinks(an) && CharsAreHarmless(an) && PrefixFree(an, s) && |s| < MAX_BYTES && !CutsCannotMatter(an, s)
    ensures Concat(chunks) == s && !Commits(an, chunks, ok)
  {
    if EventsSignal(an.judge, an.frame(s).events) == Error {
      ConcatOne(s);
      WholeFails(an, s, ok);
      chunks := [s];
    } else {
      var i, j :| EnvelopeAt(an, s, i, j);
      IsolatedEnvelopeFails(an, s, i, j, ok);
      chunks := Isolating(s, i, j);
    }
  }

  lemma CutsDisagree(an: Analyser, s: string, a: string, b: string, ok: bool)
    requires Shrinks(an) && CharsAreHarmless(an) && PrefixFree(an, s) && |s| < MAX_BYTES && !CutsCannotMatter(an, s)
    requires EventsSignal(an.judge, an.frame(s).events) != Neutral
    requires CutsBehind(an, s, FirstLoud(an.judge, an.frame(s).events), a, b)
    ensures !AllCutsAgree(an, s, ok)
  {
    var c := LoudPrefixCommits(an, s, a, b, ok);
    var d := SomeCutFails(an, s, ok);
  }

  lemma {:induction false} LoudFirstIsLoud(judge: Judge, events: seq<string>)
    requires FirstSignal(judge, events) != Neutral
    ensures EventsSignal(judge, events) != Neutral
  {
    if judge(events[0]) == Neutral {
      LoudFirstIsLoud(judge, events[1..]);
    }
  }

  /** No JSON text of one character is an object, let alone an error envelope. */
  ghost predicate NoTinyEnvelope(parse: Parser) {
    forall ch: char :: parse([ch]).Some? ==> !IsErrorEnvelope(parse([ch]).value)
  }

  lemma SkipChar(ch: char, blanks: set<char>)
    ensures SkipAny([ch], blanks) == if ch in blanks then "" else [ch]
    ensures SkipAny("", blanks) == ""
  {
    assert [ch][1..] == "";
  }

  lemma TinyChunksAreHarmless(parse: Parser)
    requires NoTinyEnvelope(parse)
    ensures CharsAreHarmless(AnalyserOf(parse))
  {
    forall ch: char ensures !FirstChunkError(parse, [ch]) {
      SkipChar(ch, {' ', '\t', '\r', '\n'});
      SkipChar(ch, {' ', '\t', '\r'});
    }
  }

  /** The exact condition, over all chunkings of a uniform event stream within the window: they agree
      if and only if the first non-neutral event is no output, or no event is an error and no stretch
      that can arrive before that event is complete is an error envelope by itself. */
  lemma ChunkingsAgreeIff(parse: Parser, s: string, ok: bool)
    requires Uniform(s) && |s| < MAX_BYTES && NoTinyEnvelope(parse)
    ensures AllCutsAgree(AnalyserOf(parse), s, ok) <==> CutsCannotMatter(AnalyserOf(parse), s)
  {
    ProxyShrinks(parse);
    UniformIsPrefixFree(parse, s);
    TinyChunksAreHarmless(parse);
    if CutsCannotMatter(AnalyserOf(parse), s) {
      CutsAgree(AnalyserOf(parse), s, ok);
    } else {
      LoudFirstIsLoud(AnalyserOf(parse).judge, Drain(s).events);
      var a, b := EventsPrefix(s, FirstLoud(AnalyserOf(parse).judge, Drain(s).events));
      CutsDisagree(AnalyserOf(parse), s, a, b, ok);
    }
  }

  /** Whole events of a uniform stream frame by themselves. */
  lemma EventsPrefix(s: string, n: nat) returns (a: string, b: string)
    requires Uniform(s) && n <= |Drain(s).events|
    ensures a + b == s && Drain(a) == Framed(Drain(s).events[..n], "")
  {
    a := Concat(Drain(s).events[..n]);
    b := DrainPrefix(s, n);
  }
}
