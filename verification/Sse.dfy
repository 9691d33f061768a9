/** Framing of a server-sent event stream (src/service/proxy.rs).

Both stream consumers of the proxy keep a byte buffer, append every chunk and drain complete
events from it.  An event ends with a blank line, written LF LF or CR LF CR LF.  The search
for the end looks for LF LF in the whole buffer first, and only then for CR LF CR LF.  The
theorems below say exactly when that makes the events independent of the chunk boundaries. */
module Sse {
  import opened Text

  const LFLF: string := "\n\n"
  const CRLFCRLF: string := "\r\n\r\n"

  /** `find_event_end`: the offset just behind the blank line. */
  function FindEventEnd(buf: string): (r: Option<nat>)
    ensures r.Some? ==> 2 <= r.value <= |buf|
  {
    match Find(buf, LFLF)
    case Some(i) => Some(i + 2)
    case None =>
      match Find(buf, CRLFCRLF)
      case Some(i) => Some(i + 4)
      case None => None
  }

  // ---------- the lines of an event ----------

  function StripCr(line: string): string {
    if line != "" && line[|line| - 1] == '\r' then line[..|line| - 1] else line
  }

  /** `str::lines`. */
  function Lines(text: string): seq<string>
    decreases |text|
  {
    match Find(text, "\n")
    case Some(i) => [StripCr(text[..i])] + Lines(text[i + 1..])
    case None => if text == "" then [] else [text]
  }

  predicate IsBlank(c: char) {
    c == ' ' || '\U{0009}' <= c <= '\U{000D}'
  }

  /** `str::trim`, on ASCII whitespace. */
  function Trim(s: string): string {
    if s != "" && IsBlank(s[0]) then Trim(s[1..])
    else if s != "" && IsBlank(s[|s| - 1]) then Trim(s[..|s| - 1])
    else s
  }

  /** The trimmed value of a line with the given field name. */
  function FieldOf(line: string, name: string): Option<string> {
    if name <= line then Some(Trim(line[|name|..])) else None
  }

  // ---------- framing ----------

  datatype Framed = Framed(events: seq<string>, rest: string)

  /** The drain loop: all complete events of a buffer, and what stays in it. */
  function Drain(buf: string): Framed
    decreases |buf|
  {
    match FindEventEnd(buf)
    case None => Framed([], buf)
    case Some(q) =>
      var tail := Drain(buf[q..]);
      Framed([buf[..q]] + tail.events, tail.rest)
  }

  /** The events drained while the chunks arrive one by one, starting from an empty buffer. */
  function DrainChunks(chunks: seq<string>): Framed {
    if chunks == [] then Framed([], "")
    else
      var before := DrainChunks(chunks[..|chunks| - 1]);
      var now := Drain(before.rest + chunks[|chunks| - 1]);
      Framed(before.events + now.events, now.rest)
  }

  /** No LF LF stands behind a CR LF CR LF. */
  ghost predicate Uniform(s: string) {
    forall i, j :: OccursAt(CRLFCRLF, s, i) && OccursAt(LFLF, s, j) ==> j < i
  }

  /** An event may end just before offset `q`. */
  ghost predicate EndsAt(s: string, q: int) {
    OccursAt(LFLF, s, q - 2) || OccursAt(CRLFCRLF, s, q - 4)
  }

  // ---------- framing of uniform streams ----------

  lemma EndsAtPrefix(a: string, b: string, q: int)
    requires q <= |a|
    ensures EndsAt(a, q) <==> EndsAt(a + b, q)
  {
    OccursPrefix(LFLF, a, b, q - 2);
    OccursPrefix(CRLFCRLF, a, b, q - 4);
  }

  lemma UniformSub(a: string, b: string, c: string)
    requires Uniform(a + b + c)
    ensures Uniform(b)
  {
    forall i, j | OccursAt(CRLFCRLF, b, i) && OccursAt(LFLF, b, j) ensures j < i {
      OccursShift(CRLFCRLF, a, b, i);
      OccursShift(LFLF, a, b, j);
      OccursPrefix(CRLFCRLF, a + b, c, |a| + i);
      OccursPrefix(LFLF, a + b, c, |a| + j);
    }
  }

  /** In a uniform buffer the end found is the earliest one. */
  lemma FindsEarliest(s: string)
    requires Uniform(s)
    ensures FindEventEnd(s).Some? ==>
              EndsAt(s, FindEventEnd(s).value) && forall q :: EndsAt(s, q) ==> FindEventEnd(s).value <= q
    ensures FindEventEnd(s).None? ==> forall q :: !EndsAt(s, q)
  {
    match Find(s, LFLF)
    case Some(i) =>
      assert OccursAt(LFLF, s, i + 2 - 2);
    case None =>
      match Find(s, CRLFCRLF)
      case Some(i) => assert OccursAt(CRLFCRLF, s, i + 4 - 4);
      case None =>
  }

  /** An end that was found stays the end when more bytes arrive. */
  lemma EndIsStable(a: string, b: string)
    requires Uniform(a + b) && FindEventEnd(a).Some?
    ensures FindEventEnd(a + b) == FindEventEnd(a)
  {
    assert a + b == "" + a + b;
    UniformSub("", a, b);
    FindsEarliest(a);
    FindsEarliest(a + b);
    var q := FindEventEnd(a).value;
    EndsAtPrefix(a, b, q);
    var r := FindEventEnd(a + b).value;
    EndsAtPrefix(a, b, r);
  }

  /** Draining early and then the rest is the same as draining at once. */
  lemma {:induction false} DrainAppend(a: string, b: string)
    requires Uniform(a + b)
    ensures
      var early := Drain(a);
      var late := Drain(early.rest + b);
      Drain(a + b) == Framed(early.events + late.events, late.rest)
    decreases |a|
  {
    match FindEventEnd(a)
    case None =>
      assert [] + Drain(a + b).events == Drain(a + b).events;
    case Some(q) =>
      EndIsStable(a, b);
      var head, tail := a[..q], a[q..];
      assert (a + b)[..q] == head && (a + b)[q..] == tail + b;
      assert a + b == head + (tail + b) + "";
      UniformSub(head, tail + b, "");
      DrainAppend(tail, b);
      DrainJoin(head, Drain(tail), Drain(Drain(tail).rest + b));
  }

  lemma DrainJoin(head: string, early: Framed, late: Framed)
    ensures [head] + (early.events + late.events) == ([head] + early.events) + late.events
  {
  }

  /** Chunk invariance of uniform streams. */
  lemma {:induction false} UniformChunks(chunks: seq<string>)
    requires Uniform(Concat(chunks))
    ensures DrainChunks(chunks) == Drain(Concat(chunks))
  {
    if chunks != [] {
      var n := |chunks| - 1;
      var init, last := chunks[..n], chunks[n];
      assert chunks[..n + 1] == chunks;
      ConcatTake(chunks, n);
      assert Concat(chunks) == "" + Concat(init) + last;
      UniformSub("", Concat(init), last);
      UniformChunks(init);
      DrainAppend(Concat(init), last);
    }
  }

  /** The first `n` events of a uniform stream are a prefix of it that drains by itself. */
  lemma {:induction false} DrainPrefix(s: string, n: nat) returns (rest: string)
    requires Uniform(s) && n <= |Drain(s).events|
    ensures
      var a := Concat(Drain(s).events[..n]);
      a + rest == s && Drain(a) == Framed(Drain(s).events[..n], "")
    decreases |s|
  {
    if n == 0 {
      assert Drain(s).events[..0] == [];
      rest := s;
    } else {
      var q := FindEventEnd(s).value;
      UniformTail(s, q);
      rest := DrainPrefix(s[q..], n - 1);
      var more := Drain(s[q..]).events[..n - 1];
      TakeCons(s[..q], Drain(s[q..]).events, n);
      ConcatCons(s[..q], more);
      PrependEvent(s, q, Concat(more), more, rest);
    }
  }

  lemma UniformTail(s: string, q: nat)
    requires Uniform(s) && q <= |s|
    ensures Uniform(s[q..])
  {
    assert s == s[..q] + s[q..] + "";
    UniformSub(s[..q], s[q..], "");
  }

  lemma TakeCons(head: string, tail: seq<string>, n: nat)
    requires 0 < n <= |tail| + 1
    ensures ([head] + tail)[..n] == [head] + tail[..n - 1]
  {
  }

  lemma PrependEvent(s: string, q: nat, text: string, more: seq<string>, rest: string)
    requires Uniform(s) && FindEventEnd(s) == Some(q) && q <= |s|
    requires text + rest == s[q..] && Drain(text) == Framed(more, "")
    ensures (s[..q] + text) + rest == s
    ensures Drain(s[..q] + text) == Framed([s[..q]] + more, "")
  {
    var a := s[..q] + text;
    assert a + rest == s[..q] + (text + rest) == s;
    PrefixEnd(a, rest, q);
    assert a[..q] == s[..q] && a[q..] == text;
  }

  /** An event end found in a uniform stream is found in any prefix that reaches it. */
  lemma PrefixEnd(a: string, rest: string, q: nat)
    requires Uniform(a + rest) && FindEventEnd(a + rest) == Some(q) && q <= |a|
    ensures FindEventEnd(a) == Some(q)
  {
    assert a + rest == "" + a + rest;
    UniformSub("", a, rest);
    FindsEarliest(a + rest);
    EndsAtPrefix(a, rest, q);
    FindsEarliest(a);
    EndIsStable(a, rest);
  }

  // ---------- streams that are not uniform ----------

  /** Draining loses and reorders nothing. */
  lemma {:induction false} DrainConserves(buf: string)
    ensures Concat(Drain(buf).events) + Drain(buf).rest == buf
    decreases |buf|
  {
    match FindEventEnd(buf)
    case None =>
    case Some(q) =>
      DrainConserves(buf[q..]);
      ConcatCons(buf[..q], Drain(buf[q..]).events);
      JoinHead(buf, q, Concat(Drain(buf[q..]).events), Drain(buf[q..]).rest);
  }

  lemma JoinHead(buf: string, q: nat, x: string, y: string)
    requires q <= |buf| && x + y == buf[q..]
    ensures (buf[..q] + x) + y == buf
  {
    assert (buf[..q] + x) + y == buf[..q] + (x + y);
  }

  /** A blank line written LF LF cannot end inside a CR LF CR LF. */
  lemma NoOverlap(s: string, c: int, k: int)
    requires OccursAt(CRLFCRLF, s, c - 4) && OccursAt(LFLF, s, k)
    ensures k + 2 <= c - 4 || c < k + 2
  {
    var w := s[c - 4..c];
    assert w[0] == s[c - 4] && w[1] == s[c - 3] && w[2] == s[c - 2] && w[3] == s[c - 1];
    var v := s[k..k + 2];
    assert v[0] == s[k] && v[1] == s[k + 1];
  }

  lemma OccursDrop(tag: string, s: string, q: nat, i: int)
    requires q <= |s|
    ensures OccursAt(tag, s[q..], i) <==> 0 <= i && OccursAt(tag, s, q + i)
  {
    assert s == s[..q] + s[q..];
    OccursShift(tag, s[..q], s[q..], i);
  }

  /** A buffer that ends with its only CR LF CR LF is drained completely. */
  lemma {:induction false} DrainsToEmpty(a: string)
    requires |a| >= 4 && Find(a, CRLFCRLF) == Some(|a| - 4)
    ensures Drain(a).rest == ""
    decreases |a|
  {
    match Find(a, LFLF)
    case None =>
      assert FindEventEnd(a) == Some(|a|);
    case Some(k) =>
      NoOverlap(a, |a|, k);
      OnlyAtEnd(a, k + 2);
      DrainsToEmpty(a[k + 2..]);
  }

  lemma OnlyAtEnd(a: string, q: nat)
    requires |a| >= 4 && Find(a, CRLFCRLF) == Some(|a| - 4) && q <= |a| - 4
    ensures Find(a[q..], CRLFCRLF) == Some(|a[q..]| - 4)
  {
    var tail := a[q..];
    forall i | 0 <= i < |tail| - 4 ensures !OccursAt(CRLFCRLF, tail, i) {
      OccursDrop(CRLFCRLF, a, q, i);
    }
    OccursDrop(CRLFCRLF, a, q, |tail| - 4);
    FindIs(tail, CRLFCRLF, |tail| - 4);
  }

  /** The length of the first `m` of some events. */
  function Offset(events: seq<string>, m: nat): nat
    requires m <= |events|
  {
    |Concat(events[..m])|
  }

  lemma OffsetCons(head: string, tail: seq<string>, m: nat)
    requires 1 <= m <= |tail| + 1
    ensures Offset([head] + tail, m) == |head| + Offset(tail, m - 1)
  {
    assert ([head] + tail)[..m] == [head] + tail[..m - 1];
    ConcatCons(head, tail[..m - 1]);
  }

  /** The first LF LF ends an event, but not at the end of the CR LF CR LF. */
  lemma FirstEventSkips(s: string, c: int, j: int) returns (q: nat)
    requires OccursAt(CRLFCRLF, s, c - 4) && OccursAt(LFLF, s, j) && c - 4 < j
    ensures FindEventEnd(s) == Some(q) && 2 <= q <= |s| && q != c
    ensures q < c ==> OccursAt(CRLFCRLF, s[q..], c - q - 4) && OccursAt(LFLF, s[q..], j - q)
  {
    q := Find(s, LFLF).value + 2;
    NoOverlap(s, c, q - 2);
    if q < c {
      OccursDrop(CRLFCRLF, s, q, c - 4 - q);
      OccursDrop(LFLF, s, q, j - q);
    }
  }

  /** While an LF LF is still ahead, no event of the one-shot framing ends with the CR LF CR LF. */
  lemma {:induction false} NotAnEventEnd(s: string, c: int, j: int, m: nat)
    requires OccursAt(CRLFCRLF, s, c - 4) && OccursAt(LFLF, s, j) && c - 4 < j
    requires m <= |Drain(s).events|
    ensures Offset(Drain(s).events, m) != c
    decreases |s|
  {
    var q := FirstEventSkips(s, c, j);
    var head, tail := s[..q], s[q..];
    assert Drain(s).events == [head] + Drain(tail).events;
    if m > 0 {
      OffsetCons(head, Drain(tail).events, m);
      if q < c {
        NotAnEventEnd(tail, c - q, j - q, m - 1);
      }
    }
  }

  lemma CutChangesEvents(s: string, c: int, j: int)
    requires 4 <= c <= |s| && Find(s, CRLFCRLF) == Some(c - 4)
    requires OccursAt(LFLF, s, j) && c - 4 < j
    ensures Concat([s[..c], s[c..]]) == s
    ensures DrainChunks([s[..c], s[c..]]).events != Drain(s).events
  {
    assert s == s[..c] + s[c..];
    PrefixDrains(s, c);
    CutChangesAt(s, s[..c], s[c..], j);
  }

  lemma CutChangesAt(s: string, a: string, b: string, j: int)
    requires s == a + b && |Concat(Drain(a).events)| == |a|
    requires OccursAt(CRLFCRLF, s, |a| - 4) && OccursAt(LFLF, s, j) && |a| - 4 < j
    ensures Concat([a, b]) == s && DrainChunks([a, b]).events != Drain(s).events
  {
    TwoChunks(a, b);
    NoEventEndsThere(s, |a|, j, Drain(a).events, Drain(Drain(a).rest + b).events);
  }

  lemma NoEventEndsThere(s: string, c: int, j: int, first: seq<string>, second: seq<string>)
    requires OccursAt(CRLFCRLF, s, c - 4) && OccursAt(LFLF, s, j) && c - 4 < j && |Concat(first)| == c
    ensures first + second != Drain(s).events
  {
    OffsetAppend(first, second);
    if first + second == Drain(s).events {
      NotAnEventEnd(s, c, j, |first|);
    }
  }

  lemma OffsetAppend(first: seq<string>, second: seq<string>)
    ensures Offset(first + second, |first|) == |Concat(first)|
  {
    assert (first + second)[..|first|] == first;
  }

  lemma PrefixDrains(s: string, c: nat)
    requires 4 <= c <= |s| && Find(s, CRLFCRLF) == Some(c - 4)
    ensures |Concat(Drain(s[..c]).events)| == c
  {
    FirstEndsPrefix(s, c);
    DrainsToEmpty(s[..c]);
    DrainConserves(s[..c]);
  }

  lemma MixedEndings(s: string) returns (c: nat, j: nat)
    requires !Uniform(s)
    ensures 4 <= c <= |s| && Find(s, CRLFCRLF) == Some(c - 4)
    ensures OccursAt(LFLF, s, j) && c - 4 < j
  {
    var i :| OccursAt(CRLFCRLF, s, i) && exists j :: OccursAt(LFLF, s, j) && !(j < i);
    j :| OccursAt(LFLF, s, j) && !(j < i);
    c := Find(s, CRLFCRLF).value + 4;
    NoOverlap(s, c, j);
  }

  /** A stream that is not uniform has a cut that changes its events. */
  lemma BadCut(s: string) returns (chunks: seq<string>)
    requires !Uniform(s)
    ensures Concat(chunks) == s
    ensures DrainChunks(chunks).events != Drain(s).events
  {
    var c, j := MixedEndings(s);
    CutChangesEvents(s, c, j);
    chunks := [s[..c], s[c..]];
  }

  lemma FirstEndsPrefix(s: string, c: nat)
    requires 4 <= c <= |s| && Find(s, CRLFCRLF) == Some(c - 4)
    ensures Find(s[..c], CRLFCRLF) == Some(c - 4)
  {
    assert s == s[..c] + s[c..];
    forall x | x + 4 <= c ensures OccursAt(CRLFCRLF, s[..c], x) <==> OccursAt(CRLFCRLF, s, x) {
      OccursPrefix(CRLFCRLF, s[..c], s[c..], x);
    }
    FindIs(s[..c], CRLFCRLF, c - 4);
  }

  lemma TwoChunks(a: string, b: string)
    ensures Concat([a, b]) == a + b
    ensures DrainChunks([a, b]).events == Drain(a).events + Drain(Drain(a).rest + b).events
  {
    assert [a, b] == [a] + [b];
    ConcatAppend([a], [b]);
    ConcatOne(a);
    ConcatOne(b);
    assert [a, b][..1] == [a];
    assert [a][..0] == [];
    assert "" + a == a;
    assert [] + Drain(a).events == Drain(a).events;
    assert DrainChunks([a]) == Drain(a);
  }

  /** The exact condition: all chunkings of a stream give the same events if and only if the
      stream is uniform. */
  lemma FramingIsChunkInvariantIff(s: string)
    ensures (forall chunks :: Concat(chunks) == s ==> DrainChunks(chunks).events == Drain(s).events) <==> Uniform(s)
  {
    if Uniform(s) {
      forall chunks | Concat(chunks) == s ensures DrainChunks(chunks).events == Drain(s).events {
        UniformChunks(chunks);
      }
    } else {
      var chunks := BadCut(s);
    }
  }
}
