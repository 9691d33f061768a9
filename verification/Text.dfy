/** Text and byte-string helpers shared by the component models.

A Rust `&[u8]` is modelled as a `string` whose characters are the bytes, so that the
tags of the wire formats can be written as literals.  Every theorem quantifies over all
strings, hence over all byte strings. */
module Text {

  datatype Option<+T> = None | Some(value: T)

  /** The text of a chunked stream. */
  function Concat(chunks: seq<string>): string {
    if chunks == [] then "" else chunks[0] + Concat(chunks[1..])
  }

  lemma {:induction false} ConcatAppend(a: seq<string>, b: seq<string>)
    ensures Concat(a + b) == Concat(a) + Concat(b)
  {
    if a == [] {
      assert a + b == b;
    } else {
      assert (a + b)[1..] == a[1..] + b;
      ConcatAppend(a[1..], b);
    }
  }

  lemma ConcatSnoc(a: seq<string>, c: string)
    ensures Concat(a + [c]) == Concat(a) + c
  {
    ConcatAppend(a, [c]);
    ConcatOne(c);
  }

  lemma ConcatOne(c: string)
    ensures Concat([c]) == c && Concat([]) == ""
  {
    assert Concat([c]) == c + Concat([]);
  }

  lemma ConcatCons(c: string, t: seq<string>)
    ensures Concat([c] + t) == c + Concat(t)
  {
    assert ([c] + t)[1..] == t;
  }

  /** One more chunk. */
  lemma ConcatTake(chunks: seq<string>, i: nat)
    requires i < |chunks|
    ensures Concat(chunks[..i + 1]) == Concat(chunks[..i]) + chunks[i]
  {
    assert chunks[..i + 1] == chunks[..i] + [chunks[i]];
    ConcatSnoc(chunks[..i], chunks[i]);
  }

  lemma HeadFirst(a: seq<string>, b: seq<string>)
    requires a != []
    ensures a + b == [a[0]] + (a[1..] + b)
  {
  }

  /** `tag` stands in `s` at offset `i`. */
  predicate OccursAt(tag: string, s: string, i: int) {
    0 <= i && i + |tag| <= |s| && s[i..i + |tag|] == tag
  }

  /** `str::find`: the first occurrence. */
  function Find(s: string, tag: string): (r: Option<nat>)
    ensures r.Some? ==> OccursAt(tag, s, r.value) && forall j :: 0 <= j < r.value ==> !OccursAt(tag, s, j)
    ensures r.None? ==> forall j :: !OccursAt(tag, s, j)
  {
    FindFrom(s, tag, 0)
  }

  function FindFrom(s: string, tag: string, from: nat): (r: Option<nat>)
    requires from <= |s| + 1
    requires forall j :: 0 <= j < from ==> !OccursAt(tag, s, j)
    ensures r.Some? ==> OccursAt(tag, s, r.value) && forall j :: 0 <= j < r.value ==> !OccursAt(tag, s, j)
    ensures r.None? ==> forall j :: !OccursAt(tag, s, j)
    decreases |s| + 1 - from
  {
    if from + |tag| > |s| then None
    else if OccursAt(tag, s, from) then Some(from)
    else FindFrom(s, tag, from + 1)
  }

  /** A first occurrence is found. */
  lemma FindIs(s: string, tag: string, i: nat)
    requires OccursAt(tag, s, i)
    requires forall j :: 0 <= j < i ==> !OccursAt(tag, s, j)
    ensures Find(s, tag) == Some(i)
  {
  }

  /** Occurrences only see the characters they cover. */
  lemma OccursShift(tag: string, a: string, b: string, i: int)
    ensures OccursAt(tag, b, i) <==> 0 <= i && OccursAt(tag, a + b, |a| + i)
  {
    if 0 <= i && i + |tag| <= |b| {
      assert (a + b)[|a| + i..|a| + i + |tag|] == b[i..i + |tag|];
    }
  }

  lemma OccursPrefix(tag: string, a: string, b: string, i: int)
    requires i + |tag| <= |a|
    ensures OccursAt(tag, a, i) <==> OccursAt(tag, a + b, i)
  {
    if 0 <= i {
      assert (a + b)[i..i + |tag|] == a[i..i + |tag|];
    }
  }
}
