/** Events of one line without line breaks in it, for the examples of streams in other modules. */
module PlainEvents {
  import opened Text
  import opened Sse

  /** Neither LF nor CR. */
  ghost predicate IsPlain(line: string) {
    forall i :: 0 <= i < |line| ==> line[i] != '\n' && line[i] != '\r'
  }

  lemma FirstBreak(line: string, rest: string)
    requires forall i :: 0 <= i < |line| ==> line[i] != '\n'
    ensures Find(line + "\n" + rest, "\n") == Some(|line|)
    ensures Lines(line + "\n" + rest) == [StripCr(line)] + Lines(rest)
  {
    var text := line + "\n" + rest;
    assert text[|line|..|line| + 1] == "\n";
    forall j | 0 <= j < |line| ensures !OccursAt("\n", text, j) {
      assert text[j..j + 1] == [line[j]];
    }
    FindIs(text, "\n", |line|);
    assert text[..|line|] == line && text[|line| + 1..] == rest;
  }

  /** A line and a blank line are one event. */
  lemma PlainEvent(line: string, rest: string)
    requires IsPlain(line)
    ensures Drain(line + LFLF + rest) == Framed([line + LFLF] + Drain(rest).events, Drain(rest).rest)
    ensures Lines(line + LFLF) == [line, ""]
  {
    var text := line + LFLF + rest;
    assert text[|line|..|line| + 2] == LFLF;
    forall j | 0 <= j < |line| ensures !OccursAt(LFLF, text, j) {
      assert j + 2 <= |text| && text[j..j + 2][0] == line[j];
    }
    FindIs(text, LFLF, |line|);
    assert text[..|line| + 2] == line + LFLF && text[|line| + 2..] == rest;
    FirstBreak(line, "\n");
    FirstBreak("", "");
    assert line + "\n" + "\n" == line + LFLF;
  }

  lemma NothingToDrain()
    ensures Drain("") == Framed([], "")
  {
  }

  /** An unfinished line stays in the buffer. */
  lemma PlainRest(x: string)
    requires IsPlain(x)
    ensures Drain(x) == Framed([], x)
  {
    forall j ensures !OccursAt(LFLF, x, j) && !OccursAt(CRLFCRLF, x, j) {
      if 0 <= j && j + 2 <= |x| {
        assert x[j..j + 2][0] == x[j];
      }
      if 0 <= j && j + 4 <= |x| {
        assert x[j..j + 4][0] == x[j];
      }
    }
  }
}
