/** The text of an event: what the lines of a text and the value of a line are, in terms of the
characters alone (`str::lines` and `str::trim`, as src/service/proxy.rs uses them on its events). */
module EventText {
  import opened Text
  import opened Sse
  import opened PlainEvents

  ghost predicate Blank(c: char) {
    c == ' ' || '\t' <= c <= '\r'
  }

  /** The stretch of a text between its blank ends. */
  ghost predicate IsCore(s: string, lo: int, hi: int) {
    && 0 <= lo <= hi <= |s|
    && (forall i :: 0 <= i < lo ==> Blank(s[i]))
    && (forall i :: hi <= i < |s| ==> Blank(s[i]))
    && (lo < hi ==> !Blank(s[lo]) && !Blank(s[hi - 1]))
  }

  lemma CoreOfTail(s: string, lo: nat, hi: nat)
    requires s != "" && IsBlank(s[0]) && IsCore(s[1..], lo, hi)
    ensures IsCore(s, lo + 1, hi + 1) && s[lo + 1..hi + 1] == s[1..][lo..hi]
  {
    var t := s[1..];
    forall i | 1 <= i < |s| ensures s[i] == t[i - 1] {
    }
  }

  lemma CoreOfInit(s: string, lo: nat, hi: nat)
    requires s != "" && IsBlank(s[|s| - 1]) && IsCore(s[..|s| - 1], lo, hi)
    ensures IsCore(s, lo, hi) && s[lo..hi] == s[..|s| - 1][lo..hi]
  {
  }

  /** Trimming takes away the blanks at both ends and nothing else. */
  lemma {:induction false} TrimIsCore(s: string) returns (lo: nat, hi: nat)
    ensures IsCore(s, lo, hi) && Trim(s) == s[lo..hi]
    decreases |s|
  {
    if s != "" && IsBlank(s[0]) {
      lo, hi := TrimIsCore(s[1..]);
      CoreOfTail(s, lo, hi);
      lo, hi := lo + 1, hi + 1;
    } else if s != "" && IsBlank(s[|s| - 1]) {
      lo, hi := TrimIsCore(s[..|s| - 1]);
      CoreOfInit(s, lo, hi);
    } else {
      lo, hi := 0, |s|;
    }
  }

  // ---------- lines ----------

  /** Lines, each closed by `end`. */
  function Unlines(lines: seq<string>, end: string): string {
    if lines == [] then "" else lines[0] + end + Unlines(lines[1..], end)
  }

  /** A line that its own text does not break or close. */
  ghost predicate IsLine(line: string) {
    && (forall i :: 0 <= i < |line| ==> line[i] != '\n')
    && (line != "" ==> line[|line| - 1] != '\r')
  }

  lemma FirstLineOf(line: string, end: string, rest: string)
    requires IsLine(line) && (end == "\n" || end == "\r\n")
    ensures Lines(line + end + rest) == [line] + Lines(rest)
  {
    if end == "\n" {
      FirstBreak(line, rest);
    } else {
      ClosedByCrLf(line, rest);
    }
  }

  lemma ClosedByCrLf(line: string, rest: string)
    requires IsLine(line)
    ensures Lines(line + "\r\n" + rest) == [line] + Lines(rest)
  {
    var closed := line + "\r";
    FirstBreak(closed, rest);
    assert StripCr(closed) == line;
    assert "\r\n" == "\r" + "\n";
    assert line + "\r\n" + rest == closed + "\n" + rest;
  }

  lemma NoBreakToFind(last: string)
    requires forall i :: 0 <= i < |last| ==> last[i] != '\n'
    ensures Find(last, "\n").None?
  {
    forall j | 0 <= j < |last| ensures !OccursAt("\n", last, j) {
      assert last[j..j + 1] == [last[j]];
    }
  }

  function LastLine(last: string): seq<string> {
    if last == "" then [] else [last]
  }

  /** The round trip: lines closed by LF or CR LF, and an unclosed last one, are read back as they
      were written. */
  lemma {:induction false} LinesOfUnlines(lines: seq<string>, end: string, last: string)
    requires end == "\n" || end == "\r\n"
    requires forall k :: 0 <= k < |lines| ==> IsLine(lines[k])
    requires forall i :: 0 <= i < |last| ==> last[i] != '\n'
    ensures Lines(Unlines(lines, end) + last) == lines + LastLine(last)
    decreases lines
  {
    if lines == [] {
      NoBreakToFind(last);
      assert "" + last == last;
    } else {
      var rest := Unlines(lines[1..], end) + last;
      LinesOfUnlines(lines[1..], end, last);
      FirstLineOf(lines[0], end, rest);
      Regroup(lines[0], end, Unlines(lines[1..], end), last);
      HeadFirst(lines, LastLine(last));
    }
  }

  lemma Regroup(a: string, b: string, c: string, d: string)
    ensures a + b + c + d == a + b + (c + d)
  {
  }

  // ---------- fields ----------

  /** Line `k` carries `value` in the named field. */
  ghost predicate Carries(lines: seq<string>, k: int, name: string, value: string) {
    0 <= k < |lines| && FieldOf(lines[k], name) == Some(value)
  }

  /** A line carries a field when it starts with the field's name; its value is what stands between
      the blanks behind the name. */
  lemma CarriesIff(lines: seq<string>, k: nat, name: string, value: string)
    requires k < |lines|
    ensures Carries(lines, k, name, value) <==>
      name <= lines[k] && exists lo, hi :: IsCore(lines[k][|name|..], lo, hi) && lines[k][|name|..][lo..hi] == value
  {
    if name <= lines[k] {
      var text := lines[k][|name|..];
      var lo, hi := TrimIsCore(text);
      forall lo', hi' | IsCore(text, lo', hi') ensures text[lo'..hi'] == text[lo..hi] {
        SameCore(text, lo, hi, lo', hi');
      }
    }
  }

  lemma SameCore(s: string, lo: int, hi: int, lo': int, hi': int)
    requires IsCore(s, lo, hi) && IsCore(s, lo', hi')
    ensures s[lo..hi] == s[lo'..hi']
  {
  }
}
