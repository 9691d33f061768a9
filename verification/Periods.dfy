/** Ascending grids of instants: the common shape of hours, days and months. */
module Grid {

  predicate StepsUp(f: int -> int, i: int) {
    f(i) < f(i + 1)
  }

  ghost predicate Ascending(f: int -> int) {
    forall i :: StepsUp(f, i)
  }

  lemma {:induction false} Ascends(f: int -> int, a: int, b: int)
    requires Ascending(f) && a < b
    ensures f(a) < f(b)
    decreases b - a
  {
    assert StepsUp(f, b - 1);
    if a < b - 1 {
      Ascends(f, a, b - 1);
    }
  }

  /** `x` lies in slot `i`. */
  predicate InSlot(f: int -> int, x: int, i: int) {
    f(i) <= x < f(i + 1)
  }

  lemma SlotIsUnique(f: int -> int, x: int, a: int, b: int)
    requires Ascending(f) && InSlot(f, x, a) && InSlot(f, x, b)
    ensures a == b
  {
    if a + 1 < b {
      Ascends(f, a + 1, b);
    }
    if b + 1 < a {
      Ascends(f, b + 1, a);
    }
  }

  /** Two instants share the start of their slots exactly when one lies in the slot of the other. */
  lemma SameSlotIff(f: int -> int, a: int, i: int, b: int, j: int)
    requires Ascending(f) && InSlot(f, a, i) && InSlot(f, b, j)
    ensures f(j) == f(i) <==> InSlot(f, b, i)
    ensures f(j) == f(i) <==> i == j
  {
    if InSlot(f, b, i) {
      SlotIsUnique(f, b, i, j);
    }
    if i < j {
      Ascends(f, i, j);
    }
    if j < i {
      Ascends(f, j, i);
    }
  }

  /** The slot of an instant, searched from a guess. */
  function SlotOf(f: int -> int, x: int, guess: int): (i: int)
    requires Ascending(f)
    ensures InSlot(f, x, i)
    decreases if x < f(guess) then 1 else 0, if x < f(guess) then f(guess) - x else x - f(guess)
  {
    assert StepsUp(f, guess) && StepsUp(f, guess - 1);
    if x < f(guess) then SlotOf(f, x, guess - 1)
    else if x >= f(guess + 1) then SlotOf(f, x, guess + 1)
    else guess
  }
}

/** The civil calendar, as far as `chrono` is used: days since 1970-01-01 and their months. */
module Calendar {

  predicate IsLeap(y: int) {
    y % 4 == 0 && (y % 100 != 0 || y % 400 == 0)
  }

  /** Days before January 1st of a year, counted from year 0 of the proleptic Gregorian calendar. */
  function DaysBeforeYear(y: int): int {
    365 * y + (y + 3) / 4 - (y + 99) / 100 + (y + 399) / 400
  }

  const EPOCH: int := 719528

  /** Days before the month (0-based) within its year. */
  function DaysBeforeMonth(m: int, leap: bool): nat {
    var common :=
      if m <= 0 then 0 else if m == 1 then 31 else if m == 2 then 59 else if m == 3 then 90
      else if m == 4 then 120 else if m == 5 then 151 else if m == 6 then 181 else if m == 7 then 212
      else if m == 8 then 243 else if m == 9 then 273 else if m == 10 then 304 else 334;
    common + (if leap && m >= 2 then 1 else 0)
  }

  /** The first day of a month; months are numbered consecutively, `12 * year + (month - 1)`. */
  function MonthStart(index: int): int {
    DaysBeforeYear(index / 12) + DaysBeforeMonth(index % 12, IsLeap(index / 12)) - EPOCH
  }

  lemma Multiples4(y: int)
    ensures (y + 4) / 4 - (y + 3) / 4 == if y % 4 == 0 then 1 else 0
  {
  }

  lemma Multiples100(y: int)
    ensures (y + 100) / 100 - (y + 99) / 100 == if y % 100 == 0 then 1 else 0
  {
  }

  lemma Multiples400(y: int)
    ensures (y + 400) / 400 - (y + 399) / 400 == if y % 400 == 0 then 1 else 0
  {
  }

  lemma HundredsOfFourHundreds(k: int)
    ensures (400 * k) % 100 == 0
  {
    assert 400 * k == 100 * (4 * k) + 0;
  }

  lemma FoursOfHundreds(k: int)
    ensures (100 * k) % 4 == 0
  {
    assert 100 * k == 4 * (25 * k) + 0;
  }

  lemma LeapNesting(y: int)
    ensures y % 400 == 0 ==> y % 100 == 0
    ensures y % 100 == 0 ==> y % 4 == 0
  {
    HundredsOfFourHundreds(y / 400);
    FoursOfHundreds(y / 100);
  }

  /** A year has 365 or 366 days. */
  lemma YearLength(y: int)
    ensures DaysBeforeYear(y + 1) - DaysBeforeYear(y) == if IsLeap(y) then 366 else 365
  {
    Multiples4(y);
    Multiples100(y);
    Multiples400(y);
    LeapNesting(y);
  }

  lemma NextMonthInYear(y: int, m: int)
    requires 0 <= m < 11
    ensures DaysBeforeMonth(m + 1, IsLeap(y)) - DaysBeforeMonth(m, IsLeap(y)) == DaysIn(m + 1, IsLeap(y))
  {
  }

  lemma NextIndex(index: int)
    ensures index % 12 == 11 ==> (index + 1) / 12 == index / 12 + 1 && (index + 1) % 12 == 0
    ensures index % 12 != 11 ==> (index + 1) / 12 == index / 12 && (index + 1) % 12 == index % 12 + 1
  {
  }

  /** The length of a month, 1 to 12. */
  function DaysIn(month: int, leap: bool): nat {
    if month == 2 then (if leap then 29 else 28) else if month in {4, 6, 9, 11} then 30 else 31
  }

  /** Months follow each other with the lengths of the calendar, December to January included, and
      day 0 is January 1st, 1970: this determines every month start. */
  lemma MonthLength(index: int)
    ensures MonthStart(index + 1) - MonthStart(index) == DaysIn(index % 12 + 1, IsLeap(index / 12))
    ensures MonthStart(12 * 1970) == 0
  {
    NextIndex(index);
    YearLength(index / 12);
    if index % 12 != 11 {
      NextMonthInYear(index / 12, index % 12);
    }
  }
}

/** The quota periods of a plan (src/store/plans.rs).

An instant is a real number of seconds since the epoch; every boundary is a whole second. */
module Periods {
  import opened Text
  import opened Grid
  import opened Calendar
  import Decimal

  const DAY: int := 86400

  /** The period type of a plan; an hourly plan has a length and an anchor (the epoch, or the second
      the member joined). */
  datatype Period = Hourly(hours: int, anchor: int) | Daily | Monthly | Total

  type Instant = real

  /** `timestamp()`. */
  function Seconds(now: Instant): int {
    now.Floor
  }

  function StepOf(hours: int): (s: int)
    ensures s >= 3600
  {
    (if hours < 1 then 1 else hours) * 3600
  }

  lemma MonthsAscending()
    ensures Ascending(MonthStart)
  {
    forall i ensures StepsUp(MonthStart, i) {
      MonthLength(i);
    }
  }

  /** The month of a second, numbered consecutively. */
  function MonthIndex(secs: int): int {
    MonthsAscending();
    SlotOf(MonthStart, secs / DAY, 23640)
  }

  function Year(secs: int): int {
    MonthIndex(secs) / 12
  }

  function Month(secs: int): nat {
    MonthIndex(secs) % 12 + 1
  }

  function DayOfMonth(secs: int): nat {
    MonthsAscending();
    secs / DAY - MonthStart(MonthIndex(secs)) + 1
  }

  /** `NaiveDate::from_ymd_opt(y, m, 1)` at midnight. */
  function FirstOfMonth(y: int, m: int): int {
    MonthStart(12 * y + (m - 1)) * DAY
  }

  /** `period_start`. */
  function PeriodStart(p: Period, now: Instant): int {
    var secs := Seconds(now);
    match p
    case Daily => secs / DAY * DAY
    case Monthly => FirstOfMonth(Year(secs), Month(secs))
    case Hourly(hours, anchor) =>
      var elapsed := if secs < anchor then 0 else secs - anchor;
      anchor + elapsed / StepOf(hours) * StepOf(hours)
    case Total => 0
  }

  /** `period_end`. */
  function PeriodEnd(p: Period, now: Instant): Option<int> {
    var secs := Seconds(now);
    match p
    case Daily => Some(PeriodStart(p, now) + DAY)
    case Monthly =>
      Some(if Month(secs) == 12 then FirstOfMonth(Year(secs) + 1, 1) else FirstOfMonth(Year(secs), Month(secs) + 1))
    case Hourly(hours, _) => Some(PeriodStart(p, now) + StepOf(hours))
    case Total => None
  }

  // ---------- the periods as grids ----------

  function GridAt(p: Period, i: int): int {
    match p
    case Daily => i * DAY
    case Monthly => MonthStart(i) * DAY
    case Hourly(hours, anchor) => anchor + i * StepOf(hours)
    case Total => i
  }

  function GridOf(p: Period): int -> int {
    (i: int) => GridAt(p, i)
  }

  function SlotIndex(p: Period, secs: int): int {
    match p
    case Daily => secs / DAY
    case Monthly => MonthIndex(secs)
    case Hourly(hours, anchor) => (secs - anchor) / StepOf(hours)
    case Total => 0
  }

  /** The periods count from the anchor on. */
  predicate Reached(p: Period, now: Instant) {
    p.Hourly? ==> p.anchor <= Seconds(now)
  }

  lemma OneMore(i: int, step: int)
    ensures (i + 1) * step == i * step + step
  {
  }

  lemma GridAscends(p: Period)
    ensures Ascending(GridOf(p))
  {
    forall i ensures StepsUp(GridOf(p), i) {
      match p
      case Hourly(hours, _) => OneMore(i, StepOf(hours));
      case Monthly => MonthLength(i);
      case _ =>
    }
  }

  /** Division finds the multiple at or below. */
  lemma DivisionSlot(x: int, step: int)
    requires step > 0
    ensures x / step * step <= x < x / step * step + step
  {
  }

  lemma MonthlySlot(secs: int)
    ensures MonthStart(MonthIndex(secs)) * DAY <= secs < MonthStart(MonthIndex(secs) + 1) * DAY
  {
    var day := secs / DAY;
    assert MonthStart(MonthIndex(secs)) <= day <= MonthStart(MonthIndex(secs) + 1) - 1;
    DivisionSlot(secs, DAY);
  }

  lemma HourlyStartAndEnd(hours: int, anchor: int, now: Instant)
    requires anchor <= Seconds(now)
    ensures
      var p := Hourly(hours, anchor);
      var i := SlotIndex(p, Seconds(now));
      && PeriodStart(p, now) == GridAt(p, i)
      && PeriodEnd(p, now) == Some(GridAt(p, i + 1))
      && GridAt(p, i) <= Seconds(now) < GridAt(p, i + 1)
  {
    var step := StepOf(hours);
    var x := Seconds(now) - anchor;
    DivisionSlot(x, step);
    OneMore(x / step, step);
  }

  lemma MonthlyStart(now: Instant)
    ensures PeriodStart(Monthly, now) == GridAt(Monthly, MonthIndex(Seconds(now)))
  {
    YearMonthIndex(MonthIndex(Seconds(now)));
  }

  lemma MonthlyEnd(now: Instant)
    ensures PeriodEnd(Monthly, now) == Some(GridAt(Monthly, MonthIndex(Seconds(now)) + 1))
  {
    YearMonthIndex(MonthIndex(Seconds(now)));
  }

  lemma MonthlyStartAndEnd(now: Instant)
    ensures
      var i := MonthIndex(Seconds(now));
      && PeriodStart(Monthly, now) == GridAt(Monthly, i)
      && PeriodEnd(Monthly, now) == Some(GridAt(Monthly, i + 1))
      && GridAt(Monthly, i) <= Seconds(now) < GridAt(Monthly, i + 1)
  {
    MonthlyStart(now);
    MonthlyEnd(now);
    MonthlySlot(Seconds(now));
  }

  /** Start and end are neighbouring grid points around the instant. */
  lemma StartAndEnd(p: Period, now: Instant)
    requires !p.Total? && Reached(p, now)
    ensures
      var i := SlotIndex(p, Seconds(now));
      && PeriodStart(p, now) == GridAt(p, i)
      && PeriodEnd(p, now) == Some(GridAt(p, i + 1))
      && GridAt(p, i) <= Seconds(now) < GridAt(p, i + 1)
  {
    match p
    case Daily => DivisionSlot(Seconds(now), DAY);
    case Hourly(hours, anchor) => HourlyStartAndEnd(hours, anchor, now);
    case Monthly => MonthlyStartAndEnd(now);
  }

  /** The length of a period, in seconds: a day, the days of its month, or the plan's hours, but at
      least one. */
  function LengthOf(p: Period, now: Instant): int {
    match p
    case Daily => 24 * 60 * 60
    case Monthly => DaysIn(Month(Seconds(now)), IsLeap(Year(Seconds(now)))) * 24 * 60 * 60
    case Hourly(hours, _) => if hours <= 0 then 60 * 60 else hours * 60 * 60
    case Total => 0
  }

  /** A period lasts that long. */
  lemma PeriodLengths(p: Period, now: Instant)
    requires !p.Total?
    ensures PeriodEnd(p, now) == Some(PeriodStart(p, now) + LengthOf(p, now))
  {
    match p
    case Monthly => MonthlyLength(now);
    case _ =>
  }

  lemma MonthlyLength(now: Instant)
    ensures PeriodEnd(Monthly, now) == Some(PeriodStart(Monthly, now) + LengthOf(Monthly, now))
  {
    MonthlyStart(now);
    MonthlyEnd(now);
    MonthInSeconds(MonthIndex(Seconds(now)));
  }

  lemma MonthInSeconds(i: int)
    ensures GridAt(Monthly, i + 1) - GridAt(Monthly, i) == DaysIn(i % 12 + 1, IsLeap(i / 12)) * 24 * 60 * 60
  {
    MonthLength(i);
    Distribute(MonthStart(i), MonthStart(i + 1), DAY);
  }

  lemma Distribute(a: int, b: int, n: int)
    ensures b * n - a * n == (b - a) * n
  {
  }

  /** Year and month name the month, and the month after December is January of the next year. */
  lemma YearMonthIndex(index: int)
    ensures 12 * (index / 12) + (index % 12 + 1 - 1) == index
    ensures index % 12 + 1 == 12 ==> 12 * (index / 12 + 1) == index + 1
    ensures index % 12 + 1 != 12 ==> 12 * (index / 12) + (index % 12 + 1 + 1 - 1) == index + 1
  {
  }

  lemma FloorBounds(now: Instant, lo: int, hi: int)
    ensures lo <= Seconds(now) < hi <==> lo as real <= now < hi as real
  {
  }

  /** Buckets partition time: an instant lies in its period, and another instant has the same start
      exactly when it lies in the same period. */
  lemma PeriodsPartitionTime(p: Period, now: Instant, other: Instant)
    requires !p.Total? && Reached(p, now) && Reached(p, other)
    ensures PeriodEnd(p, now).Some?
    ensures PeriodStart(p, now) as real <= now < PeriodEnd(p, now).value as real
    ensures PeriodStart(p, other) == PeriodStart(p, now) <==>
              PeriodStart(p, now) as real <= other < PeriodEnd(p, now).value as real
  {
    var i, start, end := Located(p, now);
    var j, start', end' := Located(p, other);
    GridAscends(p);
    SameSlotIff(GridOf(p), Seconds(now), i, Seconds(other), j);
    FloorBounds(now, start, end);
    FloorBounds(other, start, end);
  }

  /** The slot of an instant, with its start and end. */
  lemma Located(p: Period, now: Instant) returns (i: int, start: int, end: int)
    requires !p.Total? && Reached(p, now)
    ensures PeriodStart(p, now) == start && PeriodEnd(p, now) == Some(end)
    ensures GridOf(p)(i) == start && GridOf(p)(i + 1) == end
    ensures start <= Seconds(now) < end
  {
    StartAndEnd(p, now);
    i := SlotIndex(p, Seconds(now));
    start, end := GridAt(p, i), GridAt(p, i + 1);
  }

  /** The end of a period is the start of the next. */
  lemma EndStartsNext(p: Period, now: Instant)
    requires !p.Total? && Reached(p, now)
    ensures PeriodEnd(p, now).Some? && PeriodStart(p, PeriodEnd(p, now).value as real) == PeriodEnd(p, now).value
  {
    var i, _, end := Located(p, now);
    assert Seconds(end as real) == end;
    var j, start', _ := Located(p, end as real);
    GridAscends(p);
    assert StepsUp(GridOf(p), i + 1);
    SlotIsUnique(GridOf(p), end, i + 1, j);
  }

  /** An hourly period starts after the instant exactly before the anchor. */
  lemma StartsInFutureIff(hours: int, anchor: int, now: Instant)
    ensures PeriodStart(Hourly(hours, anchor), now) as real > now <==> Seconds(now) < anchor
  {
    var p := Hourly(hours, anchor);
    if Seconds(now) < anchor {
      assert 0 / StepOf(hours) == 0;
      assert PeriodStart(p, now) == anchor;
    } else {
      StartAndEnd(p, now);
    }
  }

  /** The reload window `(now - N hours, now]` holds exactly one point of the grid: the start of the
      current period. */
  lemma ReloadWindowHoldsStart(hours: int, anchor: int, now: Instant, i: int)
    requires hours >= 1 && anchor <= Seconds(now)
    ensures
      var p := Hourly(hours, anchor);
      now - (hours * 3600) as real < GridAt(p, i) as real <= now <==> GridAt(p, i) == PeriodStart(p, now)
  {
    var p := Hourly(hours, anchor);
    var step := StepOf(hours);
    assert step == hours * 3600;
    var j, start, end := Located(p, now);
    GridAscends(p);
    var f := GridOf(p);
    OneMore(i, step);
    OneMore(j, step);
    FloorBounds(now, f(i), f(i) + step);
    if f(i) <= Seconds(now) < f(i) + step {
      SlotIsUnique(f, Seconds(now), i, j);
    }
  }

  // ---------- period keys ----------

  /** The ISO form of a year: four digits, or a sign outside 0..9999. */
  function YearText(y: int): string {
    if 0 <= y <= 9999 then Decimal.Pad(y, 4) else if y < 0 then "-" + Decimal.Pad(-y, 4) else "+" + Decimal.Pad(y, 4)
  }

  /** `period_key`. */
  function PeriodKey(p: Period, now: Instant): string {
    var secs := Seconds(now);
    match p
    case Hourly(_, _) => "h:" + Decimal.Show(PeriodStart(p, now))
    case Daily => "d:" + DayText(secs)
    case Monthly => "m:" + MonthText(secs)
    case Total => "t"
  }

  function DayText(secs: int): string {
    DateText(Year(secs), Month(secs), DayOfMonth(secs))
  }

  function MonthText(secs: int): string {
    Decimal.Show(Year(secs)) + ("-" + Decimal.Pad(Month(secs), 2))
  }

  lemma SameEnds(a: string, x: string, b: string, y: string)
    requires |x| == |y| && a + x == b + y
    ensures a == b && x == y
  {
    assert (a + x)[..|a|] == a && (b + y)[..|b|] == b;
    assert (a + x)[|a|..] == x && (b + y)[|b|..] == y;
  }

  lemma TwoDigits(n: nat)
    requires n < 100
    ensures |Decimal.Pad(n, 2)| == 2
  {
    Decimal.ZerosLength(2 - |Decimal.Digits(n)|);
    if n >= 10 {
      assert |Decimal.Digits(n / 10)| == 1;
    }
  }

  lemma PadInjective(a: nat, b: nat, width: nat)
    requires Decimal.Pad(a, width) == Decimal.Pad(b, width)
    ensures a == b
  {
    Decimal.ReadPad(a, width);
    Decimal.ReadPad(b, width);
  }

  lemma {:induction false} ZerosAreDigits(k: int)
    ensures forall i :: 0 <= i < |Decimal.Zeros(k)| ==> Decimal.Zeros(k)[i] == '0'
  {
    if k > 0 {
      ZerosAreDigits(k - 1);
    }
  }

  lemma PadStartsWithDigit(n: nat, width: nat)
    ensures Decimal.Pad(n, width) != "" && '0' <= Decimal.Pad(n, width)[0] <= '9'
  {
    ZerosAreDigits(width - |Decimal.Digits(n)|);
  }

  lemma YearTextInjective(a: int, b: int)
    requires YearText(a) == YearText(b)
    ensures a == b
  {
    var x, y := if a < 0 then -a else a, if b < 0 then -b else b;
    PadStartsWithDigit(x, 4);
    PadStartsWithDigit(y, 4);
    assert YearText(a)[0] == YearText(b)[0];
    if 0 <= a <= 9999 {
      PadInjective(x, y, 4);
    } else {
      assert YearText(a)[1..] == Decimal.Pad(x, 4) && YearText(b)[1..] == Decimal.Pad(y, 4);
      PadInjective(x, y, 4);
    }
  }

  /** Month and day are within the calendar's bounds. */
  lemma DateBounds(secs: int)
    ensures 1 <= Month(secs) <= 12 && 1 <= DayOfMonth(secs) <= 31
  {
    MonthLength(MonthIndex(secs));
  }

  lemma MonthTextInjective(ya: string, ma: nat, yb: string, mb: nat)
    requires ma < 100 && mb < 100
    requires ya + ("-" + Decimal.Pad(ma, 2)) == yb + ("-" + Decimal.Pad(mb, 2))
    ensures ya == yb && ma == mb
  {
    TwoDigits(ma);
    TwoDigits(mb);
    SameEnds(ya, "-" + Decimal.Pad(ma, 2), yb, "-" + Decimal.Pad(mb, 2));
    SameEnds("-", Decimal.Pad(ma, 2), "-", Decimal.Pad(mb, 2));
    PadInjective(ma, mb, 2);
  }

  lemma MonthKeyInjective(a: int, b: int)
    requires MonthText(a) == MonthText(b)
    ensures MonthIndex(a) == MonthIndex(b)
  {
    DateBounds(a);
    DateBounds(b);
    MonthTextInjective(Decimal.Show(Year(a)), Month(a), Decimal.Show(Year(b)), Month(b));
    Decimal.ShowInjective(Year(a), Year(b));
  }

  /** The text of a date. */
  function DateText(y: int, m: nat, d: nat): string {
    YearText(y) + ("-" + Decimal.Pad(m, 2)) + ("-" + Decimal.Pad(d, 2))
  }

  lemma DateTextInjective(y: int, m: nat, d: nat, y': int, m': nat, d': nat)
    requires m < 100 && d < 100 && m' < 100 && d' < 100 && DateText(y, m, d) == DateText(y', m', d')
    ensures y == y' && m == m' && d == d'
  {
    MonthTextInjective(YearText(y) + ("-" + Decimal.Pad(m, 2)), d, YearText(y') + ("-" + Decimal.Pad(m', 2)), d');
    MonthTextInjective(YearText(y), m, YearText(y'), m');
    YearTextInjective(y, y');
  }

  lemma DayKeyInjective(a: int, b: int)
    requires DayText(a) == DayText(b)
    ensures a / DAY == b / DAY
  {
    DateBounds(a);
    DateBounds(b);
    DateTextInjective(Year(a), Month(a), DayOfMonth(a), Year(b), Month(b), DayOfMonth(b));
    assert MonthIndex(a) == MonthIndex(b);
  }

  lemma SamePrefixIff(tag: string, a: string, b: string)
    ensures tag + a == tag + b <==> a == b
  {
    assert (tag + a)[|tag|..] == a && (tag + b)[|tag|..] == b;
  }

  /** Two instants share their period key exactly when they share their period start, so counters
      kept by key are counters kept by period. */
  lemma KeyIffStart(p: Period, a: Instant, b: Instant)
    ensures PeriodKey(p, a) == PeriodKey(p, b) <==> PeriodStart(p, a) == PeriodStart(p, b)
  {
    var x, y := Seconds(a), Seconds(b);
    match p
    case Total =>
    case Hourly(_, _) =>
      if PeriodKey(p, a) == PeriodKey(p, b) {
        SamePrefixIff("h:", Decimal.Show(PeriodStart(p, a)), Decimal.Show(PeriodStart(p, b)));
        Decimal.ShowInjective(PeriodStart(p, a), PeriodStart(p, b));
      }
    case Monthly => MonthlyKeyIffStart(a, b);
    case Daily => DailyKeyIffStart(a, b);
  }

  lemma SameMonthIffStart(a: Instant, b: Instant)
    ensures MonthIndex(Seconds(a)) == MonthIndex(Seconds(b)) <==> PeriodStart(Monthly, a) == PeriodStart(Monthly, b)
  {
    var x, y := Seconds(a), Seconds(b);
    MonthlyStartAndEnd(a);
    MonthlyStartAndEnd(b);
    GridAscends(Monthly);
    SameSlotIff(GridOf(Monthly), x, MonthIndex(x), y, MonthIndex(y));
  }

  lemma MonthlyKeyIffStart(a: Instant, b: Instant)
    ensures PeriodKey(Monthly, a) == PeriodKey(Monthly, b) <==> PeriodStart(Monthly, a) == PeriodStart(Monthly, b)
  {
    SameMonthIffStart(a, b);
    SameMonthIffText(Seconds(a), Seconds(b));
    SamePrefixIff("m:", MonthText(Seconds(a)), MonthText(Seconds(b)));
  }

  lemma SameMonthIffText(x: int, y: int)
    ensures MonthText(x) == MonthText(y) <==> MonthIndex(x) == MonthIndex(y)
  {
    if MonthText(x) == MonthText(y) {
      MonthKeyInjective(x, y);
    }
  }

  lemma DailyKeyIffStart(a: Instant, b: Instant)
    ensures PeriodKey(Daily, a) == PeriodKey(Daily, b) <==> PeriodStart(Daily, a) == PeriodStart(Daily, b)
  {
    SameDayIffText(Seconds(a), Seconds(b));
    SamePrefixIff("d:", DayText(Seconds(a)), DayText(Seconds(b)));
  }

  lemma SameDayIffText(x: int, y: int)
    ensures DayText(x) == DayText(y) <==> x / DAY == y / DAY
  {
    if DayText(x) == DayText(y) {
      DayKeyInjective(x, y);
    }
  }
}
