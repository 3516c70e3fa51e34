/**
 * parseDate and the date tie-break shared by three of the concert comparators.
 *
 * parseDate tries five layouts of Go's time.Parse in a fixed order. The layout
 * "2006-01-02" is given a concrete model (`ParseDateOnly`); the other four
 * (RFC 3339, "02/01/2006", "02 Jan 2006", "January 2, 2006") stay with the
 * library and are a parameter of the model, the `Oracle`. Instants are counted
 * in nanoseconds since 1970-01-01T00:00:00Z, as Go's time.Time resolves
 * them; they are only ever compared.
 */
module Dates {
  import opened Wrappers
  import opened GoStrings
  import opened Keys

  datatype Layout = DateOnly | RFC3339 | DaySlashMonth | DayMonthAbbrev | MonthNameDay

  /** The layouts parseDate tries, in order. */
  const Layouts: seq<Layout> := [DateOnly, RFC3339, DaySlashMonth, DayMonthAbbrev, MonthNameDay]

  /** Nanoseconds since the Unix epoch, UTC. */
  type Instant = int

  /** time.Parse for the layouts that are not modelled concretely. */
  type Oracle = (Layout, string) -> Option<Instant>

  /** time.Time{}, January 1 of year 1, 00:00:00 UTC. */
  const ZeroTime: Instant := -62135596800 * NanosPerSecond

  const NanosPerSecond := 1_000_000_000

  /** The (time.Time, bool) pair parseDate returns. */
  datatype ParsedDate = ParsedDate(t: Instant, ok: bool)

  // ---------------------------------------------------------------------------
  // The layout "2006-01-02"

  predicate IsDigit(c: char) {
    '0' <= c <= '9'
  }

  function Digit(c: char): nat
    requires IsDigit(c)
  {
    c as int - '0' as int
  }

  predicate IsLeap(y: int) {
    y % 4 == 0 && (y % 100 != 0 || y % 400 == 0)
  }

  function DaysIn(m: int, y: int): nat
    requires 1 <= m <= 12
  {
    if m == 2 then (if IsLeap(y) then 29 else 28)
    else if m == 4 || m == 6 || m == 9 || m == 11 then 30
    else 31
  }

  /** Days from January 1 to the first of month `m`. */
  function DaysBeforeMonth(m: int, y: int): nat
    requires 1 <= m <= 13
  {
    if m == 1 then 0 else DaysBeforeMonth(m - 1, y) + DaysIn(m - 1, y)
  }

  /** Days from 0000-01-01 to January 1 of year `y` in the proleptic Gregorian calendar. */
  function DaysBeforeYear(y: nat): nat {
    365 * y + (y + 3) / 4 - (y + 99) / 100 + (y + 399) / 400
  }

  /** DaysBeforeYear(1970). */
  const EpochDays := 719528

  function DayNumber(y: nat, m: int, d: int): int
    requires 1 <= m <= 12
  {
    DaysBeforeYear(y) + DaysBeforeMonth(m, y) + d - 1
  }

  /** Midnight UTC of y-m-d as Unix nanoseconds. */
  function UnixNanos(y: nat, m: int, d: int): Instant
    requires 1 <= m <= 12
  {
    (DayNumber(y, m, d) - EpochDays) * 86400 * NanosPerSecond
  }

  /** Exactly ten characters laid out as dddd-dd-dd. */
  predicate DateOnlyShape(s: string) {
    && |s| == 10 && s[4] == '-' && s[7] == '-'
    && IsDigit(s[0]) && IsDigit(s[1]) && IsDigit(s[2]) && IsDigit(s[3])
    && IsDigit(s[5]) && IsDigit(s[6]) && IsDigit(s[8]) && IsDigit(s[9])
  }

  function YearOf(s: string): nat
    requires DateOnlyShape(s)
  {
    1000 * Digit(s[0]) + 100 * Digit(s[1]) + 10 * Digit(s[2]) + Digit(s[3])
  }

  function MonthOf(s: string): nat
    requires DateOnlyShape(s)
  {
    10 * Digit(s[5]) + Digit(s[6])
  }

  function DayOf(s: string): nat
    requires DateOnlyShape(s)
  {
    10 * Digit(s[8]) + Digit(s[9])
  }

  /** A real calendar day: month 1..12 and day 1..length of that month. */
  predicate ValidDateOnly(s: string) {
    DateOnlyShape(s) && 1 <= MonthOf(s) <= 12 && 1 <= DayOf(s) <= DaysIn(MonthOf(s), YearOf(s))
  }

  /** time.Parse("2006-01-02", s): four-digit year, two-digit month and day,
      month and day in range, nothing left over. */
  function ParseDateOnly(s: string): Option<Instant> {
    if ValidDateOnly(s) then Some(UnixNanos(YearOf(s), MonthOf(s), DayOf(s))) else None
  }

  lemma {:induction false} DaysBeforeMonthIncreasing(m1: int, m2: int, y: int)
    requires 1 <= m1 < m2 <= 13
    ensures DaysBeforeMonth(m1, y) + DaysIn(m1, y) <= DaysBeforeMonth(m2, y)
  {
    if m1 + 1 < m2 {
      DaysBeforeMonthIncreasing(m1, m2 - 1, y);
    }
  }

  lemma YearLength(y: int)
    ensures DaysBeforeMonth(13, y) == if IsLeap(y) then 366 else 365
  {
    assert DaysBeforeMonth(2, y) == 31;
    assert DaysBeforeMonth(3, y) == DaysIn(2, y) + 31;
    assert DaysBeforeMonth(4, y) == DaysIn(2, y) + 62;
    assert DaysBeforeMonth(5, y) == DaysIn(2, y) + 92;
    assert DaysBeforeMonth(6, y) == DaysIn(2, y) + 123;
    assert DaysBeforeMonth(7, y) == DaysIn(2, y) + 153;
    assert DaysBeforeMonth(8, y) == DaysIn(2, y) + 184;
    assert DaysBeforeMonth(9, y) == DaysIn(2, y) + 215;
    assert DaysBeforeMonth(10, y) == DaysIn(2, y) + 245;
    assert DaysBeforeMonth(11, y) == DaysIn(2, y) + 276;
    assert DaysBeforeMonth(12, y) == DaysIn(2, y) + 306;
    assert DaysBeforeMonth(13, y) == DaysIn(2, y) + 337;
  }

  lemma YearStep(y: nat)
    ensures DaysBeforeYear(y + 1) == DaysBeforeYear(y) + DaysBeforeMonth(13, y)
  {
    YearLength(y);
    var q4, r4 := y / 4, y % 4;
    var q100, r100 := y / 100, y % 100;
    var q400, r400 := y / 400, y % 400;
    assert (y + 4) / 4 - (y + 3) / 4 == if r4 == 0 then 1 else 0;
    assert (y + 100) / 100 - (y + 99) / 100 == if r100 == 0 then 1 else 0;
    assert (y + 400) / 400 - (y + 399) / 400 == if r400 == 0 then 1 else 0;
  }

  lemma {:induction false} YearsIncreasing(y1: nat, y2: nat)
    requires y1 < y2
    ensures DaysBeforeYear(y1) + DaysBeforeMonth(13, y1) <= DaysBeforeYear(y2)
    decreases y2 - y1
  {
    YearStep(y1);
    if y1 + 1 < y2 {
      YearsIncreasing(y1 + 1, y2);
      YearStep(y1 + 1);
    }
  }

  /** Later calendar days have larger day numbers. */
  lemma DayNumberIncreasing(y1: nat, m1: int, d1: int, y2: nat, m2: int, d2: int)
    requires 1 <= m1 <= 12 && 1 <= d1 <= DaysIn(m1, y1)
    requires 1 <= m2 <= 12 && 1 <= d2 <= DaysIn(m2, y2)
    requires y1 < y2 || (y1 == y2 && m1 < m2) || (y1 == y2 && m1 == m2 && d1 < d2)
    ensures DayNumber(y1, m1, d1) < DayNumber(y2, m2, d2)
  {
    if y1 < y2 {
      DaysBeforeMonthIncreasing(m1, 13, y1);
      YearsIncreasing(y1, y2);
    } else if m1 < m2 {
      DaysBeforeMonthIncreasing(m1, m2, y1);
    }
  }

  /** On two strings of equal length that agree before position k and differ at k,
      Go's `<` is decided by position k. */
  lemma {:induction false} StrLessAtFirstDifference(s: string, t: string, k: nat)
    requires |s| == |t| && k < |s| && s[..k] == t[..k] && s[k] != t[k]
    ensures StrLess(s, t) <==> s[k] < t[k]
  {
    if k > 0 {
      assert s[0] == s[..k][0] == t[..k][0] == t[0];
      assert s[1..][..k - 1] == s[..k][1..] == t[..k][1..] == t[1..][..k - 1];
      StrLessAtFirstDifference(s[1..], t[1..], k - 1);
    }
  }

  /** Two dddd-dd-dd strings compare under Go's `<` as their (year, month, day) triples. */
  lemma DateOnlyTextOrder(s: string, t: string)
    requires DateOnlyShape(s) && DateOnlyShape(t)
    ensures StrLess(s, t) <==>
      (YearOf(s) < YearOf(t)
       || (YearOf(s) == YearOf(t) && MonthOf(s) < MonthOf(t))
       || (YearOf(s) == YearOf(t) && MonthOf(s) == MonthOf(t) && DayOf(s) < DayOf(t)))
  {
    if s == t {
      StrLessIrreflexive(s);
    } else {
      var k :| 0 <= k < 10 && s[k] != t[k] && forall j :: 0 <= j < k ==> s[j] == t[j] by {
        FirstDifference(s, t);
      }
      assert s[..k] == t[..k];
      StrLessAtFirstDifference(s, t, k);
    }
  }

  lemma FirstDifference(s: string, t: string)
    requires |s| == |t| && s != t
    ensures exists k :: 0 <= k < |s| && s[k] != t[k] && forall j :: 0 <= j < k ==> s[j] == t[j]
  {
    var k :| 0 <= k < |s| && s[k] != t[k];
    var m := 0;
    while s[m] == t[m]
      invariant 0 <= m <= k
      invariant forall j :: 0 <= j < m ==> s[j] == t[j]
      decreases k - m
    {
      m := m + 1;
    }
  }

  /** For valid dddd-dd-dd dates, comparing parsed instants is comparing the raw strings. */
  lemma DateOnlyInstantOrder(s: string, t: string)
    requires ValidDateOnly(s) && ValidDateOnly(t)
    ensures ParseDateOnly(s).Some? && ParseDateOnly(t).Some?
    ensures ParseDateOnly(s).value < ParseDateOnly(t).value <==> StrLess(s, t)
    ensures ParseDateOnly(s).value == ParseDateOnly(t).value <==> s == t
  {
    DateOnlyTextOrder(s, t);
    DateOnlyTextOrder(t, s);
    var y1, m1, d1 := YearOf(s), MonthOf(s), DayOf(s);
    var y2, m2, d2 := YearOf(t), MonthOf(t), DayOf(t);
    if y1 < y2 || (y1 == y2 && m1 < m2) || (y1 == y2 && m1 == m2 && d1 < d2) {
      DayNumberIncreasing(y1, m1, d1, y2, m2, d2);
    } else if y2 < y1 || (y1 == y2 && m2 < m1) || (y1 == y2 && m1 == m2 && d2 < d1) {
      DayNumberIncreasing(y2, m2, d2, y1, m1, d1);
    }
    if s != t {
      StrLessTotal(s, t);
    } else {
      StrLessIrreflexive(s);
    }
  }

  // ---------------------------------------------------------------------------
  // parseDate

  /** time.Parse(l, s) */
  function TimeParse(oracle: Oracle, l: Layout, s: string): Option<Instant> {
    if l == DateOnly then ParseDateOnly(s) else oracle(l, s)
  }

  /** The result of trying the layouts `ls` in order: the first parse that succeeds,
      or the zero time and false. */
  function FirstParse(oracle: Oracle, ls: seq<Layout>, s: string): (r: ParsedDate)
    ensures r.ok <==> exists i :: 0 <= i < |ls| && TimeParse(oracle, ls[i], s).Some?
    ensures r.ok ==> exists i :: 0 <= i < |ls| && TimeParse(oracle, ls[i], s) == Some(r.t)
                                  && forall j :: 0 <= j < i ==> TimeParse(oracle, ls[j], s).None?
    ensures !r.ok ==> r.t == ZeroTime
  {
    if ls == [] then ParsedDate(ZeroTime, false)
    else match TimeParse(oracle, ls[0], s)
      case Some(t) => ParsedDate(t, true)
      case None =>
        var r := FirstParse(oracle, ls[1..], s);
        assert forall i :: 1 <= i < |ls| ==> ls[i] == ls[1..][i - 1];
        if r.ok then
          var i :| 0 <= i < |ls[1..]| && TimeParse(oracle, ls[1..][i], s) == Some(r.t)
                   && forall j :: 0 <= j < i ==> TimeParse(oracle, ls[1..][j], s).None?;
          assert TimeParse(oracle, ls[i + 1], s) == Some(r.t);
          r
        else r
  }

  /** parseDate(s): loops over the layouts and returns at the first success. */
  method ParseDate(oracle: Oracle, s: string) returns (t: Instant, ok: bool)
    ensures ParsedDate(t, ok) == FirstParse(oracle, Layouts, s)
  {
    var layouts := Layouts;
    for i := 0 to |layouts|
      invariant FirstParse(oracle, layouts[i..], s) == FirstParse(oracle, layouts, s)
    {
      var r := TimeParse(oracle, layouts[i], s);
      if r.Some? {
        return r.value, true;
      }
      assert layouts[i..][1..] == layouts[i + 1..];
    }
    return ZeroTime, false;
  }

  // ---------------------------------------------------------------------------
  // The date tie-break

  /** The date as a link of a key chain: its instant if it parses, its raw text otherwise. */
  function DatePart(oracle: Oracle, s: string): Part {
    var p := FirstParse(oracle, Layouts, s);
    if p.ok then Parsed(p.t) else Unparsed(s)
  }

  /** The date step of the comparators: Some(less) when the dates decide,
      None when they are equal and the comparison falls through. */
  function DateTieBreak(oracle: Oracle, a: string, b: string): Option<bool> {
    var p, q := FirstParse(oracle, Layouts, a), FirstParse(oracle, Layouts, b);
    if p.ok && q.ok then
      (if p.t != q.t then Some(p.t < q.t) else None)
    else if p.ok != q.ok then Some(p.ok)
    else if a != b then Some(StrLess(a, b))
    else None
  }

  /** The tie-break decides exactly when the date parts differ, and then as the
      key order on date parts does: earlier instant first, parsed before unparsed,
      unparsed by raw text. */
  lemma DateTieBreakIsPartOrder(oracle: Oracle, a: string, b: string)
    ensures var pa, pb := DatePart(oracle, a), DatePart(oracle, b);
      DateTieBreak(oracle, a, b) == if pa == pb then None else Some(PartLess(pa, pb))
  {
  }

  /** Between two dddd-dd-dd dates the tie-break is plain text order, because
      "2006-01-02" is the first layout tried. */
  lemma DateOnlyTieBreakIsTextOrder(oracle: Oracle, a: string, b: string)
    requires ValidDateOnly(a) && ValidDateOnly(b)
    ensures DateTieBreak(oracle, a, b) == if a == b then None else Some(StrLess(a, b))
  {
    DateOnlyInstantOrder(a, b);
  }

  /** "2006-01-02" checks the calendar: February 30 never exists and February 29
      only in leap years. */
  lemma DateOnlyCalendarExamples()
    ensures ParseDateOnly("2024-02-30").None?
    ensures ParseDateOnly("2023-02-29").None?
    ensures ParseDateOnly("2024-02-29").Some?
  {
    var a, b, c := "2024-02-30", "2023-02-29", "2024-02-29";
    assert DateOnlyShape(a) && YearOf(a) == 2024 && MonthOf(a) == 2 && DayOf(a) == 30;
    assert DateOnlyShape(b) && YearOf(b) == 2023 && MonthOf(b) == 2 && DayOf(b) == 29;
    assert DateOnlyShape(c) && YearOf(c) == 2024 && MonthOf(c) == 2 && DayOf(c) == 29;
  }

  /** A string that "2006-01-02" rejects and that the oracle rejects in every other layout does not parse. */
  lemma NoLayoutParses(oracle: Oracle, s: string)
    requires ParseDateOnly(s).None?
    requires forall l :: l != DateOnly ==> oracle(l, s).None?
    ensures !FirstParse(oracle, Layouts, s).ok
  {
    forall i | 0 <= i < |Layouts|
      ensures TimeParse(oracle, Layouts[i], s).None?
    {
    }
  }

  /** Sample dates: "2024-01-05" sorts before "2024-03-01". */
  lemma DateOnlyExample(oracle: Oracle)
    ensures DateTieBreak(oracle, "2024-01-05", "2024-03-01") == Some(true)
  {
    var a, b := "2024-01-05", "2024-03-01";
    assert DateOnlyShape(a) && YearOf(a) == 2024 && MonthOf(a) == 1 && DayOf(a) == 5;
    assert DateOnlyShape(b) && YearOf(b) == 2024 && MonthOf(b) == 3 && DayOf(b) == 1;
    DateOnlyTieBreakIsTextOrder(oracle, a, b);
    DateOnlyTextOrder(a, b);
  }

  /** Sample dates: a date no layout accepts sorts after one that parses, and two
      such dates sort by their text ("later" before "soon"). */
  lemma UnparsedExamples(oracle: Oracle)
    requires forall l :: l != DateOnly ==> oracle(l, "soon").None? && oracle(l, "later").None?
    ensures DateTieBreak(oracle, "2024-01-05", "soon") == Some(true)
    ensures DateTieBreak(oracle, "soon", "2024-01-05") == Some(false)
    ensures DateTieBreak(oracle, "later", "soon") == Some(true)
  {
    var a := "2024-01-05";
    assert DateOnlyShape(a) && YearOf(a) == 2024 && MonthOf(a) == 1 && DayOf(a) == 5;
    assert FirstParse(oracle, Layouts, a).ok by {
      assert TimeParse(oracle, Layouts[0], a).Some?;
    }
    NoLayoutParses(oracle, "soon");
    NoLayoutParses(oracle, "later");
    assert StrLess("later", "soon");
  }
}
