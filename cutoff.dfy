/**
  The weekly cutoff and the dates it is compared with. A moment is a day
  number (days since 1970-01-01, which was a Thursday) and a time of day; the
  cutoff is the most recent Friday, today included, at 00:01:00.000000.
  Filing dates arrive as "YYYY-MM-DD" strings and are read as midnight of
  that day, as `pd.to_datetime` does; an empty date reads as NaT.
 */
module Cutoff {
  import opened Seqs
  import opened Decimal

  datatype TimeOfDay = TimeOfDay(hour: nat, minute: nat, second: nat, microsecond: nat)

  predicate ValidTime(t: TimeOfDay) {
    t.hour < 24 && t.minute < 60 && t.second < 60 && t.microsecond < 1_000_000
  }

  /** A local, time-zone-naive moment: a day number and a time of day. */
  datatype DateTime = DateTime(day: int, time: TimeOfDay)

  const Midnight := TimeOfDay(0, 0, 0, 0)
  const CutoffTime := TimeOfDay(0, 1, 0, 0)
  const MicrosPerDay: nat := 86_400_000_000

  /** Python's weekday numbering: Monday is 0, so Friday is 4. */
  const Friday: nat := 4

  /** The weekday of a day number; day 0, 1970-01-01, was a Thursday. */
  function Weekday(day: int): (w: nat)
    ensures w < 7
  {
    (day + 3) % 7
  }

  function MicrosOfDay(t: TimeOfDay): nat {
    ((t.hour * 60 + t.minute) * 60 + t.second) * 1_000_000 + t.microsecond
  }

  /** The position of a moment on the time line, in microseconds since 1970-01-01 00:00. */
  function Instant(m: DateTime): int {
    m.day * MicrosPerDay + MicrosOfDay(m.time)
  }

  /**
    `get_previous_friday`: go back `(weekday - 4) % 7` days from now and set
    the time to 00:01:00.000000. Python's `%` with a positive divisor, like
    Dafny's, is never negative.
   */
  function PreviousFriday(now: DateTime): (c: DateTime)
    ensures 0 <= now.day - c.day <= 6
    ensures Weekday(c.day) == Friday
    ensures c.day == now.day <==> Weekday(now.day) == Friday
    ensures forall d :: c.day < d <= now.day ==> Weekday(d) != Friday
    ensures c.time == CutoffTime && ValidTime(c.time)
  {
    DateTime(now.day - (Weekday(now.day) - Friday) % 7, CutoffTime)
  }

  /** On one day, an earlier valid time is an earlier instant; across days, the day decides. */
  lemma InstantOrder(a: DateTime, b: DateTime)
    requires ValidTime(a.time) && ValidTime(b.time)
    ensures MicrosOfDay(a.time) < MicrosPerDay && MicrosOfDay(b.time) < MicrosPerDay
    ensures a.day < b.day ==> Instant(a) < Instant(b)
    ensures a.day == b.day ==> (Instant(a) <= Instant(b) <==> MicrosOfDay(a.time) <= MicrosOfDay(b.time))
  {
  }

  /**
    A filing dated on day `d` (read as midnight) is at or after the cutoff
    exactly when `d` is strictly after the cutoff Friday: a filing made on the
    Friday itself falls one minute short.
   */
  lemma FilingDayVersusCutoff(d: int, now: DateTime)
    ensures Instant(DateTime(d, Midnight)) >= Instant(PreviousFriday(now)) <==> d > PreviousFriday(now).day
  {
    var e := PreviousFriday(now).day;
    assert Instant(DateTime(d, Midnight)) == d * 86_400_000_000;
    assert Instant(PreviousFriday(now)) == e * 86_400_000_000 + 60_000_000;
    MinuteAfterMidnight(d, e);
  }

  /** Midnight of day `d` is at or after 00:01 of day `e` exactly when `d` comes after `e`. */
  lemma MinuteAfterMidnight(d: int, e: int)
    ensures d * 86_400_000_000 >= e * 86_400_000_000 + 60_000_000 <==> d > e
  {
    if d > e {
      assert d * 86_400_000_000 >= (e + 1) * 86_400_000_000;
    } else {
      assert d * 86_400_000_000 <= e * 86_400_000_000;
    }
  }

  predicate IsLeapYear(y: int) {
    y % 4 == 0 && (y % 100 != 0 || y % 400 == 0)
  }

  function DaysInMonth(y: int, m: int): (n: int)
    requires 1 <= m <= 12
    ensures 28 <= n <= 31
  {
    if m == 2 then (if IsLeapYear(y) then 29 else 28)
    else if m == 4 || m == 6 || m == 9 || m == 11 then 30
    else 31
  }

  predicate ValidDate(y: int, m: int, d: int) {
    1 <= y && 1 <= m <= 12 && 1 <= d <= DaysInMonth(y, m)
  }

  /**
    The day number of a proleptic Gregorian date: years are counted from
    March so that the leap day ends the year, in 400-year eras of 146097 days.
   */
  function DaysFromCivil(y: int, m: int, d: int): int
    requires ValidDate(y, m, d)
  {
    var mp := if m > 2 then m - 3 else m + 9;
    var doy := (153 * mp + 2) / 5 + d - 1;
    MarchYearStart(if m <= 2 then y - 1 else y) + doy - 719468
  }

  /** Days from 0000-03-01 to March 1 of year `y`. */
  function MarchYearStart(y: nat): int {
    var era := y / 400;
    var yoe := y - era * 400;
    era * 146097 + yoe * 365 + yoe / 4 - yoe / 100
  }

  /** The calendar date after a valid date. */
  function NextDate(y: int, m: int, d: int): (r: (int, int, int))
    requires ValidDate(y, m, d)
    ensures ValidDate(r.0, r.1, r.2)
  {
    if d < DaysInMonth(y, m) then (y, m, d + 1)
    else if m < 12 then (y, m + 1, 1)
    else (y + 1, 1, 1)
  }

  /** The year from March 1 of `y - 1` to March 1 of `y` holds February of `y`. */
  lemma YearLength(y: int)
    requires y >= 1
    ensures MarchYearStart(y) - MarchYearStart(y - 1) == if IsLeapYear(y) then 366 else 365
  {
    var q4, q100, q400 := y / 4, y / 100, y / 400;
    var p4, p100, p400 := (y - 1) / 4, (y - 1) / 100, (y - 1) / 400;
    assert q4 - p4 == if y % 4 == 0 then 1 else 0;
    assert q100 - p100 == if y % 100 == 0 then 1 else 0;
    assert q400 - p400 == if y % 400 == 0 then 1 else 0;
    assert (y - q400 * 400) / 4 == q4 - 100 * q400;
    assert (y - q400 * 400) / 100 == q100 - 4 * q400;
    assert (y - 1 - p400 * 400) / 4 == p4 - 100 * p400;
    assert (y - 1 - p400 * 400) / 100 == p100 - 4 * p400;
  }

  /**
    The day count is the calendar's: the next calendar date has the next day
    number. With 1970-01-01 at day 0 this makes `Weekday` the weekday of the date.
   */
  lemma NextDateIsNextDay(y: int, m: int, d: int)
    requires ValidDate(y, m, d)
    ensures var (y2, m2, d2) := NextDate(y, m, d);
      DaysFromCivil(y2, m2, d2) == DaysFromCivil(y, m, d) + 1
  {
    if d < DaysInMonth(y, m) {
      assert NextDate(y, m, d) == (y, m, d + 1);
    } else if m == 12 {
      assert NextDate(y, m, d) == (y + 1, 1, 1);
      YearEnd(y);
    } else {
      assert NextDate(y, m, d) == (y, m + 1, 1);
      if m == 2 {
        FebruaryEnd(y);
      } else if m == 1 {
        assert DaysFromCivil(y, 2, 1) == MarchYearStart(y - 1) + 337 - 719468;
      } else {
        MonthEnd(y, m);
      }
    }
  }

  lemma FebruaryEnd(y: int)
    requires 1 <= y
    ensures DaysFromCivil(y, 3, 1) == DaysFromCivil(y, 2, DaysInMonth(y, 2)) + 1
  {
    YearLength(y);
    assert DaysFromCivil(y, 3, 1) == MarchYearStart(y) - 719468;
    assert DaysFromCivil(y, 2, DaysInMonth(y, 2)) == MarchYearStart(y - 1) + 337 + DaysInMonth(y, 2) - 1 - 719468;
  }

  lemma YearEnd(y: int)
    requires 1 <= y
    ensures DaysFromCivil(y + 1, 1, 1) == DaysFromCivil(y, 12, 31) + 1
  {
    assert DaysFromCivil(y + 1, 1, 1) == MarchYearStart(y) + 306 - 719468;
    assert DaysFromCivil(y, 12, 31) == MarchYearStart(y) + 275 + 30 - 719468;
  }

  /** From March to November, the first of the next month follows the last of this one. */
  lemma MonthEnd(y: int, m: int)
    requires 1 <= y && 3 <= m <= 11
    ensures DaysFromCivil(y, m + 1, 1) == DaysFromCivil(y, m, DaysInMonth(y, m)) + 1
  {
    var start := MarchYearStart(y) - 719468;
    assert DaysFromCivil(y, m + 1, 1) == start + (153 * (m - 2) + 2) / 5;
    assert DaysFromCivil(y, m, DaysInMonth(y, m)) == start + (153 * (m - 3) + 2) / 5 + DaysInMonth(y, m) - 1;
    if m == 3 {} else if m == 4 {} else if m == 5 {} else if m == 6 {} else if m == 7 {}
    else if m == 8 {} else if m == 9 {} else if m == 10 {} else {}
  }

  lemma EpochIsThursday()
    ensures DaysFromCivil(1970, 1, 1) == 0 && Weekday(0) == 3
  {
  }

  /** `pd.Timestamp` holds nanoseconds in 64 bits: midnights from 1677-09-22 to 2262-04-11. */
  const MinTimestampDay: int := -106751
  const MaxTimestampDay: int := 106751

  /**
    How `pd.to_datetime` reads one filing date: a day number, NaT ("not a
    time"), or a string it cannot read, which raises.
   */
  datatype DateReading = Read(day: int) | NotATime | Unreadable

  /** The strings pandas reads as NaT instead of as a date. */
  const NotATimeSpellings: set<string> := {"", "NaT", "nat", "NAT", "nan", "NaN", "NAN"}

  /**
    `pd.to_datetime` on one filing date in the "YYYY-MM-DD" form the filing
    index uses: the empty string and the spellings of NaT read as NaT, a
    valid date of that form inside the timestamp range reads as its day
    number, and anything else cannot be read.
   */
  function ParseFilingDate(s: string): (r: DateReading)
    ensures r.NotATime? <==> s in NotATimeSpellings
    ensures r.Read? ==> MinTimestampDay <= r.day <= MaxTimestampDay
  {
    if s in NotATimeSpellings then NotATime
    else if |s| == 10 && s[4] == '-' && s[7] == '-'
       && IsDigits(s[..4]) && IsDigits(s[5..7]) && IsDigits(s[8..])
    then
      var y, m, d := Value(s[..4]), Value(s[5..7]), Value(s[8..]);
      if ValidDate(y, m, d) && MinTimestampDay <= DaysFromCivil(y, m, d) <= MaxTimestampDay
      then Read(DaysFromCivil(y, m, d))
      else Unreadable
    else Unreadable
  }

  /** A date written the way the filing index writes it. */
  function FormatDate(y: nat, m: nat, d: nat): string {
    PadDigits(y, 4) + "-" + PadDigits(m, 2) + "-" + PadDigits(d, 2)
  }

  /** The pieces of a written date sit at the fixed positions the parser reads. */
  lemma DateLayout(a: string, b: string, c: string)
    requires |a| == 4 && |b| == 2 && |c| == 2
    ensures var s := a + "-" + b + "-" + c;
      |s| == 10 && s[4] == '-' && s[7] == '-' && s[..4] == a && s[5..7] == b && s[8..] == c
  {
    var s := a + "-" + b + "-" + c;
    assert s[..4] == a;
    assert s[5..7] == b;
    assert s[8..] == c;
  }

  /** Reading back a written date in the timestamp range gives its day number. */
  lemma ParseFormattedDate(y: nat, m: nat, d: nat)
    requires y < 10000 && ValidDate(y, m, d)
    requires MinTimestampDay <= DaysFromCivil(y, m, d) <= MaxTimestampDay
    ensures ParseFilingDate(FormatDate(y, m, d)) == Read(DaysFromCivil(y, m, d))
  {
    assert Pow10(2) == 100 && Pow10(4) == 10000;
    DigitsLength(y, 4);
    DigitsLength(m, 2);
    DigitsLength(d, 2);
    var a, b, c := PadDigits(y, 4), PadDigits(m, 2), PadDigits(d, 2);
    DateLayout(a, b, c);
    var s := FormatDate(y, m, d);
    assert s == a + "-" + b + "-" + c;
    NotATimeIsShort(s);
  }

  lemma NotATimeIsShort(s: string)
    ensures s in NotATimeSpellings ==> |s| <= 3
  {
  }

  /** Only a written date in the timestamp range reads as a day, and it reads as that date's day number. */
  lemma ReadIsFormattedDate(s: string)
    requires ParseFilingDate(s).Read?
    ensures exists y: nat, m: nat, d: nat ::
      && y < 10000 && ValidDate(y, m, d)
      && s == FormatDate(y, m, d)
      && ParseFilingDate(s).day == DaysFromCivil(y, m, d)
  {
    var a, b, c := s[..4], s[5..7], s[8..];
    PadDigitsOfValue(a);
    PadDigitsOfValue(b);
    PadDigitsOfValue(c);
    ValueBound(a);
    assert Pow10(4) == 10000;
    assert s == a + "-" + b + "-" + c;
    assert s == FormatDate(Value(a), Value(b), Value(c));
  }

  /**
    A run on Wednesday 2024-01-17 at 10:00 reports filings since Friday
    2024-01-12 at 00:01; a run on Friday 2024-01-12 at 10:00 uses that same
    day.
   */
  lemma CutoffExamples()
    ensures Weekday(DaysFromCivil(2024, 1, 17)) == 2
    ensures PreviousFriday(DateTime(DaysFromCivil(2024, 1, 17), TimeOfDay(10, 0, 0, 0)))
      == DateTime(DaysFromCivil(2024, 1, 12), CutoffTime)
    ensures PreviousFriday(DateTime(DaysFromCivil(2024, 1, 12), TimeOfDay(10, 0, 0, 0)))
      == DateTime(DaysFromCivil(2024, 1, 12), CutoffTime)
  {
    assert DaysFromCivil(2024, 1, 17) == 19739;
    assert DaysFromCivil(2024, 1, 12) == 19734;
  }
}
