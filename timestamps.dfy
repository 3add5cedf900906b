/**
 * Already-parsed timestamps (Python `datetime` values without time zone) and the calendar
 * arithmetic behind `datetime.isoweekday()`: the proleptic Gregorian day ordinal, with
 * 0001-01-01 as day 1, a Monday.
 */
module Timestamps {
  import opened Wrappers

  datatype DateTime = DateTime(year: int, month: int, day: int, hour: int, minute: int, second: int)

  predicate IsLeap(y: int) {
    y % 4 == 0 && (y % 100 != 0 || y % 400 == 0)
  }

  function DaysInMonth(y: int, m: int): (n: int)
    requires 1 <= m <= 12
    ensures 28 <= n <= 31
  {
    if m == 2 then (if IsLeap(y) then 29 else 28)
    else if m == 4 || m == 6 || m == 9 || m == 11 then 30
    else 31
  }

  /** The ranges Python's `datetime` enforces on its fields. */
  predicate Valid(t: DateTime) {
    && 1 <= t.year <= 9999
    && 1 <= t.month <= 12
    && 1 <= t.day <= DaysInMonth(t.year, t.month)
    && 0 <= t.hour < 24
    && 0 <= t.minute < 60
    && 0 <= t.second < 60
  }

  type Timestamp = t: DateTime | Valid(t) witness DateTime(1, 1, 1, 0, 0, 0)

  /**
   * The flexible date parser (`dateutil.parser.parse`), taken as given: a text either parses
   * to a timestamp or the parser raises (`None` here).
   */
  type Parser = string -> Option<Timestamp>

  /** `parser.parse(text)`; the parser rejects the empty string whatever else it accepts. */
  function ParseTimestamp(parse: Parser, text: string): (r: Option<Timestamp>)
    ensures text == "" ==> r == None
    ensures text != "" ==> r == parse(text)
  {
    if text == "" then None else parse(text)
  }

  function DaysBeforeYear(y: int): int
    requires y >= 1
  {
    var p := y - 1;
    p * 365 + p / 4 - p / 100 + p / 400
  }

  function DaysBeforeMonth(y: int, m: int): int
    requires 1 <= m <= 12
  {
    [0, 0, 31, 59, 90, 120, 151, 181, 212, 243, 273, 304, 334][m] + (if m > 2 && IsLeap(y) then 1 else 0)
  }

  /** `date.toordinal()`: 0001-01-01 is day 1. */
  function Ordinal(t: Timestamp): (o: int)
    ensures 1 <= o <= 3652059
  {
    DaysBeforeYear(t.year) + DaysBeforeMonth(t.year, t.month) + t.day
  }

  /** `datetime.isoweekday()`: ISO 8601 numbering, Monday is 1 and Sunday is 7. */
  function IsoWeekday(t: Timestamp): (d: int)
    ensures 1 <= d <= 7
  {
    (Ordinal(t) + 6) % 7 + 1
  }

  predicate IsLastDay(t: Timestamp) {
    t.year == 9999 && t.month == 12 && t.day == 31
  }

  /** The same time of day on the following calendar day. */
  function NextDay(t: Timestamp): (u: Timestamp)
    requires !IsLastDay(t)
  {
    if t.day < DaysInMonth(t.year, t.month) then t.(day := t.day + 1)
    else if t.month < 12 then t.(month := t.month + 1, day := 1)
    else t.(year := t.year + 1, month := 1, day := 1)
  }

  // ---------------------------------------------------------------------------------------
  // Lemmas

  lemma MonthsAddUp(y: int, m: int)
    requires 1 <= m < 12
    ensures DaysBeforeMonth(y, m + 1) == DaysBeforeMonth(y, m) + DaysInMonth(y, m)
  {
  }

  lemma YearsAddUp(y: int)
    requires y >= 1
    ensures DaysBeforeYear(y + 1) == DaysBeforeYear(y) + DaysBeforeMonth(y, 12) + DaysInMonth(y, 12)
  {
    LeapDaysStep(y);
    assert DaysBeforeMonth(y, 12) + DaysInMonth(y, 12) == 365 + (if IsLeap(y) then 1 else 0);
  }

  /** Going from year y - 1 to year y adds a leap day to the count exactly when y is a leap year. */
  lemma LeapDaysStep(y: int)
    ensures (y / 4 - y / 100 + y / 400) - ((y - 1) / 4 - (y - 1) / 100 + (y - 1) / 400)
      == (if IsLeap(y) then 1 else 0)
  {
    MultipleStep4(y);
    MultipleStep100(y);
    MultipleStep400(y);
  }

  lemma MultipleStep4(y: int)
    ensures y / 4 - (y - 1) / 4 == (if y % 4 == 0 then 1 else 0)
  {
  }

  lemma MultipleStep100(y: int)
    ensures y / 100 - (y - 1) / 100 == (if y % 100 == 0 then 1 else 0)
  {
  }

  lemma MultipleStep400(y: int)
    ensures y / 400 - (y - 1) / 400 == (if y % 400 == 0 then 1 else 0)
  {
  }

  /** Consecutive calendar days have consecutive ordinals, across months and years. */
  lemma NextDayOrdinal(t: Timestamp)
    requires !IsLastDay(t)
    ensures Ordinal(NextDay(t)) == Ordinal(t) + 1
  {
    if t.day == DaysInMonth(t.year, t.month) {
      if t.month < 12 {
        MonthsAddUp(t.year, t.month);
      } else {
        YearsAddUp(t.year);
      }
    }
  }

  /**
   * The weekday advances by one each day and wraps from Sunday (7) to Monday (1); with
   * MondayIsOne this pins `isoweekday` down as ISO 8601 numbering.
   */
  lemma NextDayWeekday(t: Timestamp)
    requires !IsLastDay(t)
    ensures IsoWeekday(NextDay(t)) == IsoWeekday(t) % 7 + 1
  {
    NextDayOrdinal(t);
    WeekdayStep(Ordinal(t));
  }

  lemma WeekdayStep(o: int)
    ensures (o + 1 + 6) % 7 + 1 == ((o + 6) % 7 + 1) % 7 + 1
  {
  }

  /** 0001-01-01 of the proleptic Gregorian calendar was a Monday. */
  lemma MondayIsOne()
    ensures IsoWeekday(DateTime(1, 1, 1, 0, 0, 0)) == 1
  {
  }

  /** The last date `datetime` can hold. */
  const LastDate: Timestamp := DateTime(9999, 12, 31, 0, 0, 0)

  /** `toordinal` runs from day 1 on 0001-01-01 to day 3652059 on 9999-12-31. */
  lemma OrdinalEndpoints()
    ensures Ordinal(DateTime(1, 1, 1, 0, 0, 0)) == 1
    ensures Ordinal(LastDate) == 3652059
  {
    assert 9998 / 4 == 2499 && 9998 / 100 == 99 && 9998 / 400 == 24;
    assert DaysBeforeYear(9999) == 3651694;
    assert DaysBeforeMonth(9999, 12) == 334;
  }

  /** 2023-07-04 was a Tuesday. */
  lemma TuesdayIsTwo()
    ensures IsoWeekday(DateTime(2023, 7, 4, 14, 30, 0)) == 2
  {
  }
}
