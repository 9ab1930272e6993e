/**
 Dates and times in commands: the closed form for the days since 1970-01-01 and the reader of timestamps
 (section 5.6 of RFC 3339), against a count that knows nothing but the Gregorian leap rule.
 */
module Calendar {
  import opened Text

  // ---- dates ---------------------------------------------------------------------------------

  datatype Date = Date(year: int, month: int, day: int)

  predicate Leap(year: int) { (year % 4 == 0 && year % 100 != 0) || year % 400 == 0 }

  function MonthDays(year: int, month: int): int
    requires 1 <= month <= 12
  {
    [31, 28, 31, 30, 31, 30, 31, 31, 30, 31, 30, 31][month - 1] + if month == 2 && Leap(year) then 1 else 0
  }

  predicate ValidDate(d: Date) { 1 <= d.month <= 12 && 1 <= d.day <= MonthDays(d.year, d.month) }

  /** The day after. */
  function NextDay(d: Date): (n: Date)
    requires ValidDate(d)
    ensures ValidDate(n)
  {
    if d.day < MonthDays(d.year, d.month) then Date(d.year, d.month, d.day + 1)
    else if d.month < 12 then Date(d.year, d.month + 1, 1)
    else Date(d.year + 1, 1, 1)
  }

  /** Division as the program does it: towards zero. */
  function Quotient(a: int, b: int): int
    requires b > 0
  {
    if a >= 0 then a / b else -((-a) / b)
  }

  /** `days_from_civil`. */
  function DaysFromCivil(d: Date): int {
    var year := if d.month <= 2 then d.year - 1 else d.year;
    var era := Quotient(if year >= 0 then year else year - 399, 400);
    var yearOfEra := year - era * 400;
    var dayOfYear := (153 * (d.month + (if d.month > 2 then -3 else 9)) + 2) / 5 + d.day - 1;
    var dayOfEra := yearOfEra * 365 + yearOfEra / 4 - yearOfEra / 100 + dayOfYear;
    era * 146097 + dayOfEra - 719468
  }

  /** Days before the first of March of a year, up to a constant. */
  function YearStart(year: int): int { 365 * year + year / 4 - year / 100 + year / 400 }

  function MonthStart(month: int): int { (153 * (month + (if month > 2 then -3 else 9)) + 2) / 5 }

  lemma EraIsFloor(year: int)
    ensures Quotient(if year >= 0 then year else year - 399, 400) == year / 400
  {
    if year < 0 {
      var k := (399 - year) / 400;
      assert 400 * k <= 399 - year < 400 * k + 400;
    }
  }

  /** The closed form without eras. */
  function PlainDays(d: Date): int {
    YearStart(if d.month <= 2 then d.year - 1 else d.year) + MonthStart(d.month) + d.day - 719469
  }

  lemma WithoutEras(d: Date)
    ensures DaysFromCivil(d) == PlainDays(d)
  {
    var year := if d.month <= 2 then d.year - 1 else d.year;
    EraIsFloor(year);
    var era, y := year / 400, year % 400;
    assert year == 400 * era + y;
    assert year / 4 == 100 * era + y / 4;
    assert year / 100 == 4 * era + y / 100;
  }

  lemma YearLength(year: int)
    ensures YearStart(year + 1) - YearStart(year) == 365 + if Leap(year + 1) then 1 else 0
  {
    assert (year + 1) / 4 == year / 4 + if (year + 1) % 4 == 0 then 1 else 0;
    assert (year + 1) / 100 == year / 100 + if (year + 1) % 100 == 0 then 1 else 0;
    assert (year + 1) / 400 == year / 400 + if (year + 1) % 400 == 0 then 1 else 0;
    assert (year + 1) % 400 == 0 ==> (year + 1) % 100 == 0;
    assert (year + 1) % 100 == 0 ==> (year + 1) % 4 == 0;
  }

  /** The months of a year that starts in March, without the last one. */
  lemma MonthLength(year: int, month: int)
    requires 1 <= month <= 12 && month != 2
    ensures MonthStart(if month == 12 then 1 else month + 1) == MonthStart(month) + MonthDays(year, month)
  {
  }

  lemma NextPlainDay(d: Date)
    requires ValidDate(d)
    ensures PlainDays(NextDay(d)) == PlainDays(d) + 1
  {
    if d.day == MonthDays(d.year, d.month) {
      if d.month == 2 {
        YearLength(d.year - 1);
        assert MonthStart(2) == 337 && MonthStart(3) == 0;
      } else {
        MonthLength(d.year, d.month);
      }
    }
  }

  /** In every year, also before 1970: the day after is one more. */
  lemma NextIsOneMore(d: Date)
    requires ValidDate(d)
    ensures DaysFromCivil(NextDay(d)) == DaysFromCivil(d) + 1
  {
    WithoutEras(d);
    WithoutEras(NextDay(d));
    NextPlainDay(d);
  }

  /** The date a number of days after the epoch, counted day by day. */
  function DateAfter(days: nat): (d: Date)
    ensures ValidDate(d)
  {
    if days == 0 then Date(1970, 1, 1) else NextDay(DateAfter(days - 1))
  }

  lemma {:induction false} PlainDaysCount(days: nat)
    ensures PlainDays(DateAfter(days)) == days
  {
    if days > 0 {
      PlainDaysCount(days - 1);
      NextPlainDay(DateAfter(days - 1));
    }
  }

  /** Counting a number of days from the epoch gives a date for which the closed form gives that number. */
  lemma ClosedFormCounts(days: nat)
    ensures DaysFromCivil(DateAfter(days)) == days
  {
    PlainDaysCount(days);
    WithoutEras(DateAfter(days));
  }

  /** The day before. */
  function PreviousDay(d: Date): (p: Date)
    requires ValidDate(d)
    ensures ValidDate(p) && NextDay(p) == d
  {
    if d.day > 1 then Date(d.year, d.month, d.day - 1)
    else if d.month > 1 then Date(d.year, d.month - 1, MonthDays(d.year, d.month - 1))
    else Date(d.year - 1, 12, 31)
  }

  lemma NotBeforeEpoch(d: Date)
    requires ValidDate(d) && d.year >= 1970
    ensures PlainDays(d) >= 0
  {
    Monotone(1969, if d.month <= 2 then d.year - 1 else d.year);
  }

  lemma {:induction false} Monotone(a: int, b: int)
    requires a <= b
    ensures YearStart(a) + 365 * (b - a) <= YearStart(b)
    decreases b - a
  {
    if a < b {
      Monotone(a, b - 1);
      YearLength(b - 1);
    }
  }

  lemma {:induction false} EveryDateIsPlain(d: Date, days: nat)
    requires ValidDate(d) && d.year >= 1970 && PlainDays(d) == days
    ensures DateAfter(days) == d
    decreases days
  {
    if d != Date(1970, 1, 1) {
      var p := PreviousDay(d);
      NextPlainDay(p);
      NotBeforeEpoch(p);
      EveryDateIsPlain(p, days - 1);
    }
  }

  /** Every date from 1970 on is reached by counting, after exactly the days the closed form says. */
  lemma EveryDateIsCounted(d: Date)
    requires ValidDate(d) && d.year >= 1970
    ensures DaysFromCivil(d) >= 0 && DateAfter(DaysFromCivil(d)) == d
  {
    WithoutEras(d);
    NotBeforeEpoch(d);
    EveryDateIsPlain(d, PlainDays(d));
  }
}
