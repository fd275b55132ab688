/** The proleptic Gregorian calendar behind `time::OffsetDateTime`: civil fields, the instant
    they denote, and the way back. Day 0 is 0001-01-01. */
module Calendar {

  predicate IsLeap(year: int) {
    year % 4 == 0 && (year % 100 != 0 || year % 400 == 0)
  }

  function DaysInMonth(year: int, month: int): (days: int)
    ensures 28 <= days <= 31
  {
    if month == 2 then (if IsLeap(year) then 29 else 28)
    else if month == 4 || month == 6 || month == 9 || month == 11 then 30
    else 31
  }

  function DaysBeforeYear(year: int): int {
    365 * (year - 1) + (year - 1) / 4 - (year - 1) / 100 + (year - 1) / 400
  }

  lemma YearLength(year: int)
    ensures DaysBeforeYear(year + 1) == DaysBeforeYear(year) + if IsLeap(year) then 366 else 365
  {
    QuotientSteps(year, 4);
    QuotientSteps(year, 100);
    QuotientSteps(year, 400);
    Multiples(year);
  }

  lemma QuotientSteps(a: int, k: int)
    requires k == 4 || k == 100 || k == 400
    ensures a / k == (a - 1) / k + if a % k == 0 then 1 else 0
  {
  }

  lemma Multiples(a: int)
    ensures a % 400 == 0 ==> a % 100 == 0
    ensures a % 100 == 0 ==> a % 4 == 0
  {
  }

  lemma {:induction false} YearsIncrease(a: int, b: int)
    requires a <= b
    ensures DaysBeforeYear(a) <= DaysBeforeYear(b)
    ensures a < b ==> DaysBeforeYear(a + 1) <= DaysBeforeYear(b)
    decreases b - a
  {
    if a < b {
      YearsIncrease(a + 1, b);
      YearLength(a);
    }
  }

  function DaysBeforeMonth(year: int, month: int): (days: int)
    requires 1 <= month <= 13
    ensures days >= 0
    decreases month
  {
    if month == 1 then 0 else DaysBeforeMonth(year, month - 1) + DaysInMonth(year, month - 1)
  }

  lemma MonthsFillTheYear(year: int)
    ensures DaysBeforeMonth(year, 13) == if IsLeap(year) then 366 else 365
  {
    assert DaysBeforeMonth(year, 4) == DaysBeforeMonth(year, 3) + 31;
    assert DaysBeforeMonth(year, 7) == DaysBeforeMonth(year, 4) + 91;
    assert DaysBeforeMonth(year, 10) == DaysBeforeMonth(year, 7) + 92;
    assert DaysBeforeMonth(year, 13) == DaysBeforeMonth(year, 10) + 92;
  }

  lemma {:induction false} MonthsIncrease(year: int, a: int, b: int)
    requires 1 <= a <= b <= 13
    ensures DaysBeforeMonth(year, a) <= DaysBeforeMonth(year, b)
    ensures a < b ==> DaysBeforeMonth(year, a + 1) <= DaysBeforeMonth(year, b)
    decreases b - a
  {
    if a < b { MonthsIncrease(year, a + 1, b); }
  }

  // ---------------------------------------------------------------- fields and instants

  datatype Civil = Civil(year: int, month: int, day: int, hour: int, minute: int, second: int, nano: int)

  const DAY_NANOS := 86_400_000_000_000

  predicate ValidTime(c: Civil) {
    0 <= c.hour < 24 && 0 <= c.minute < 60 && 0 <= c.second < 60 && 0 <= c.nano < 1_000_000_000
  }

  predicate ValidFields(c: Civil) {
    && 1 <= c.month <= 12
    && 1 <= c.day <= DaysInMonth(c.year, c.month)
    && ValidTime(c)
  }

  function Day(c: Civil): int
    requires 1 <= c.month <= 12
  {
    DaysBeforeYear(c.year) + DaysBeforeMonth(c.year, c.month) + c.day - 1
  }

  function TimeOfDay(c: Civil): int {
    ((c.hour * 60 + c.minute) * 60 + c.second) * 1_000_000_000 + c.nano
  }

  /** Nanoseconds since 0001-01-01T00:00:00. */
  function Nanos(c: Civil): int
    requires 1 <= c.month <= 12
  {
    Day(c) * DAY_NANOS + TimeOfDay(c)
  }

  function YearUp(day: int, year: int): (y: int)
    requires DaysBeforeYear(year) <= day
    ensures y >= year
    ensures DaysBeforeYear(y) <= day < DaysBeforeYear(y + 1)
    decreases day - DaysBeforeYear(year)
  {
    YearLength(year);
    if day < DaysBeforeYear(year + 1) then year else YearUp(day, year + 1)
  }

  function YearDown(day: int, year: int): (y: int)
    requires day < DaysBeforeYear(year + 1)
    ensures y <= year
    ensures DaysBeforeYear(y) <= day < DaysBeforeYear(y + 1)
    decreases DaysBeforeYear(year + 1) - day
  {
    YearLength(year);
    if DaysBeforeYear(year) <= day then year else YearDown(day, year - 1)
  }

  function YearOf(day: int): (y: int)
    ensures DaysBeforeYear(y) <= day < DaysBeforeYear(y + 1)
    ensures y >= 1 <==> day >= 0
  {
    if day >= 0 then YearUp(day, 1) else YearDown(day, 0)
  }

  function MonthFrom(year: int, dayOfYear: int, month: int): (m: int)
    requires 1 <= month <= 12
    requires DaysBeforeMonth(year, month) <= dayOfYear < DaysBeforeMonth(year, 13)
    ensures month <= m <= 12
    ensures DaysBeforeMonth(year, m) <= dayOfYear < DaysBeforeMonth(year, m + 1)
    decreases 12 - month
  {
    if dayOfYear < DaysBeforeMonth(year, month + 1) then month else MonthFrom(year, dayOfYear, month + 1)
  }

  function DateOf(day: int): (c: Civil)
    ensures ValidFields(c) && Day(c) == day && TimeOfDay(c) == 0
    ensures c.year == YearOf(day)
  {
    var year := YearOf(day);
    MonthsFillTheYear(year);
    YearLength(year);
    var dayOfYear := day - DaysBeforeYear(year);
    var month := MonthFrom(year, dayOfYear, 1);
    Civil(year, month, dayOfYear - DaysBeforeMonth(year, month) + 1, 0, 0, 0, 0)
  }

  lemma TimeParts(time: int)
    requires 0 <= time < DAY_NANOS
    ensures var seconds := time / 1_000_000_000;
      && 0 <= seconds / 3600 < 24
      && (seconds / 3600 * 60 + seconds / 60 % 60) * 60 + seconds % 60 == seconds
      && seconds * 1_000_000_000 + time % 1_000_000_000 == time
  {
    var seconds := time / 1_000_000_000;
    assert 0 <= seconds < 86400;
    var minutes := seconds / 60;
    assert seconds == minutes * 60 + seconds % 60;
    assert seconds / 3600 == minutes / 60;
    assert minutes == minutes / 60 * 60 + minutes % 60;
  }

  /** The civil fields of an instant, in UTC. */
  function CivilOf(nanos: int): (c: Civil)
    ensures ValidFields(c)
    ensures Nanos(c) == nanos
    ensures c.year == YearOf(nanos / DAY_NANOS) && c.nano == nanos % DAY_NANOS % 1_000_000_000
  {
    var date, time := DateOf(nanos / DAY_NANOS), nanos % DAY_NANOS;
    TimeParts(time);
    var seconds := time / 1_000_000_000;
    date.(hour := seconds / 3600, minute := seconds / 60 % 60, second := seconds % 60,
          nano := time % 1_000_000_000)
  }

  // ---------------------------------------------------------------- order

  predicate TimeBefore(a: Civil, b: Civil) {
    || a.hour < b.hour
    || (a.hour == b.hour &&
        (|| a.minute < b.minute
         || (a.minute == b.minute &&
             (a.second < b.second || (a.second == b.second && a.nano < b.nano)))))
  }

  /** Lexicographic order of the fields. */
  predicate Before(a: Civil, b: Civil) {
    || a.year < b.year
    || (a.year == b.year &&
        (|| a.month < b.month
         || (a.month == b.month && (a.day < b.day || (a.day == b.day && TimeBefore(a, b))))))
  }

  lemma DayInRange(c: Civil)
    requires ValidFields(c)
    ensures DaysBeforeYear(c.year) <= Day(c) < DaysBeforeYear(c.year + 1)
  {
    MonthsIncrease(c.year, c.month + 1, 13);
    MonthsFillTheYear(c.year);
    YearLength(c.year);
  }

  lemma TimeInRange(c: Civil)
    requires ValidTime(c)
    ensures 0 <= TimeOfDay(c) < DAY_NANOS
  {
  }

  lemma EarlierDate(a: Civil, b: Civil)
    requires ValidFields(a) && ValidFields(b)
    requires a.year < b.year || (a.year == b.year && a.month < b.month)
    ensures Day(a) < Day(b)
  {
    if a.year < b.year {
      DayInRange(a);
      DayInRange(b);
      YearsIncrease(a.year, b.year);
    } else {
      MonthsIncrease(a.year, a.month, b.month);
    }
  }

  /** Fields in order denote instants in order. */
  lemma BeforeMeansEarlier(a: Civil, b: Civil)
    requires ValidFields(a) && ValidFields(b) && Before(a, b)
    ensures Nanos(a) < Nanos(b)
  {
    TimeInRange(a);
    TimeInRange(b);
    if a.year != b.year || a.month != b.month { EarlierDate(a, b); }
  }

  /** The order of fields is the order of instants, and valid fields are determined by their
      instant. */
  lemma OrderIsChronological(a: Civil, b: Civil)
    requires ValidFields(a) && ValidFields(b)
    ensures Before(a, b) <==> Nanos(a) < Nanos(b)
    ensures a == b <==> Nanos(a) == Nanos(b)
  {
    if Before(a, b) { BeforeMeansEarlier(a, b); }
    if Before(b, a) { BeforeMeansEarlier(b, a); }
    assert Before(a, b) || Before(b, a) || a == b;
  }

  /** The months, counted out: days before each month of a common year, one more after February
      of a leap year, which is every fourth but three of every four centuries. */
  lemma MonthTable(year: int, month: int)
    requires 1 <= month <= 13
    ensures DaysBeforeMonth(year, month) ==
      [0, 31, 59, 90, 120, 151, 181, 212, 243, 273, 304, 334, 365][month - 1] + if month > 2 && IsLeap(year) then 1 else 0
  {
    if month > 1 { MonthTable(year, month - 1); }
  }

  /** Known first days: of this calendar, of Unix time, of the years after 1900, which was not a
      leap year, and after 2000, which was. */
  lemma KnownYears()
    ensures DaysBeforeYear(1) == 0 && DaysBeforeYear(1970) == 719_162
    ensures DaysBeforeYear(1901) == DaysBeforeYear(1900) + 365 && DaysBeforeYear(2001) == DaysBeforeYear(2000) + 366
    ensures !IsLeap(1900) && IsLeap(2000) && IsLeap(2024) && !IsLeap(2023)
  {
  }
}
