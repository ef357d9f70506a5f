/** The UTC calendar behind the tenant limits (src/service.rs) and the billing
    intervals (editor-mode/src/editor/billing.py).

    The reference is the proleptic Gregorian calendar of RFC 3339 (section 5.7
    and Appendix C): month lengths, the leap rule, and one day after the other
    starting from 1970-01-01. */
module Calendar {

  /** The day an instant in milliseconds falls on, counted from 1970-01-01. */
  function DayOf(ms: int): int { ms / 86_400_000 }

  function Midnight(days: int): int { days * 86_400_000 }

  datatype Date = Date(year: int, month: int, day: int)

  // ----- the reference calendar -------------------------------------------

  predicate IsLeap(year: int) {
    year % 4 == 0 && (year % 100 != 0 || year % 400 == 0)
  }

  function YearLength(year: int): int {
    if IsLeap(year) then 366 else 365
  }

  function MonthLength(year: int, month: int): int {
    if month == 2 then (if IsLeap(year) then 29 else 28)
    else if month == 4 || month == 6 || month == 9 || month == 11 then 30
    else 31
  }

  predicate ValidDate(d: Date) {
    1 <= d.month <= 12 && 1 <= d.day <= MonthLength(d.year, d.month)
  }

  function NextDate(d: Date): Date {
    if d.day < MonthLength(d.year, d.month) then Date(d.year, d.month, d.day + 1)
    else if d.month < 12 then Date(d.year, d.month + 1, 1)
    else Date(d.year + 1, 1, 1)
  }

  function PreviousDate(d: Date): Date {
    if d.day > 1 then Date(d.year, d.month, d.day - 1)
    else if d.month > 1 then Date(d.year, d.month - 1, MonthLength(d.year, d.month - 1))
    else Date(d.year - 1, 12, 31)
  }

  /** The date `n` days after 1970-01-01 (before it, when negative), found one
      day at a time. */
  function DateOf(n: int): (d: Date)
    ensures ValidDate(d)
    decreases if n < 0 then -n else n
  {
    if n == 0 then Date(1970, 1, 1)
    else if n > 0 then NextDate(DateOf(n - 1))
    else PreviousDate(DateOf(n + 1))
  }

  function FirstOfMonth(d: Date): Date {
    Date(d.year, d.month, 1)
  }

  // ----- counting days year by year and month by month ---------------------

  /** Days from 1970-01-01 to the first of January of `year`. */
  function DaysToYear(year: int): int
    decreases if year < 1970 then 1970 - year else year - 1970
  {
    if year == 1970 then 0
    else if year > 1970 then DaysToYear(year - 1) + YearLength(year - 1)
    else DaysToYear(year + 1) - YearLength(year)
  }

  /** Days from the first of January to the first of `month`. */
  function DaysToMonth(year: int, month: int): int
    decreases month
  {
    if month <= 1 then 0 else DaysToMonth(year, month - 1) + MonthLength(year, month - 1)
  }

  function DayNumber(d: Date): int {
    DaysToYear(d.year) + DaysToMonth(d.year, d.month) + d.day - 1
  }

  lemma DaysToMonthTable(year: int)
    ensures DaysToMonth(year, 1) == 0 && DaysToMonth(year, 2) == 31
    ensures var leap := if IsLeap(year) then 1 else 0;
            && DaysToMonth(year, 3) == 59 + leap && DaysToMonth(year, 4) == 90 + leap
            && DaysToMonth(year, 5) == 120 + leap && DaysToMonth(year, 6) == 151 + leap
            && DaysToMonth(year, 7) == 181 + leap && DaysToMonth(year, 8) == 212 + leap
            && DaysToMonth(year, 9) == 243 + leap && DaysToMonth(year, 10) == 273 + leap
            && DaysToMonth(year, 11) == 304 + leap && DaysToMonth(year, 12) == 334 + leap
  {
    assert DaysToMonth(year, 3) == DaysToMonth(year, 2) + MonthLength(year, 2);
    assert DaysToMonth(year, 5) == DaysToMonth(year, 4) + MonthLength(year, 4);
    assert DaysToMonth(year, 7) == DaysToMonth(year, 6) + MonthLength(year, 6);
    assert DaysToMonth(year, 9) == DaysToMonth(year, 8) + MonthLength(year, 8);
    assert DaysToMonth(year, 11) == DaysToMonth(year, 10) + MonthLength(year, 10);
  }

  lemma YearStep(year: int)
    ensures DaysToYear(year + 1) == DaysToYear(year) + YearLength(year)
    ensures DaysToMonth(year, 12) + 31 == YearLength(year)
  {
    DaysToMonthTable(year);
  }

  lemma NextDateCounts(d: Date)
    requires ValidDate(d)
    ensures DayNumber(NextDate(d)) == DayNumber(d) + 1
  {
    YearStep(d.year);
  }

  lemma PreviousDateCounts(d: Date)
    requires ValidDate(d)
    ensures DayNumber(PreviousDate(d)) == DayNumber(d) - 1
  {
    YearStep(d.year - 1);
  }

  /** Counting years and months agrees with stepping day by day. */
  lemma {:induction false} DayNumberOfDateOf(n: int)
    ensures DayNumber(DateOf(n)) == n
    decreases if n < 0 then -n else n
  {
    if n > 0 {
      DayNumberOfDateOf(n - 1);
      NextDateCounts(DateOf(n - 1));
    } else if n < 0 {
      DayNumberOfDateOf(n + 1);
      PreviousDateCounts(DateOf(n + 1));
    }
  }

  // ----- the closed form of the source --------------------------------------

  /** Year of the 400-year era the day falls in. Dafny's `/` and `%` by a
      positive constant are the source's `div_euclid` and `rem_euclid`, and on
      the non-negative intermediate values also its `/`. */
  function YearOfEra(doe: int): int {
    (doe - doe / 1460 + doe / 36_524 - doe / 146_096) / 365
  }

  function DayOfYear(doe: int): int {
    var yoe := YearOfEra(doe);
    doe - (365 * yoe + yoe / 4 - yoe / 100)
  }

  function DayOfEra(days: int): int {
    (days + 719_468) % 146_097
  }

  function MonthFromMarch(doy: int): int {
    (5 * doy + 2) / 153
  }

  /** Day of the month of the day `days` after 1970-01-01. */
  function DayOfMonth(days: int): int {
    var doy := DayOfYear(DayOfEra(days));
    doy - (153 * MonthFromMarch(doy) + 2) / 5 + 1
  }

  /** Start of the UTC day and of the UTC month containing `nowMs`. */
  function PeriodStarts(nowMs: int): (int, int) {
    var days := DayOf(nowMs);
    (Midnight(days), Midnight(days - (DayOfMonth(days) - 1)))
  }

  function DayStart(nowMs: int): int { PeriodStarts(nowMs).0 }

  function MonthStart(nowMs: int): int { PeriodStarts(nowMs).1 }

  /** Years counted from March, so the leap day comes last. */
  function MarchYear(d: Date): int { if d.month <= 2 then d.year - 1 else d.year }

  function MarchMonth(d: Date): int { if d.month <= 2 then d.month + 9 else d.month - 3 }

  function DayOfMarchYear(d: Date): int { (153 * MarchMonth(d) + 2) / 5 + d.day - 1 }

  lemma {:induction false} DaysToYearClosed(year: int)
    ensures DaysToYear(year) == 365 * (year - 1970) + (year - 1) / 4 - (year - 1) / 100 + (year - 1) / 400 - 477
    decreases if year < 1970 then 1970 - year else year - 1970
  {
    if year > 1970 {
      DaysToYearClosed(year - 1);
      LeapCount(year - 1);
    } else if year < 1970 {
      DaysToYearClosed(year + 1);
      LeapCount(year);
    }
  }

  lemma LeapCount(year: int)
    ensures year / 4 - year / 100 + year / 400
         == (year - 1) / 4 - (year - 1) / 100 + (year - 1) / 400 + (if IsLeap(year) then 1 else 0)
  {
    QuotientStep(year, 4);
    QuotientStep(year, 100);
    QuotientStep(year, 400);
    RemainderShift(0, 4, 25 * (year / 100));
    RemainderShift(0, 100, 4 * (year / 400));
    assert year % 100 == 0 ==> 4 * (25 * (year / 100)) == year;
    assert year % 400 == 0 ==> 100 * (4 * (year / 400)) == year;
  }

  lemma QuotientStep(n: int, m: int)
    requires m == 4 || m == 100 || m == 400
    ensures n / m == (n - 1) / m + (if n % m == 0 then 1 else 0)
  {
  }

  /** The day number as 400-year eras of years counted from March. */
  lemma DayNumberInEras(d: Date)
    requires ValidDate(d)
    ensures var y := MarchYear(d);
            DayNumber(d) + 719_468 == 146_097 * (y / 400) + EraDay(y % 400, DayOfMarchYear(d))
  {
    var y := MarchYear(d);
    DaysToYearClosed(d.year);
    DaysToMonthTable(d.year);
    LeapCount(d.year);
    assert y == 400 * (y / 400) + y % 400;
    assert y / 4 == 100 * (y / 400) + (y % 400) / 4;
    assert y / 100 == 4 * (y / 400) + (y % 400) / 100;
  }

  lemma DayOfMarchYearBounds(d: Date)
    requires ValidDate(d)
    ensures 0 <= DayOfMarchYear(d) <= 365
    ensures DayOfMarchYear(d) == 365 ==> IsLeap(MarchYear(d) + 1)
    ensures MonthFromMarch(DayOfMarchYear(d)) == MarchMonth(d)
  {
  }

  function EraDay(yoe: int, doy: int): int { 365 * yoe + yoe / 4 - yoe / 100 + doy }

  /** The year of the era is read back from the day of the era. */
  lemma YearIsReadBack(yoe: int, doy: int)
    requires 0 <= yoe < 400 && 0 <= doy <= 365
    requires doy == 365 ==> yoe % 4 == 3 && (yoe % 100 != 99 || yoe == 399)
    ensures var doe := EraDay(yoe, doy);
            0 <= doe < 146_097 && YearOfEra(doe) == yoe && DayOfYear(doe) == doy
  {
    var c, q, r := yoe / 100, yoe % 100 / 4, yoe % 4;
    assert yoe == 100 * c + 4 * q + r;
    assert yoe / 4 == 25 * c + q;
    EraQuotients(c, q, r, doy);
  }

  lemma EraQuotients(c: int, q: int, r: int, doy: int)
    requires 0 <= c < 4 && 0 <= q < 25 && 0 <= r < 4 && 0 <= doy <= 365
    requires doy == 365 ==> r == 3 && (q < 24 || c == 3)
    ensures var doe := 36_524 * c + 1461 * q + 365 * r + doy;
            0 <= doe < 146_097 && YearOfEra(doe) == 100 * c + 4 * q + r
  {
    var doe := 36_524 * c + 1461 * q + 365 * r + doy;
    var f := if 24 * c + q + 365 * r + doy >= 1460 then 1 else 0;
    assert doe / 1460 == 25 * c + q + f;
    var g := if doe == 146_096 then 1 else 0;
    assert doe / 36_524 == c + g;
    assert doe / 146_096 == g;
    assert 0 <= doy - f < 365;
  }

  /** The steps of the closed form read off a valid date's day number. */
  lemma EraReading(d: Date)
    requires ValidDate(d)
    ensures var n := DayNumber(d);
            && MarchYear(d) == 400 * ((n + 719_468) / 146_097) + YearOfEra(DayOfEra(n))
            && DayOfMarchYear(d) == DayOfYear(DayOfEra(n))
            && MarchMonth(d) == MonthFromMarch(DayOfYear(DayOfEra(n)))
  {
    var y := MarchYear(d);
    DayNumberInEras(d);
    DayOfMarchYearBounds(d);
    LeapYearBeforeMarch(y);
    YearIsReadBack(y % 400, DayOfMarchYear(d));
    EraSplit(DayNumber(d), y / 400, EraDay(y % 400, DayOfMarchYear(d)));
  }

  lemma DayOfMonthOfDate(d: Date)
    requires ValidDate(d)
    ensures DayOfMonth(DayNumber(d)) == d.day
  {
    EraReading(d);
  }

  lemma DayNumberInjective(a: Date, b: Date)
    requires ValidDate(a) && ValidDate(b)
    requires DayNumber(a) == DayNumber(b)
    ensures a == b
  {
    EraReading(a);
    EraReading(b);
    SameMarchParts(a, b);
  }

  lemma SameMarchParts(a: Date, b: Date)
    requires ValidDate(a) && ValidDate(b)
    requires MarchYear(a) == MarchYear(b) && MarchMonth(a) == MarchMonth(b) && DayOfMarchYear(a) == DayOfMarchYear(b)
    ensures a == b
  {
  }

  lemma LeapYearBeforeMarch(year: int)
    ensures IsLeap(year + 1) ==> year % 400 % 4 == 3 && (year % 400 % 100 != 99 || year % 400 == 399)
  {
    var yoe := year % 400;
    LeapIsPeriodic(year / 400, yoe + 1);
    assert yoe % 100 == 99 ==> (yoe + 1) % 100 == 0;
    assert (yoe + 1) % 400 == 0 ==> yoe == 399;
  }

  lemma LeapIsPeriodic(era: int, year: int)
    ensures IsLeap(400 * era + year) == IsLeap(year)
  {
    RemainderShift(year, 4, 100 * era);
    RemainderShift(year, 100, 4 * era);
    RemainderShift(year, 400, era);
    assert 4 * (100 * era) == 400 * era && 100 * (4 * era) == 400 * era;
  }

  lemma RemainderShift(x: int, m: int, k: int)
    requires m == 4 || m == 100 || m == 400
    ensures (m * k + x) % m == x % m
  {
  }

  lemma EraSplit(n: int, era: int, doe: int)
    requires n + 719_468 == 146_097 * era + doe && 0 <= doe < 146_097
    ensures DayOfEra(n) == doe && (n + 719_468) / 146_097 == era
  {
  }

  lemma DayOfMidnight(days: int)
    ensures DayOf(Midnight(days)) == days
  {
  }

  // ----- the properties of the source ---------------------------------------

  lemma {:induction false} PeriodStartsOfToday(nowMs: int)
    ensures var today := DateOf(DayOf(nowMs));
            PeriodStarts(nowMs) == (Midnight(DayOf(nowMs)), Midnight(DayNumber(FirstOfMonth(today))))
  {
    hide DateOf, DayOfMonth, DaysToYear, DaysToMonth;
    DayNumberOfDateOf(DayOf(nowMs));
    DayOfMonthOfDate(DateOf(DayOf(nowMs)));
  }

  /** For every instant, before 1970 too, the source's closed form returns the
      midnight of its day and of the first day of its month in the day-by-day
      calendar. */
  lemma PeriodStartsAreCivil(nowMs: int)
    ensures var today := DateOf(DayOf(nowMs));
            && DayStart(nowMs) == Midnight(DayOf(nowMs))
            && MonthStart(nowMs) == Midnight(DayOf(MonthStart(nowMs)))
            && DateOf(DayOf(MonthStart(nowMs))) == FirstOfMonth(today)
  {
    PeriodStartsOfToday(nowMs);
    var first := FirstOfMonth(DateOf(DayOf(nowMs)));
    DateOfDayNumber(first);
    DayOfMidnight(DayNumber(first));
  }

  lemma DateOfDayNumber(d: Date)
    requires ValidDate(d)
    ensures DateOf(DayNumber(d)) == d
  {
    DayNumberOfDateOf(DayNumber(d));
    DayNumberInjective(d, DateOf(DayNumber(d)));
  }

  /** Two instants share a month start exactly when they share year and month,
      and a day start exactly when they share the date. */
  lemma SharedStarts(a: int, b: int)
    ensures var da, db := DateOf(DayOf(a)), DateOf(DayOf(b));
            && (MonthStart(a) == MonthStart(b) <==> da.year == db.year && da.month == db.month)
            && (DayStart(a) == DayStart(b) <==> da == db)
  {
    PeriodStartsOfToday(a);
    PeriodStartsOfToday(b);
    var da, db := DateOf(DayOf(a)), DateOf(DayOf(b));
    DayNumberOfDateOf(DayOf(a));
    DayNumberOfDateOf(DayOf(b));
    if MonthStart(a) == MonthStart(b) {
      DayNumberInjective(FirstOfMonth(da), FirstOfMonth(db));
    }
  }

  /** A later day's month never starts earlier. */
  lemma MonthsAreMonotone(a: Date, b: Date)
    requires ValidDate(a) && ValidDate(b) && DayNumber(a) <= DayNumber(b)
    ensures DayNumber(FirstOfMonth(a)) <= DayNumber(FirstOfMonth(b))
  {
    var fa, fb := DayNumber(FirstOfMonth(a)), DayNumber(FirstOfMonth(b));
    if fa > fb {
      // The first of a's month would be a later day of b's month.
      DayNumberInjective(Date(b.year, b.month, fa - fb + 1), FirstOfMonth(a));
      assert false;
    }
  }

  /** A later instant never has an earlier day start or month start, and no
      start lies after its instant. */
  lemma StartsAreMonotone(a: int, b: int)
    requires a <= b
    ensures DayStart(a) <= DayStart(b) && MonthStart(a) <= MonthStart(b)
    ensures MonthStart(a) <= DayStart(a) <= a
  {
    PeriodStartsOfToday(a);
    PeriodStartsOfToday(b);
    DayNumberOfDateOf(DayOf(a));
    DayNumberOfDateOf(DayOf(b));
    MonthsAreMonotone(DateOf(DayOf(a)), DateOf(DayOf(b)));
  }

  const I64_MIN := -0x8000_0000_0000_0000
  const I64_MAX := 0x7fff_ffff_ffff_ffff

  /** The source computes in 64-bit integers. From 31 days after the smallest
      of them on, neither start leaves that range. */
  lemma PeriodStartsFit(nowMs: int)
    requires I64_MIN + Midnight(31) <= nowMs <= I64_MAX
    ensures I64_MIN <= MonthStart(nowMs) <= DayStart(nowMs) <= I64_MAX
  {
    PeriodStartsOfToday(nowMs);
    StartsAreMonotone(nowMs, nowMs);
    DayNumberOfDateOf(DayOf(nowMs));
  }
}
