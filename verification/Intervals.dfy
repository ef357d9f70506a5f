/** Billing periods (editor-mode/src/editor/billing.py, `add_interval`): one
    month or one year later, a day the month does not have becoming its last. */
module Intervals {
  import opened Common
  import opened Calendar

  datatype Interval = Month | Year

  /** Months counted through the years. */
  function MonthIndex(d: Date): int { 12 * d.year + d.month - 1 }

  function LengthAt(index: int): (n: int)
    ensures 28 <= n <= 31
  {
    MonthLength(index / 12, index % 12 + 1)
  }

  function MonthsOf(i: Interval): int { if i.Year? then 12 else 1 }

  function Later(d: Date, months: int): Date {
    var index := d.month - 1 + months;
    var year, month := d.year + index / 12, index % 12 + 1;
    Date(year, month, Min(d.day, MonthLength(year, month)))
  }

  /** A moment: a date and the microseconds since its midnight. */
  datatype Stamp = Stamp(date: Date, micros: nat)

  predicate ValidStamp(s: Stamp) {
    ValidDate(s.date) && s.micros < 86_400_000_000 && 1 <= s.date.year <= 9999
  }

  /** Microseconds since 1970. */
  function Instant(s: Stamp): int { DayNumber(s.date) * 86_400_000_000 + s.micros }

  /** One interval later; None past the year 9999, which dates do not reach. */
  function AddInterval(s: Stamp, i: Interval): Option<Stamp> {
    var later := Later(s.date, MonthsOf(i));
    if later.year > 9999 then None else Some(s.(date := later))
  }

  // ----- months and days -----------------------------------------------------------------

  function FirstDay(index: int): int { DayNumber(Date(index / 12, index % 12 + 1, 1)) }

  lemma {:induction false} MonthAfterMonth(index: int)
    ensures FirstDay(index + 1) == FirstDay(index) + LengthAt(index)
  {
    var year, month := index / 12, index % 12 + 1;
    if month < 12 {
      assert (index + 1) / 12 == year && (index + 1) % 12 == month;
      assert DaysToMonth(year, month + 1) == DaysToMonth(year, month) + MonthLength(year, month);
    } else {
      assert (index + 1) / 12 == year + 1 && (index + 1) % 12 == 0;
      YearStep(year);
    }
  }

  lemma {:induction false} MonthsGoOn(i: int, j: int)
    requires i < j
    ensures FirstDay(i) + LengthAt(i) <= FirstDay(j)
    decreases j - i
  {
    hide FirstDay, LengthAt;
    MonthAfterMonth(i);
    if i + 1 < j {
      MonthsGoOn(i + 1, j);
    }
  }

  lemma DayInMonth(d: Date)
    requires ValidDate(d)
    ensures DayNumber(d) == FirstDay(MonthIndex(d)) + d.day - 1
    ensures 1 <= d.day <= LengthAt(MonthIndex(d))
  {
    assert MonthIndex(d) / 12 == d.year && MonthIndex(d) % 12 == d.month - 1;
  }

  lemma LaterMonth(d: Date, months: int)
    requires ValidDate(d)
    ensures var later := Later(d, months);
            && ValidDate(later) && MonthIndex(later) == MonthIndex(d) + months
            && later.day == Min(d.day, LengthAt(MonthIndex(d) + months))
  {
    var index := d.month - 1 + months;
    assert (MonthIndex(d) + months) / 12 == d.year + index / 12;
    assert (MonthIndex(d) + months) % 12 == index % 12;
  }

  /** One month later is 28 to 31 days later. */
  lemma {:induction false} MonthSpan(d: Date)
    requires ValidDate(d)
    ensures ValidDate(Later(d, 1)) && 28 <= DayNumber(Later(d, 1)) - DayNumber(d) <= 31
  {
    LaterMonth(d, 1);
    DayInMonth(d);
    DayInMonth(Later(d, 1));
    MonthAfterMonth(MonthIndex(d));
  }

  /** Days before `month` in two years following each other. */
  lemma {:induction false} SameMonthNextYear(year: int, month: int)
    requires 1 <= month <= 12
    ensures DaysToMonth(year + 1, month) - DaysToMonth(year, month) ==
            if month <= 2 then 0 else YearLength(year + 1) - YearLength(year)
    decreases month
  {
    if month > 1 {
      SameMonthNextYear(year, month - 1);
    }
  }

  /** One year later is 365 or 366 days later. */
  lemma {:induction false} YearSpan(d: Date)
    requires ValidDate(d)
    ensures ValidDate(Later(d, 12)) && 365 <= DayNumber(Later(d, 12)) - DayNumber(d) <= 366
  {
    hide DaysToMonth, DaysToYear;
    assert Later(d, 12).year == d.year + 1 && Later(d, 12).month == d.month;
    YearStep(d.year);
    SameMonthNextYear(d.year, d.month);
  }

  /** An earlier date never becomes a later one: intervals keep the order. */
  lemma {:induction false} LaterIsMonotone(a: Date, b: Date, months: nat)
    requires ValidDate(a) && ValidDate(b) && DayNumber(a) <= DayNumber(b)
    ensures DayNumber(Later(a, months)) <= DayNumber(Later(b, months))
  {
    hide DayNumber, FirstDay, LengthAt, MonthIndex, Later, ValidDate;
    DayInMonth(a);
    DayInMonth(b);
    var i, j := MonthIndex(a), MonthIndex(b);
    if j < i {
      MonthsGoOn(j, i);
    }
    LaterMonth(a, months);
    LaterMonth(b, months);
    DayInMonth(Later(a, months));
    DayInMonth(Later(b, months));
    if i < j {
      MonthsGoOn(i + months, j + months);
    }
  }

  /** But it may be the same: two ends of January fall together. */
  lemma OrderIsWeak()
    ensures Later(Date(2026, 1, 30), 1) == Later(Date(2026, 1, 31), 1) == Date(2026, 2, 28)
  {
  }

  // ----- many periods ----------------------------------------------------------------------

  /** `n` monthly periods, one after the other. */
  function Steps(d: Date, n: nat): Date {
    if n == 0 then d else Later(Steps(d, n - 1), 1)
  }

  /** The shortest of the months from `index` to `n` months later. */
  function Shortest(index: int, n: nat): (m: int)
    ensures 28 <= m <= 31
    ensures forall at :: index <= at <= index + n ==> m <= LengthAt(at)
    ensures exists at :: index <= at <= index + n && m == LengthAt(at)
  {
    if n == 0 then LengthAt(index) else Min(Shortest(index, n - 1), LengthAt(index + n))
  }

  /** `n` monthly periods are exactly `n` months, ending on the smaller of the
      starting day and the shortest month visited: a 31st never comes back. */
  lemma {:induction false} MonthlyPeriods(d: Date, n: nat)
    requires ValidDate(d)
    ensures ValidDate(Steps(d, n)) && MonthIndex(Steps(d, n)) == MonthIndex(d) + n
    ensures Steps(d, n).day == Min(d.day, Shortest(MonthIndex(d), n))
    ensures DayNumber(d) + 28 * n <= DayNumber(Steps(d, n)) <= DayNumber(d) + 31 * n
  {
    hide MonthLength, MonthIndex, LengthAt, Later, DayNumber;
    if n == 0 {
      DayInMonth(d);
    } else {
      MonthlyPeriods(d, n - 1);
      LaterMonth(Steps(d, n - 1), 1);
      MonthSpan(Steps(d, n - 1));
    }
  }

  /** Twelve monthly periods never end after a yearly one, and end with it
      exactly when the starting day is in every month on the way. */
  lemma {:induction false} TwelveMonthsOrAYear(d: Date)
    requires ValidDate(d)
    ensures DayNumber(Steps(d, 12)) <= DayNumber(Later(d, 12))
    ensures Steps(d, 12) == Later(d, 12) <==> Min(d.day, LengthAt(MonthIndex(d) + 12)) <= Shortest(MonthIndex(d), 12)
  {
    hide MonthLength, LengthAt, DayNumber, Shortest, Steps, FirstDay;
    MonthlyPeriods(d, 12);
    LaterMonth(d, 12);
    DayInMonth(Steps(d, 12));
    DayInMonth(Later(d, 12));
    assert Shortest(MonthIndex(d), 12) <= LengthAt(MonthIndex(d) + 12);
  }

  /** A period always ends later than it starts, by 28 to 31 days or by 365 or
      366, at the same time of day; and only the year 9999 has no next period. */
  lemma {:induction false} PeriodLength(s: Stamp, i: Interval)
    requires ValidStamp(s)
    ensures AddInterval(s, i).None? ==> s.date.year == 9999
    ensures AddInterval(s, i).Some? ==>
              var end := AddInterval(s, i).value;
              var days := DayNumber(end.date) - DayNumber(s.date);
              && ValidStamp(end) && Instant(end) == Instant(s) + days * 86_400_000_000
              && if i.Month? then 28 <= days <= 31 else 365 <= days <= 366
  {
    hide DayNumber;
    MonthSpan(s.date);
    YearSpan(s.date);
  }
}
