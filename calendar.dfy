/** Calendar arithmetic on local (year, month, day) dates, as JavaScript's
    `Date` performs it: proleptic Gregorian months, and `setMonth` that keeps
    the day of the month and carries an overflowing day into the next month. */
module Calendar {

  /** A local calendar date; `month` is 1-based (January is 1). */
  datatype Date = Date(year: int, month: int, day: int)

  predicate IsLeapYear(y: int) {
    y % 4 == 0 && (y % 100 != 0 || y % 400 == 0)
  }

  function DaysInMonth(y: int, m: int): (n: int)
    requires 1 <= m <= 12
    ensures 28 <= n <= 31
    ensures n == 28 <==> m == 2 && !IsLeapYear(y)
    ensures n == 29 <==> m == 2 && IsLeapYear(y)
    ensures n == 30 <==> m in {4, 6, 9, 11}
  {
    if m == 2 then (if IsLeapYear(y) then 29 else 28)
    else if m == 4 || m == 6 || m == 9 || m == 11 then 30
    else 31
  }

  predicate ValidDate(d: Date) {
    1 <= d.month <= 12 && 1 <= d.day <= DaysInMonth(d.year, d.month)
  }

  /** The (year, month) after the given one. */
  function NextMonth(y: int, m: int): (r: (int, int))
    requires 1 <= m <= 12
    ensures 1 <= r.1 <= 12
    ensures r.1 == (if m == 12 then 1 else m + 1)
    ensures r.0 == (if m == 12 then y + 1 else y)
  {
    if m == 12 then (y + 1, 1) else (y, m + 1)
  }

  /** The calendar month before the given one: January rolls back to
      December of the previous year. This is what the column labels intend. */
  function PrevMonth(y: int, m: int): (r: (int, int))
    requires 1 <= m <= 12
    ensures 1 <= r.1 <= 12
    ensures NextMonth(r.0, r.1) == (y, m)
  {
    if m == 1 then (y - 1, 12) else (y, m - 1)
  }

  /** The date `d` days after the first of (y, m), minus one: a day of the
      month beyond the month's end is carried into the following months, as
      the MakeDay step of ECMAScript's `setMonth` does. */
  function Normalize(y: int, m: int, d: int): (r: Date)
    requires 1 <= m <= 12 && 1 <= d
    ensures ValidDate(r)
    ensures d <= DaysInMonth(y, m) ==> r == Date(y, m, d)
    decreases d
  {
    if d <= DaysInMonth(y, m) then Date(y, m, d)
    else
      var next := NextMonth(y, m);
      Normalize(next.0, next.1, d - DaysInMonth(y, m))
  }

  /** `Date.prototype.getMonth`: the zero-based month. */
  function GetMonth(d: Date): int {
    d.month - 1
  }

  /** `Date.prototype.setMonth(monthIndex)` on a local date: the zero-based
      index may leave 0..11 and then moves the year (floor division); the day
      of the month is kept and overflows forward. */
  function SetMonth(d: Date, monthIndex: int): (r: Date)
    requires ValidDate(d)
    ensures ValidDate(r)
    ensures 0 <= monthIndex < 12 && d.day <= DaysInMonth(d.year, monthIndex + 1) ==>
              r == Date(d.year, monthIndex + 1, d.day)
  {
    Normalize(d.year + monthIndex / 12, monthIndex % 12 + 1, d.day)
  }

  /** `setMonth(getMonth() - 1)` keeps the day: the previous calendar month
      when that month has the day, otherwise the day overflows back into the
      current month, `day - DaysInMonth(previous month)` days in. */
  lemma SetMonthBack(d: Date)
    requires ValidDate(d)
    ensures var p := PrevMonth(d.year, d.month);
            var r := SetMonth(d, GetMonth(d) - 1);
            && (d.day <= DaysInMonth(p.0, p.1) ==> r == Date(p.0, p.1, d.day))
            && (d.day > DaysInMonth(p.0, p.1) ==>
                  r == Date(d.year, d.month, d.day - DaysInMonth(p.0, p.1)))
  {
    var p := PrevMonth(d.year, d.month);
    var idx := GetMonth(d) - 1;
    assert d.year + idx / 12 == p.0 && idx % 12 + 1 == p.1;
    if d.day > DaysInMonth(p.0, p.1) {
      var rest := d.day - DaysInMonth(p.0, p.1);
      assert rest <= 3 <= DaysInMonth(d.year, d.month);
      assert Normalize(p.0, p.1, d.day) == Normalize(d.year, d.month, rest);
    }
  }

  /** The prior date exactly as the column generator computes it:
      `priorDate.setMonth(priorDate.getMonth() - 1)`. It is the same day of
      the previous calendar month when that month has the day, and otherwise
      lands back in the current month. */
  function PriorDateAsWritten(d: Date): (r: Date)
    requires ValidDate(d)
    ensures ValidDate(r)
    ensures var p := PrevMonth(d.year, d.month);
            && (d.day <= DaysInMonth(p.0, p.1) ==> r == Date(p.0, p.1, d.day))
            && (d.day > DaysInMonth(p.0, p.1) ==>
                  r == Date(d.year, d.month, d.day - DaysInMonth(p.0, p.1)))
  {
    SetMonthBack(d);
    SetMonth(d, GetMonth(d) - 1)
  }

  /** The as-written prior date falls in the previous calendar month exactly
      when that month is long enough to hold the day of the month. */
  lemma PriorDateAsWrittenMonth(d: Date)
    requires ValidDate(d)
    ensures var p := PrevMonth(d.year, d.month);
            PriorDateAsWritten(d).month == p.1 <==> d.day <= DaysInMonth(p.0, p.1)
  {
  }

  const MonthNames: seq<string> := ["January", "February", "March", "April", "May", "June", "July",
                                    "August", "September", "October", "November", "December"]

  /** No two months share a name. */
  lemma MonthNamesDistinct()
    ensures forall i, j | 0 <= i < j < |MonthNames| :: MonthNames[i] != MonthNames[j]
  {
    forall i, j | 0 <= i < j < |MonthNames|
      ensures MonthNames[i] != MonthNames[j]
    {
      assert MonthNames[i][..3] != MonthNames[j][..3] || MonthNames[i] != MonthNames[j];
    }
  }

  /** The en-US long month name of `toLocaleDateString('en-US', { month: 'long' })`:
      one of the twelve names, and no other month's. */
  function MonthName(m: int): (name: string)
    requires 1 <= m <= 12
    ensures name in MonthNames
    ensures forall k | 0 <= k < |MonthNames| && k != m - 1 :: MonthNames[k] != name
  {
    MonthNamesDistinct();
    MonthNames[m - 1]
  }

  /** Distinct months have distinct names. */
  lemma MonthNameInjective(m: int, n: int)
    requires 1 <= m <= 12 && 1 <= n <= 12
    ensures MonthName(m) == MonthName(n) <==> m == n
  {
  }

  /** The prior-month name as the column generator computes it. */
  function PriorMonthNameAsWritten(d: Date): (name: string)
    requires ValidDate(d)
    ensures var p := PrevMonth(d.year, d.month);
            && (d.day <= DaysInMonth(p.0, p.1) ==> name == MonthName(p.1))
            && (d.day > DaysInMonth(p.0, p.1) ==> name == MonthName(d.month))
  {
    MonthName(PriorDateAsWritten(d).month)
  }

  /** The prior-month name as intended: the previous calendar month's name. */
  function PriorMonthName(d: Date): (name: string)
    requires ValidDate(d)
    ensures name != MonthName(d.month)
  {
    var p := PrevMonth(d.year, d.month);
    MonthNameInjective(p.1, d.month);
    MonthName(p.1)
  }

  /** The corrected prior-month name follows the calendar: January's prior
      month is December, and every other month's is the month before it. */
  lemma PriorMonthNameIsPrevious(d: Date)
    requires ValidDate(d)
    ensures d.month == 1 ==> PriorMonthName(d) == "December"
    ensures d.month > 1 ==> PriorMonthName(d) == MonthName(d.month - 1)
  {
  }

  /** The as-written name agrees with the intended one exactly when the
      previous month holds the day of the month. */
  lemma PriorMonthNameAsWrittenAgrees(d: Date)
    requires ValidDate(d)
    ensures var p := PrevMonth(d.year, d.month);
            PriorMonthNameAsWritten(d) == PriorMonthName(d) <==> d.day <= DaysInMonth(p.0, p.1)
  {
    var p := PrevMonth(d.year, d.month);
    PriorDateAsWrittenMonth(d);
    MonthNameInjective(PriorDateAsWritten(d).month, p.1);
  }

  /** The as-written prior-month name repeats the current month's name
      exactly when the previous month is too short for the day. */
  lemma PriorMonthNameAsWrittenRepeats(d: Date)
    requires ValidDate(d)
    ensures var p := PrevMonth(d.year, d.month);
            PriorMonthNameAsWritten(d) == MonthName(d.month) <==> d.day > DaysInMonth(p.0, p.1)
  {
    var p := PrevMonth(d.year, d.month);
    MonthNameInjective(PriorDateAsWritten(d).month, d.month);
    assert NextMonth(p.0, p.1) == (d.year, d.month);
  }

  /** On March 31 (not a leap year) `setMonth` lands on March 3, so the
      "prior month" label reads "March"; on July 31 it lands on July 1. */
  lemma PriorMonthNameAsWrittenCounterexamples()
    ensures PriorDateAsWritten(Date(2025, 3, 31)) == Date(2025, 3, 3)
    ensures PriorMonthNameAsWritten(Date(2025, 3, 31)) == "March"
    ensures PriorMonthName(Date(2025, 3, 31)) == "February"
    ensures PriorMonthNameAsWritten(Date(2025, 3, 30)) == "March"
    ensures PriorMonthNameAsWritten(Date(2025, 7, 31)) == "July"
    ensures PriorMonthName(Date(2025, 7, 31)) == "June"
  {
    assert PrevMonth(2025, 3) == (2025, 2) && DaysInMonth(2025, 2) == 28;
    assert PrevMonth(2025, 7) == (2025, 6) && DaysInMonth(2025, 6) == 30;
  }

  /** January rolls back to December of the previous year in both readings. */
  lemma PriorOfJanuary(y: int, day: int)
    requires 1 <= day <= 31
    ensures PriorDateAsWritten(Date(y, 1, day)) == Date(y - 1, 12, day)
    ensures PriorMonthNameAsWritten(Date(y, 1, day)) == "December"
  {
  }
}
