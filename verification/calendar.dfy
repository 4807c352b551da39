/**
 * The proleptic Gregorian calendar as Python's `datetime` sees it, reduced to what
 * the month generator needs: dates, adding days, and the year range 1..9999.
 */
module Calendar {
  import opened Wrappers

  const MinYear := 1
  const MaxYear := 9999

  /** The message of the OverflowError raised when date arithmetic leaves the range. */
  const OutOfRange := "date value out of range"

  predicate IsLeapYear(year: int) {
    year % 4 == 0 && (year % 100 != 0 || year % 400 == 0)
  }

  function DaysInMonth(year: int, month: int): (n: int)
    ensures 28 <= n <= 31
    ensures month == 2 ==> (n == 29 <==> IsLeapYear(year))
  {
    if month == 2 then (if IsLeapYear(year) then 29 else 28)
    else if month == 4 || month == 6 || month == 9 || month == 11 then 30
    else 31
  }

  /** A calendar day; unbounded years, so that stepping past 9999 can be observed. */
  datatype Date = Date(year: int, month: int, day: int) {
    predicate Valid() {
      1 <= month <= 12 && 1 <= day <= DaysInMonth(year, month)
    }
  }

  /** A (year, month) pair, as `generate_months` yields it. */
  datatype YearMonth = YearMonth(year: int, month: int) {
    /** What `strptime(s, "%Y-%m")` can produce. */
    predicate Valid() {
      MinYear <= year <= MaxYear && 1 <= month <= 12
    }

    /** Months since January of year 0; chronological order is the order of ordinals. */
    function Ordinal(): int {
      year * 12 + month - 1
    }

    /** The following calendar month: December rolls over to January of the next year. */
    function Next(): (n: YearMonth)
      ensures n.Ordinal() == Ordinal() + 1
      ensures 1 <= month <= 12 ==> 1 <= n.month <= 12
    {
      if month == 12 then YearMonth(year + 1, 1) else YearMonth(year, month + 1)
    }
  }

  /** The last month a `datetime` can hold; stepping beyond it raises. */
  const LastMonth := YearMonth(MaxYear, 12)

  /** Two months with months in 1..12 are equal exactly when their ordinals are. */
  lemma OrdinalInjective(a: YearMonth, b: YearMonth)
    requires 1 <= a.month <= 12 && 1 <= b.month <= 12
    requires a.Ordinal() == b.Ordinal()
    ensures a == b
  {
  }

  /** The day after `d`, rolling over month and year ends. */
  function NextDay(d: Date): Date {
    if d.day < DaysInMonth(d.year, d.month) then Date(d.year, d.month, d.day + 1)
    else if d.month < 12 then Date(d.year, d.month + 1, 1)
    else Date(d.year + 1, 1, 1)
  }

  /** `d + timedelta(days=n)` on unbounded years. */
  function AddDays(d: Date, n: nat): Date
    decreases n
  {
    if n == 0 then d else AddDays(NextDay(d), n - 1)
  }

  /** Adding days that stay inside the month only moves the day. */
  lemma {:induction false} AddDaysWithinMonth(d: Date, n: nat)
    requires d.Valid() && d.day + n <= DaysInMonth(d.year, d.month)
    ensures AddDays(d, n) == Date(d.year, d.month, d.day + n)
    decreases n
  {
    if n > 0 {
      AddDaysWithinMonth(NextDay(d), n - 1);
    }
  }

  /** Adding `a + b` days is adding `a` days and then `b` more. */
  lemma {:induction false} AddDaysSplit(d: Date, a: nat, b: nat)
    ensures AddDays(d, a + b) == AddDays(AddDays(d, a), b)
    decreases a
  {
    if a > 0 {
      AddDaysSplit(NextDay(d), a - 1, b);
    }
  }

  /**
   * The step of `generate_months`: add 32 days to the first of the month, then go back
   * to day 1 (`replace(day=1)`). Python raises OverflowError when the sum leaves year 9999.
   */
  function Step(ym: YearMonth): Option<YearMonth> {
    var d := AddDays(Date(ym.year, ym.month, 1), 32);
    if d.year > MaxYear then None else Some(YearMonth(d.year, d.month))
  }

  /**
   * Whatever the month's length (28 to 31 days), the first of the month plus 32 days is
   * day 2 to 5 of the next calendar month.
   */
  lemma ThirtyTwoDaysLandInNextMonth(ym: YearMonth)
    requires 1 <= ym.month <= 12
    ensures var d := AddDays(Date(ym.year, ym.month, 1), 32);
      d.year == ym.Next().year && d.month == ym.Next().month &&
      d.day == 33 - DaysInMonth(ym.year, ym.month) && 2 <= d.day <= 5
  {
    var len := DaysInMonth(ym.year, ym.month);
    var first := Date(ym.year, ym.month, 1);
    var next := ym.Next();
    AddDaysSplit(first, len - 1, 33 - len);
    AddDaysWithinMonth(first, len - 1);
    assert NextDay(Date(ym.year, ym.month, len)) == Date(next.year, next.month, 1);
    AddDaysWithinMonth(Date(next.year, next.month, 1), 32 - len);
  }

  /** The step yields the next calendar month, and fails exactly after December 9999. */
  lemma StepIsNextMonth(ym: YearMonth)
    requires ym.Valid()
    ensures ym == LastMonth ==> Step(ym) == None
    ensures ym != LastMonth ==> Step(ym) == Some(ym.Next()) && ym.Next().Valid()
  {
    ThirtyTwoDaysLandInNextMonth(ym);
  }
}
