/** `generate_months`: the inclusive, chronological range of (year, month) pairs. */
module Months {
  import opened Wrappers
  import opened Calendar

  /** The months from `first` to `last`, both inclusive, one calendar month apart. */
  function MonthRange(first: YearMonth, last: YearMonth): seq<YearMonth>
    decreases last.Ordinal() - first.Ordinal()
  {
    if last.Ordinal() < first.Ordinal() then [] else [first] + MonthRange(first.Next(), last)
  }

  /**
   * What `generate_months` returns or raises: the range, except that a non-empty range
   * ending in December 9999 makes the final 32-day step overflow.
   */
  function MonthsOutcome(first: YearMonth, last: YearMonth): Result<seq<YearMonth>> {
    if first.Ordinal() <= last.Ordinal() && last == LastMonth then Err(OutOfRange)
    else Ok(MonthRange(first, last))
  }

  /** Element `k` of the range is `k` months after its start. */
  lemma {:induction false} MonthRangeAt(first: YearMonth, last: YearMonth)
    requires 1 <= first.month <= 12
    ensures |MonthRange(first, last)| ==
      if last.Ordinal() < first.Ordinal() then 0 else last.Ordinal() - first.Ordinal() + 1
    ensures forall k :: 0 <= k < |MonthRange(first, last)| ==>
      MonthRange(first, last)[k].Ordinal() == first.Ordinal() + k &&
      1 <= MonthRange(first, last)[k].month <= 12
    decreases last.Ordinal() - first.Ordinal()
  {
    if first.Ordinal() <= last.Ordinal() {
      var rest := MonthRange(first.Next(), last);
      MonthRangeAt(first.Next(), last);
      assert MonthRange(first, last) == [first] + rest;
      forall k | 1 <= k < |MonthRange(first, last)|
        ensures MonthRange(first, last)[k] == rest[k - 1]
      {
      }
    }
  }

  /**
   * The properties of `generate_months`: empty when start is after end; otherwise it begins
   * at start, ends at end, each element is the calendar month after the one before it,
   * the sequence is strictly increasing, every element is a valid month, and its length is
   * (end.year * 12 + end.month) - (start.year * 12 + start.month) + 1.
   */
  lemma MonthRangeProperties(first: YearMonth, last: YearMonth)
    requires first.Valid() && last.Valid()
    ensures var r := MonthRange(first, last);
      && (r == [] <==> last.Ordinal() < first.Ordinal())
      && (first.Ordinal() <= last.Ordinal() ==>
            |r| == (last.year * 12 + last.month) - (first.year * 12 + first.month) + 1 &&
            r[0] == first && r[|r| - 1] == last)
      && (forall k :: 0 <= k < |r| - 1 ==> r[k + 1] == r[k].Next())
      && (forall i, j :: 0 <= i < j < |r| ==> r[i].Ordinal() < r[j].Ordinal())
      && (forall k :: 0 <= k < |r| ==> r[k].Valid())
  {
    var r := MonthRange(first, last);
    MonthRangeAt(first, last);
    if first.Ordinal() <= last.Ordinal() {
      OrdinalInjective(r[0], first);
      OrdinalInjective(r[|r| - 1], last);
    }
    forall k | 0 <= k < |r| - 1 ensures r[k + 1] == r[k].Next() {
      OrdinalInjective(r[k + 1], r[k].Next());
    }
  }

  /** The range 2020-11 to 2021-02 crosses a year boundary. */
  lemma YearBoundaryExample()
    ensures MonthRange(YearMonth(2020, 11), YearMonth(2021, 2)) ==
      [YearMonth(2020, 11), YearMonth(2020, 12), YearMonth(2021, 1), YearMonth(2021, 2)]
  {
  }

  /**
   * `generate_months`: walk from the start while it is not after the end, appending each
   * month and stepping by 32 days snapped back to day 1.
   */
  method GenerateMonths(start: YearMonth, end: YearMonth) returns (r: Result<seq<YearMonth>>)
    requires start.Valid() && end.Valid()
    ensures r == MonthsOutcome(start, end)
  {
    var months: seq<YearMonth> := [];
    var current := start;
    while current.Ordinal() <= end.Ordinal()
      invariant current.Valid()
      invariant months + MonthRange(current, end) == MonthRange(start, end)
      decreases end.Ordinal() - current.Ordinal()
    {
      months := months + [current];
      StepIsNextMonth(current);
      var next := Step(current);
      if next.None? {
        return Err(OutOfRange);
      }
      current := next.value;
    }
    // A valid month is never after December 9999, so the loop can only have ended by
    // passing an end that is not the last representable month.
    assert current.Ordinal() <= LastMonth.Ordinal();
    assert MonthRange(current, end) == [];
    assert months == MonthRange(start, end);
    assert !(start.Ordinal() <= end.Ordinal() && end == LastMonth);
    return Ok(months);
  }
}
