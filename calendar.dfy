/**
 * The Gregorian calendar rules the aggregates divide by, written out in
 * place of the `Date` tricks the source uses to obtain them.
 */
module Calendar {

  /** A local calendar day: `getFullYear()`, `getMonth() + 1` and `getDate()` of a timestamp. */
  datatype CalendarDate = CalendarDate(year: int, month: int, day: int)

  predicate IsLeapYear(year: int) {
    year % 4 == 0 && (year % 100 != 0 || year % 400 == 0)
  }

  /** Days in month `month` (1 = January) of `year`. */
  function DaysIn(year: int, month: int): (d: int)
    requires 1 <= month <= 12
    ensures 28 <= d <= 31
    ensures month == 2 ==> (d == 29 <==> IsLeapYear(year))
    ensures month != 2 ==> (d == 30 <==> month in {4, 6, 9, 11})
    ensures month == 2 && !IsLeapYear(year) ==> d == 28
    ensures month in {1, 3, 5, 7, 8, 10, 12} ==> d == 31
  {
    if month == 2 then (if IsLeapYear(year) then 29 else 28)
    else if month in {4, 6, 9, 11} then 30
    else 31
  }

  /** The multi-argument `Date` constructor reads a year from 0 to 99 as 1900 to 1999. */
  function DateCtorYear(year: int): int {
    if 0 <= year <= 99 then 1900 + year else year
  }

  /**
   * `new Date(year, month, 0).getDate()`: day 0 of month index `month` is the
   * last day of the month before it, which is month `month` counted from 1.
   * A month outside 1..12 carries into the year, as the constructor does.
   */
  function DaysInMonthOf(year: int, month: int): (d: int)
    ensures 28 <= d <= 31
    ensures 1 <= month <= 12 && !(0 <= year <= 99) ==> d == DaysIn(year, month)
  {
    var k := month - 1;
    DaysIn(DateCtorYear(year) + k / 12, k % 12 + 1)
  }

  /**
   * `new Date(year, 1, 29).getDate() === 29 ? 366 : 365`: a year has 366 days
   * exactly when its February has a 29th.
   */
  function DaysInYearOf(year: int): (d: int)
    ensures var y := DateCtorYear(year);
      d == DaysIn(y, 1) + DaysIn(y, 2) + DaysIn(y, 3) + DaysIn(y, 4) + DaysIn(y, 5) + DaysIn(y, 6)
         + DaysIn(y, 7) + DaysIn(y, 8) + DaysIn(y, 9) + DaysIn(y, 10) + DaysIn(y, 11) + DaysIn(y, 12)
    ensures !(0 <= year <= 99) ==> (d == 366 <==> IsLeapYear(year)) && (d == 365 <==> !IsLeapYear(year))
  {
    if DaysIn(DateCtorYear(year), 2) == 29 then 366 else 365
  }

  /** The divisors of the worked examples: February 2024 has 29 days, 2023 has 365 and 2024 has 366. */
  lemma DivisorExamples()
    ensures DaysInMonthOf(2024, 2) == 29 && DaysInMonthOf(2023, 2) == 28
    ensures DaysInMonthOf(2024, 3) == 31 && DaysInMonthOf(2024, 13) == 31
    ensures DaysInYearOf(2023) == 365 && DaysInYearOf(2024) == 366 && DaysInYearOf(1900) == 365
  {
  }
}
