/** Civil dates without a time of day. */
module Calendar {
  datatype Date = Date(year: int, month: int, day: int)

  function DaysInMonth(year: int, month: int): int {
    if month == 2 then
      if year % 4 == 0 && (year % 100 != 0 || year % 400 == 0) then 29 else 28
    else if month in {4, 6, 9, 11} then 30 else 31
  }

  predicate ValidDate(d: Date) {
    1 <= d.month <= 12 && 1 <= d.day <= DaysInMonth(d.year, d.month)
  }

  /** Order of calendar dates. */
  predicate AtMost(a: Date, b: Date) {
    a.year < b.year || (a.year == b.year && (a.month < b.month || (a.month == b.month && a.day <= b.day)))
  }

  /** First and last day of a month, the bounds of every query over its work days. */
  function PeriodDates(year: int, month: int): (r: (Date, Date)) {
    (Date(year, month, 1), Date(year, month, DaysInMonth(year, month)))
  }

  /** The date range of the queries and the (year, month) of the locks and guards select the same days. */
  lemma RangeIsTheMonth(d: Date, year: int, month: int)
    requires ValidDate(d)
    ensures var (first, last) := PeriodDates(year, month);
            (AtMost(first, d) && AtMost(d, last)) <==> (d.year == year && d.month == month)
  {
  }

  /** The number an ISO date string YYYY-MM-DD sorts by. */
  function Code(d: Date): int {
    d.year * 10_000 + d.month * 100 + d.day
  }

  /** ISO strings of valid dates compare as the dates do. */
  lemma CodeOrder(a: Date, b: Date)
    requires ValidDate(a) && ValidDate(b)
    ensures AtMost(a, b) <==> Code(a) <= Code(b)
    ensures Code(a) == Code(b) <==> a == b
  {
  }

  function DaysOfYear(year: int): int {
    DaysInMonth(year, 1) + DaysInMonth(year, 2) + DaysInMonth(year, 3) + DaysInMonth(year, 4) + DaysInMonth(year, 5) +
    DaysInMonth(year, 6) + DaysInMonth(year, 7) + DaysInMonth(year, 8) + DaysInMonth(year, 9) + DaysInMonth(year, 10) +
    DaysInMonth(year, 11) + DaysInMonth(year, 12)
  }

  /** Years have 365 days, or 366: every fourth, but of the full centuries only every fourth. */
  lemma GregorianYears(year: int)
    ensures DaysOfYear(year) == 365 || (DaysOfYear(year) == 366 && DaysInMonth(year, 2) == 29)
    ensures DaysOfYear(year) == 366 <==> year % 4 == 0 && (year % 100 == 0 ==> year % 400 == 0)
    ensures DaysInMonth(year + 400, 2) == DaysInMonth(year, 2)
  {
  }
}
