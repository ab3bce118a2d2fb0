/** Calendar dates as (year, month, day) triples and calendar months as (year, month)
    pairs; the services' `new Date()` and `toLocaleString` month labels become these values. */
module Calendar {

  datatype Date = Date(year: int, month: int, day: int)

  /** A calendar month, standing for the `"March 2026"` labels invoices carry. */
  datatype YearMonth = YearMonth(year: int, month: int)

  predicate IsLeapYear(y: int) {
    y % 4 == 0 && (y % 100 != 0 || y % 400 == 0)
  }

  /** `new Date(y, m, 0).getDate()`: the number of days of a Gregorian month. */
  function DaysInMonth(year: int, month: int): (n: int)
    requires 1 <= month <= 12
    ensures 28 <= n <= 31
    ensures n == 29 <==> month == 2 && IsLeapYear(year)
  {
    if month == 2 then (if IsLeapYear(year) then 29 else 28)
    else if month == 4 || month == 6 || month == 9 || month == 11 then 30
    else 31
  }

  predicate ValidMonth(ym: YearMonth) { 1 <= ym.month <= 12 }

  predicate Valid(d: Date) {
    1 <= d.month <= 12 && 1 <= d.day <= DaysInMonth(d.year, d.month)
  }

  /** A day a JavaScript `Date` can denote: a real calendar day. */
  type Day = d: Date | Valid(d) witness Date(1970, 1, 1)

  /** Strict chronological order. */
  predicate Before(a: Date, b: Date) {
    a.year < b.year
    || (a.year == b.year && a.month < b.month)
    || (a.year == b.year && a.month == b.month && a.day < b.day)
  }

  predicate AtOrBefore(a: Date, b: Date) { a == b || Before(a, b) }

  function MonthOf(d: Date): YearMonth { YearMonth(d.year, d.month) }

  function FirstDay(ym: YearMonth): Date { Date(ym.year, ym.month, 1) }

  /** Months counted from January of year 0, so that month arithmetic becomes integer arithmetic. */
  function MonthIndex(ym: YearMonth): int { ym.year * 12 + ym.month - 1 }

  function MonthAt(i: int): (ym: YearMonth)
    ensures ValidMonth(ym) && MonthIndex(ym) == i
  {
    YearMonth(i / 12, i % 12 + 1)
  }

  lemma MonthAtIndex(ym: YearMonth)
    requires ValidMonth(ym)
    ensures MonthAt(MonthIndex(ym)) == ym
  {
    var i := MonthIndex(ym);
    var q, r := i / 12, i % 12;
    assert i == q * 12 + r && 0 <= r < 12;
    assert (q - ym.year) * 12 == ym.month - 1 - r;
  }

  /** The month after: `setMonth(getMonth() + 1)` on the first of a month. */
  function NextMonth(ym: YearMonth): (r: YearMonth)
    requires ValidMonth(ym)
    ensures ValidMonth(r) && MonthIndex(r) == MonthIndex(ym) + 1
  {
    if ym.month == 12 then YearMonth(ym.year + 1, 1) else YearMonth(ym.year, ym.month + 1)
  }

  /** The first day of a month is no later than any day of the same month. */
  lemma FirstDayNotAfter(d: Date)
    requires Valid(d)
    ensures AtOrBefore(FirstDay(MonthOf(d)), d)
    ensures Before(FirstDay(MonthOf(d)), d) <==> d.day > 1
  {
  }

  /** Months compare like the dates in them. */
  lemma MonthOrder(a: Date, b: Date)
    requires Valid(a) && Valid(b) && MonthIndex(MonthOf(a)) < MonthIndex(MonthOf(b))
    ensures Before(a, b)
  {
  }

  function NextDay(d: Date): (r: Date)
    requires Valid(d)
    ensures Valid(r) && Before(d, r)
  {
    if d.day < DaysInMonth(d.year, d.month) then Date(d.year, d.month, d.day + 1)
    else if d.month < 12 then Date(d.year, d.month + 1, 1)
    else Date(d.year + 1, 1, 1)
  }

  /** `date.setDate(date.getDate() + k)`: k days later, rolling over months and years. */
  function AddDays(d: Date, k: nat): (r: Date)
    requires Valid(d)
    ensures Valid(r)
    ensures k > 0 ==> Before(d, r)
    decreases k
  {
    if k == 0 then d
    else
      var r := AddDays(NextDay(d), k - 1);
      BeforeTransitiveOrEqual(d, NextDay(d), r, k - 1);
      r
  }

  lemma BeforeTransitiveOrEqual(a: Date, b: Date, c: Date, k: nat)
    requires Before(a, b) && (k > 0 ==> Before(b, c)) && (k == 0 ==> b == c)
    ensures Before(a, c)
  {
  }

  /** `Math.ceil(a / b)` for a positive divisor. */
  function CeilDiv(a: int, b: int): (r: int)
    requires b > 0
    ensures (r - 1) * b < a <= r * b
  {
    -((-a) / b)
  }

  /** Multiplying by a non-negative factor keeps the order. */
  lemma MulMonotone(a: int, b: int, c: int)
    requires a >= 0 && b <= c
    ensures a * b <= a * c
  {
    assert a * c - a * b == a * (c - b);
  }

  /** A positive factor can be cancelled from a strict inequality. */
  lemma MulCancel(a: int, b: int, c: int)
    requires c > 0 && a * c < b * c
    ensures a < b
  {
    assert (b - a) * c > 0;
  }

  const MsPerDay: int := 24 * 60 * 60 * 1000

  /** `Math.ceil((end - now) / (1000 * 60 * 60 * 24))` for millisecond timestamps. */
  function DaysUntil(endMs: int, nowMs: int): (days: int)
    ensures (days - 1) * MsPerDay < endMs - nowMs <= days * MsPerDay
  {
    CeilDiv(endMs - nowMs, MsPerDay)
  }
}
