/** Dates of the proleptic Gregorian calendar, years 1 to 9999, and days since its
    first day. */
module Calendar {

  predicate IsLeap(y: int) { y % 4 == 0 && (y % 100 != 0 || y % 400 == 0) }

  function DaysInYear(y: int): nat { if IsLeap(y) then 366 else 365 }

  /** The days before the first of January of year `y`. */
  function DaysBeforeYear(y: int): int { (y - 1) * 365 + (y - 1) / 4 - (y - 1) / 100 + (y - 1) / 400 }

  function DaysInMonth(y: int, m: int): (days: nat)
    ensures 28 <= days <= 31
  {
    if m == 2 then (if IsLeap(y) then 29 else 28)
    else if m == 4 || m == 6 || m == 9 || m == 11 then 30
    else 31
  }

  /** The days before the first of month `m` in year `y`; month 13 ends the year. */
  function DaysBeforeMonth(y: int, m: int): nat {
    var common := if m <= 1 then 0 else if m == 2 then 31 else if m == 3 then 59 else if m == 4 then 90
      else if m == 5 then 120 else if m == 6 then 151 else if m == 7 then 181 else if m == 8 then 212
      else if m == 9 then 243 else if m == 10 then 273 else if m == 11 then 304 else if m == 12 then 334
      else 365;
    if m > 2 && IsLeap(y) then common + 1 else common
  }

  datatype Date = Date(year: int, month: int, day: int)

  predicate ValidDate(d: Date) {
    1 <= d.year <= 9999 && 1 <= d.month <= 12 && 1 <= d.day <= DaysInMonth(d.year, d.month)
  }

  const DAYS := 3652059

  function Ordinal(d: Date): int
    requires ValidDate(d)
  {
    DaysBeforeYear(d.year) + DaysBeforeMonth(d.year, d.month) + d.day - 1
  }

  /** The quotient grows at the multiples. */
  lemma Multiples(y: int)
    ensures y / 4 - (y - 1) / 4 == if y % 4 == 0 then 1 else 0
    ensures y / 100 - (y - 1) / 100 == if y % 100 == 0 then 1 else 0
    ensures y / 400 - (y - 1) / 400 == if y % 400 == 0 then 1 else 0
  {
  }

  lemma YearLength(y: int)
    ensures DaysBeforeYear(y + 1) == DaysBeforeYear(y) + DaysInYear(y)
  {
    Multiples(y);
    assert y % 400 == 0 ==> y % 100 == 0;
    assert y % 100 == 0 ==> y % 4 == 0;
  }

  lemma MonthLength(y: int, m: int)
    requires 1 <= m <= 12
    ensures DaysBeforeMonth(y, m + 1) == DaysBeforeMonth(y, m) + DaysInMonth(y, m)
  {
  }

  /** The year of day `n`, looked for from year `y`. */
  function YearOf(n: int, y: int): (r: int)
    requires 1 <= y <= 9999 && DaysBeforeYear(y) <= n < DAYS
    ensures y <= r <= 9999 && DaysBeforeYear(r) <= n < DaysBeforeYear(r + 1)
    decreases 9999 - y
  {
    if n < DaysBeforeYear(y + 1) then y
    else
      assert y < 9999 by { assert DaysBeforeYear(10000) == DAYS; }
      YearOf(n, y + 1)
  }

  /** The month of day `k` of year `y`, looked for from month `m`. */
  function MonthOf(k: int, y: int, m: int): (r: int)
    requires 1 <= m <= 12 && DaysBeforeMonth(y, m) <= k < DaysBeforeMonth(y, 13)
    ensures m <= r <= 12 && DaysBeforeMonth(y, r) <= k < DaysBeforeMonth(y, r + 1)
    decreases 12 - m
  {
    if k < DaysBeforeMonth(y, m + 1) then m else MonthOf(k, y, m + 1)
  }

  function FromOrdinal(n: int): (d: Date)
    requires 0 <= n < DAYS
    ensures ValidDate(d) && Ordinal(d) == n
  {
    var y := YearOf(n, 1);
    YearLength(y);
    var k := n - DaysBeforeYear(y);
    var m := MonthOf(k, y, 1);
    MonthLength(y, m);
    Date(y, m, k - DaysBeforeMonth(y, m) + 1)
  }

  lemma {:induction false} YearsIncrease(a: int, b: int)
    requires a <= b
    ensures DaysBeforeYear(a) <= DaysBeforeYear(b)
    decreases b - a
  {
    if a < b {
      YearLength(b - 1);
      YearsIncrease(a, b - 1);
    }
  }

  lemma MonthsIncrease(y: int, a: int, b: int)
    requires 1 <= a <= b <= 13
    ensures DaysBeforeMonth(y, a) <= DaysBeforeMonth(y, b)
  {
  }

  lemma OrdinalInYear(d: Date)
    requires ValidDate(d)
    ensures DaysBeforeYear(d.year) <= Ordinal(d) < DaysBeforeYear(d.year + 1)
    ensures 0 <= Ordinal(d) < DAYS
  {
    MonthLength(d.year, d.month);
    MonthsIncrease(d.year, d.month + 1, 13);
    YearLength(d.year);
    YearsIncrease(1, d.year);
    YearsIncrease(d.year + 1, 10000);
  }

  /** A day belongs to one year, and a day of the year to one month. */
  lemma YearUnique(n: int, a: int, b: int)
    requires DaysBeforeYear(a) <= n < DaysBeforeYear(a + 1) && DaysBeforeYear(b) <= n < DaysBeforeYear(b + 1)
    ensures a == b
  {
    if a < b { YearsIncrease(a + 1, b); }
    if b < a { YearsIncrease(b + 1, a); }
  }

  lemma MonthUnique(y: int, k: int, a: int, b: int)
    requires 1 <= a <= 12 && 1 <= b <= 12
    requires DaysBeforeMonth(y, a) <= k < DaysBeforeMonth(y, a + 1)
    requires DaysBeforeMonth(y, b) <= k < DaysBeforeMonth(y, b + 1)
    ensures a == b
  {
    if a < b { MonthsIncrease(y, a + 1, b); }
    if b < a { MonthsIncrease(y, b + 1, a); }
  }

  /** Different dates are different days. */
  lemma OrdinalInjective(d: Date, e: Date)
    requires ValidDate(d) && ValidDate(e)
    ensures Ordinal(d) == Ordinal(e) <==> d == e
  {
    if Ordinal(d) == Ordinal(e) {
      OrdinalInYear(d);
      OrdinalInYear(e);
      MonthLength(d.year, d.month);
      MonthLength(e.year, e.month);
      YearUnique(Ordinal(d), d.year, e.year);
      MonthUnique(d.year, Ordinal(d) - DaysBeforeYear(d.year), d.month, e.month);
    }
  }

  /** Counting the days of a date and naming the day again gives the date. */
  lemma DateRoundTrip(d: Date)
    requires ValidDate(d)
    ensures 0 <= Ordinal(d) < DAYS && FromOrdinal(Ordinal(d)) == d
  {
    OrdinalInYear(d);
    OrdinalInjective(FromOrdinal(Ordinal(d)), d);
  }

  /** The days of a month, by the rule of the calendar. */
  function MonthHas(y: int, m: int): int {
    if m in {4, 6, 9, 11} then 30
    else if m != 2 then 31
    else if y % 4 == 0 && !(y % 100 == 0 && y % 400 != 0) then 29
    else 28
  }

  /** The dates are counted one by one, month after month, from the first of year 1. */
  lemma DatesFollow(d: Date)
    requires ValidDate(d) && d != Date(9999, 12, 31)
    ensures var next := if d.day < MonthHas(d.year, d.month) then Date(d.year, d.month, d.day + 1)
                        else if d.month < 12 then Date(d.year, d.month + 1, 1)
                        else Date(d.year + 1, 1, 1);
      ValidDate(next) && Ordinal(next) == Ordinal(d) + 1
    ensures Ordinal(Date(1, 1, 1)) == 0
  {
    MonthLength(d.year, d.month);
    YearLength(d.year);
  }
}
