/**
 * The proleptic Gregorian calendar that Python's datetime uses: dates are
 * numbered by their ordinal, 0001-01-01 being day 1, and an ordinal is
 * turned back into a year, month and day by splitting off whole 400-year,
 * 100-year, 4-year and 1-year cycles.
 */
module CivilDate {

  datatype Date = Date(year: int, month: int, day: int)

  const DaysIn400Years := 146097
  const DaysIn100Years := 36524
  const DaysIn4Years := 1461

  predicate IsLeap(y: int) {
    y % 4 == 0 && (y % 100 != 0 || y % 400 == 0)
  }

  function DaysInMonth(y: int, m: int): int
    requires 1 <= m <= 12
  {
    if m == 2 then (if IsLeap(y) then 29 else 28)
    else if m == 4 || m == 6 || m == 9 || m == 11 then 30
    else 31
  }

  /** Days of year y before the first of month m; m == 13 gives the length of the year. */
  function DaysBeforeMonth(y: int, m: int): int
    requires 1 <= m <= 13
  {
    [0, 31, 59, 90, 120, 151, 181, 212, 243, 273, 304, 334, 365][m - 1]
      + (if m > 2 && IsLeap(y) then 1 else 0)
  }

  /** Days before January 1st of year y, counted from 0001-01-01. */
  function DaysBeforeYear(y: int): int {
    var p := y - 1;
    p * 365 + p / 4 - p / 100 + p / 400
  }

  predicate ValidDate(d: Date) {
    1 <= d.month <= 12 && 1 <= d.day <= DaysInMonth(d.year, d.month)
  }

  /** The reference numbering of days: 0001-01-01 is 1, each next day one more. */
  function Ordinal(d: Date): int
    requires 1 <= d.month <= 12
  {
    DaysBeforeYear(d.year) + DaysBeforeMonth(d.year, d.month) + d.day
  }

  lemma MonthTable(y: int, m: int)
    requires 1 <= m <= 12
    ensures DaysBeforeMonth(y, m + 1) == DaysBeforeMonth(y, m) + DaysInMonth(y, m)
  {
  }

  /** A year is 365 days long, 366 in a leap year, and the year numbering agrees. */
  lemma YearLength(y: int)
    ensures DaysBeforeMonth(y, 13) == if IsLeap(y) then 366 else 365
    ensures DaysBeforeYear(y + 1) == DaysBeforeYear(y) + DaysBeforeMonth(y, 13)
  {
    DivStep(y);
  }

  lemma DivStep(q: int)
    ensures q / 4 - (q - 1) / 4 == if q % 4 == 0 then 1 else 0
    ensures q / 100 - (q - 1) / 100 == if q % 100 == 0 then 1 else 0
    ensures q / 400 - (q - 1) / 400 == if q % 400 == 0 then 1 else 0
  {
  }

  /** Days before a year written as whole 400-, 100-, 4- and 1-year cycles after year 1. */
  lemma CycleDays(a: int, b: int, c: int, d: int)
    requires 0 <= b <= 3 && 0 <= c <= 24 && 0 <= d <= 3
    ensures DaysBeforeYear(400 * a + 100 * b + 4 * c + d + 1)
         == DaysIn400Years * a + DaysIn100Years * b + DaysIn4Years * c + 365 * d
  {
    var p := 400 * a + 100 * b + 4 * c + d;
    assert p / 4 == 100 * a + 25 * b + c;
    assert p / 100 == 4 * a + b;
    assert p / 400 == a;
  }

  /** Finds the month holding day `rest` (0-based) counted from the first of month m. */
  function MonthDay(y: int, m: int, rest: int): (d: Date)
    requires 1 <= m <= 12 && 0 <= rest
    requires rest < DaysBeforeMonth(y, 13) - DaysBeforeMonth(y, m)
    ensures ValidDate(d) && d.year == y
    ensures DaysBeforeMonth(y, d.month) + d.day - 1 == DaysBeforeMonth(y, m) + rest
    decreases 12 - m
  {
    MonthTable(y, m);
    if rest < DaysInMonth(y, m) then Date(y, m, rest + 1)
    else MonthDay(y, m + 1, rest - DaysInMonth(y, m))
  }

  /** The date with ordinal n; the inverse of Ordinal. */
  function FromOrdinal(n: int): (d: Date)
    ensures ValidDate(d)
    ensures Ordinal(d) == n
  {
    var n0 := n - 1;
    var n400, r400 := n0 / DaysIn400Years, n0 % DaysIn400Years;
    var n100, r100 := r400 / DaysIn100Years, r400 % DaysIn100Years;
    var n4, r4 := r100 / DaysIn4Years, r100 % DaysIn4Years;
    var n1, r1 := r4 / 365, r4 % 365;
    var year := 400 * n400 + 100 * n100 + 4 * n4 + n1 + 1;
    if n1 == 4 || n100 == 4 then
      // the last day of a leap year closing a 4-year or 400-year cycle
      YearEnd(n400, n100, n4, n1, n);
      Date(year - 1, 12, 31)
    else
      CycleDays(n400, n100, n4, n1);
      YearLength(year);
      MonthDay(year, 1, r1)
  }

  lemma YearEnd(n400: int, n100: int, n4: int, n1: int, n: int)
    requires n400 == (n - 1) / DaysIn400Years
    requires n100 == ((n - 1) % DaysIn400Years) / DaysIn100Years
    requires n4 == ((n - 1) % DaysIn400Years % DaysIn100Years) / DaysIn4Years
    requires n1 == ((n - 1) % DaysIn400Years % DaysIn100Years % DaysIn4Years) / 365
    requires n1 == 4 || n100 == 4
    ensures Ordinal(Date(400 * n400 + 100 * n100 + 4 * n4 + n1, 12, 31)) == n
  {
    var y := 400 * n400 + 100 * n100 + 4 * n4 + n1;
    YearLength(y);
    if n100 == 4 {
      CycleDays(n400 + 1, 0, 0, 0);
    } else {
      CycleDays(n400, n100, n4 + 1, 0);
    }
  }

  /** Distinct ordinals name distinct dates. */
  lemma {:induction false} FromOrdinalInjective(n1: int, n2: int)
    ensures FromOrdinal(n1) == FromOrdinal(n2) <==> n1 == n2
  {
    if FromOrdinal(n1) == FromOrdinal(n2) {
      assert Ordinal(FromOrdinal(n1)) == Ordinal(FromOrdinal(n2));
    }
  }

  lemma {:induction false} DaysBeforeYearMonotone(a: int, b: int)
    requires a <= b
    ensures DaysBeforeYear(a) + 365 * (b - a) <= DaysBeforeYear(b)
    decreases b - a
  {
    if a < b {
      DaysBeforeYearMonotone(a, b - 1);
      YearLength(b - 1);
    }
  }

  lemma DaysBeforeMonthMonotone(y: int, m1: int, m2: int)
    requires 1 <= m1 < m2 <= 13
    ensures DaysBeforeMonth(y, m1 + 1) <= DaysBeforeMonth(y, m2)
  {
  }

  /** The ordinal of a valid date lies within its year. */
  lemma WithinYear(d: Date)
    requires ValidDate(d)
    ensures DaysBeforeYear(d.year) < Ordinal(d) <= DaysBeforeYear(d.year + 1)
  {
    MonthTable(d.year, d.month);
    DaysBeforeMonthMonotone(d.year, d.month, 13);
    YearLength(d.year);
  }

  /** Distinct valid dates have distinct ordinals. */
  lemma {:induction false} OrdinalInjective(d1: Date, d2: Date)
    requires ValidDate(d1) && ValidDate(d2) && Ordinal(d1) == Ordinal(d2)
    ensures d1 == d2
  {
    WithinYear(d1);
    WithinYear(d2);
    if d1.year < d2.year {
      DaysBeforeYearMonotone(d1.year + 1, d2.year);
      assert false;
    } else if d2.year < d1.year {
      DaysBeforeYearMonotone(d2.year + 1, d1.year);
      assert false;
    }
    var y := d1.year;
    MonthTable(y, d1.month);
    MonthTable(y, d2.month);
    if d1.month < d2.month {
      DaysBeforeMonthMonotone(y, d1.month, d2.month);
      assert false;
    } else if d2.month < d1.month {
      DaysBeforeMonthMonotone(y, d2.month, d1.month);
      assert false;
    }
  }

  /** Every valid date is the date of its own ordinal: Ordinal and FromOrdinal are inverse. */
  lemma {:induction false} FromOrdinalOfOrdinal(d: Date)
    requires ValidDate(d)
    ensures FromOrdinal(Ordinal(d)) == d
  {
    OrdinalInjective(FromOrdinal(Ordinal(d)), d);
  }
}
