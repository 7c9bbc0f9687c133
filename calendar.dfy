/**
 * Proleptic Gregorian dates as Python's `datetime.date` counts them (`toordinal`: 0001-01-01 is
 * day 1, years 1..9999), and the numeric branch of the spreadsheet date conversion:
 * `datetime(1899, 12, 30) + pd.Timedelta(days=n)`.
 */
module Calendar {
  import opened Wrappers

  datatype Date = Date(year: int, month: int, day: int)

  const MaxYear := 9999

  predicate IsLeap(y: int) {
    y % 4 == 0 && (y % 100 != 0 || y % 400 == 0)
  }

  function DaysInYear(y: int): int {
    if IsLeap(y) then 366 else 365
  }

  function DaysInMonth(y: int, m: int): (n: int)
    requires 1 <= m <= 12
    ensures 28 <= n <= 31
  {
    if m == 2 then (if IsLeap(y) then 29 else 28)
    else if m == 4 || m == 6 || m == 9 || m == 11 then 30
    else 31
  }

  predicate ValidDate(d: Date) {
    1 <= d.year <= MaxYear && 1 <= d.month <= 12 && 1 <= d.day <= DaysInMonth(d.year, d.month)
  }

  /** Days in the years before `y` (Python's `_days_before_year`). */
  function DaysBeforeYear(y: int): int
    requires y >= 1
  {
    var p := y - 1;
    p * 365 + p / 4 - p / 100 + p / 400
  }

  /** Days in the months of year `y` before month `m` (Python's `_days_before_month`). */
  function DaysBeforeMonth(y: int, m: int): int
    requires 1 <= m <= 12
  {
    var table := [0, 31, 59, 90, 120, 151, 181, 212, 243, 273, 304, 334];
    table[m - 1] + (if m > 2 && IsLeap(y) then 1 else 0)
  }

  /** `date.toordinal()` */
  function Ordinal(d: Date): int
    requires ValidDate(d)
  {
    DaysBeforeYear(d.year) + DaysBeforeMonth(d.year, d.month) + d.day
  }

  /** The ordinal of 9999-12-31, the last day `datetime` can hold. */
  const MaxOrdinal := 3652059

  lemma {:induction false} DaysBeforeYearStep(y: int)
    requires y >= 1
    ensures DaysBeforeYear(y + 1) == DaysBeforeYear(y) + DaysInYear(y)
  {
    var p := y - 1;
    DivStep4(p);
    DivStep100(p);
    DivStep400(p);
  }

  /** Counting one more year adds one more multiple of 4, 100 or 400 exactly when it is one. */
  lemma DivStep4(p: int)
    ensures (p + 1) / 4 == p / 4 + (if (p + 1) % 4 == 0 then 1 else 0)
  {
  }

  lemma DivStep100(p: int)
    ensures (p + 1) / 100 == p / 100 + (if (p + 1) % 100 == 0 then 1 else 0)
  {
  }

  lemma DivStep400(p: int)
    ensures (p + 1) / 400 == p / 400 + (if (p + 1) % 400 == 0 then 1 else 0)
  {
  }

  lemma {:induction false} DaysBeforeYearMonotone(a: int, b: int)
    requires 1 <= a <= b
    ensures DaysBeforeYear(a) + 365 * (b - a) <= DaysBeforeYear(b)
    decreases b - a
  {
    if a < b {
      DaysBeforeYearMonotone(a, b - 1);
      DaysBeforeYearStep(b - 1);
    }
  }

  lemma DaysBeforeMonthStep(y: int, m: int)
    requires 1 <= m < 12
    ensures DaysBeforeMonth(y, m + 1) == DaysBeforeMonth(y, m) + DaysInMonth(y, m)
  {
  }

  lemma DaysBeforeMonthBounds(y: int, m: int)
    requires 1 <= m <= 12
    ensures 0 <= DaysBeforeMonth(y, m) && DaysBeforeMonth(y, m) + DaysInMonth(y, m) <= DaysInYear(y)
    ensures m == 12 ==> DaysBeforeMonth(y, m) + DaysInMonth(y, m) == DaysInYear(y)
  {
  }

  /** The day of year `y` that is its `dayOfYear`-th, looked up from month `m` on. */
  function MonthSearch(y: int, dayOfYear: int, m: int): (d: Date)
    requires 1 <= y <= MaxYear && 1 <= m <= 12
    requires DaysBeforeMonth(y, m) < dayOfYear <= DaysInYear(y)
    ensures ValidDate(d) && d.year == y
    ensures DaysBeforeMonth(y, d.month) + d.day == dayOfYear
    decreases 12 - m
  {
    DaysBeforeMonthBounds(y, m);
    if dayOfYear <= DaysBeforeMonth(y, m) + DaysInMonth(y, m) then
      Date(y, m, dayOfYear - DaysBeforeMonth(y, m))
    else
      DaysBeforeMonthStep(y, m);
      MonthSearch(y, dayOfYear, m + 1)
  }

  /** The day whose ordinal is `n`, looked up from year `y` on. */
  function YearSearch(n: int, y: int): (d: Date)
    requires 1 <= y <= MaxYear && DaysBeforeYear(y) < n <= MaxOrdinal
    ensures ValidDate(d) && Ordinal(d) == n
    decreases MaxYear - y
  {
    DaysBeforeYearStep(y);
    if n <= DaysBeforeYear(y) + DaysInYear(y) || y == MaxYear then
      MonthSearch(y, n - DaysBeforeYear(y), 1)
    else
      YearSearch(n, y + 1)
  }

  /** `date.fromordinal(n)`: the inverse of `toordinal` on the range `datetime` supports. */
  function FromOrdinal(n: int): (d: Date)
    requires 1 <= n <= MaxOrdinal
    ensures ValidDate(d) && Ordinal(d) == n
  {
    YearSearch(n, 1)
  }

  lemma {:induction false} MonthSearchFinds(d: Date, m: int)
    requires ValidDate(d) && 1 <= m <= d.month
    ensures DaysBeforeMonth(d.year, m) < DaysBeforeMonth(d.year, d.month) + d.day <= DaysInYear(d.year)
    ensures MonthSearch(d.year, DaysBeforeMonth(d.year, d.month) + d.day, m) == d
    decreases d.month - m
  {
    DaysBeforeMonthBounds(d.year, d.month);
    if m < d.month {
      DaysBeforeMonthStep(d.year, m);
      DaysBeforeMonthBounds(d.year, m);
      MonthSearchFinds(d, m + 1);
    }
  }

  /** A date's ordinal falls inside its own year, and never beyond 9999-12-31. */
  lemma OrdinalInYear(d: Date)
    requires ValidDate(d)
    ensures DaysBeforeYear(d.year) < Ordinal(d) <= DaysBeforeYear(d.year) + DaysInYear(d.year)
    ensures Ordinal(d) <= MaxOrdinal
  {
    DaysBeforeMonthBounds(d.year, d.month);
    DaysBeforeYearStep(d.year);
    DaysBeforeYearMonotone(d.year + 1, MaxYear + 1);
    assert DaysBeforeYear(MaxYear + 1) == MaxOrdinal;
  }

  lemma YearSearchSkips(n: int, y: int)
    requires 1 <= y < MaxYear && DaysBeforeYear(y + 1) < n <= MaxOrdinal
    ensures DaysBeforeYear(y) < n && YearSearch(n, y) == YearSearch(n, y + 1)
  {
    DaysBeforeYearStep(y);
  }

  lemma YearSearchStops(n: int, y: int)
    requires 1 <= y <= MaxYear && DaysBeforeYear(y) < n <= DaysBeforeYear(y) + DaysInYear(y)
    requires n <= MaxOrdinal
    ensures YearSearch(n, y) == MonthSearch(y, n - DaysBeforeYear(y), 1)
  {
  }

  lemma YearSearchFindsInOwnYear(d: Date)
    requires ValidDate(d)
    ensures DaysBeforeYear(d.year) < Ordinal(d) <= MaxOrdinal
    ensures YearSearch(Ordinal(d), d.year) == d
  {
    OrdinalInYear(d);
    YearSearchStops(Ordinal(d), d.year);
    MonthSearchFinds(d, 1);
  }

  /** Starting the search at an earlier year finds the same day as starting at `z`. */
  lemma {:induction false} YearSearchSkipsTo(n: int, y: int, z: int)
    requires 1 <= y <= z <= MaxYear && DaysBeforeYear(z) < n <= MaxOrdinal
    ensures DaysBeforeYear(y) < n && YearSearch(n, y) == YearSearch(n, z)
    decreases z - y
  {
    if y != z {
      YearSearchSkipsTo(n, y + 1, z);
      YearSearchSkips(n, y);
    }
  }

  /** Every date `datetime` can hold is found again from its ordinal. */
  lemma FromOrdinalOfOrdinal(d: Date)
    requires ValidDate(d)
    ensures 1 <= Ordinal(d) <= MaxOrdinal && FromOrdinal(Ordinal(d)) == d
  {
    YearSearchFindsInOwnYear(d);
    YearSearchSkipsTo(Ordinal(d), 1, d.year);
  }

  // ---------------------------------------------------------------- spreadsheet serial dates

  /** Day 0 of the spreadsheet date system. */
  const ExcelEpoch := Date(1899, 12, 30)

  /** `pd.Timedelta(days=n)` holds at most this many days either way (64-bit nanoseconds). */
  const MaxTimedeltaDays := 106751

  /**
   * `(datetime(1899, 12, 30) + pd.Timedelta(days=n)).date()` for a whole number `n`; `None`
   * where building the `Timedelta` overflows.
   */
  function ExcelSerialDate(n: int): (r: Option<Date>)
    ensures r.Some? <==> -MaxTimedeltaDays <= n <= MaxTimedeltaDays
    ensures r.Some? ==> ValidDate(r.value) && Ordinal(r.value) == Ordinal(ExcelEpoch) + n
  {
    if -MaxTimedeltaDays <= n <= MaxTimedeltaDays then Some(FromOrdinal(Ordinal(ExcelEpoch) + n))
    else None
  }

  /** Serial 44562 is New Year's Day 2022; serial 0 is the epoch itself. */
  lemma ExcelSerialDateExample()
    ensures ExcelSerialDate(44562) == Some(Date(2022, 1, 1))
    ensures ExcelSerialDate(0) == Some(ExcelEpoch)
  {
    assert Ordinal(ExcelEpoch) == 693594;
    assert Ordinal(Date(2022, 1, 1)) == 693594 + 44562;
    FromOrdinalOfOrdinal(Date(2022, 1, 1));
    FromOrdinalOfOrdinal(ExcelEpoch);
  }

}
