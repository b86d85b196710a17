/**
 * The proleptic Gregorian calendar, as ECMAScript's Date uses it, over
 * integer day numbers: day 0 is 1970-01-01 and every day has 24 hours.
 */
module Calendar {

  predicate IsLeap(y: int)
  {
    y % 4 == 0 && (y % 100 != 0 || y % 400 == 0)
  }

  function DaysInYear(y: int): int
  {
    if IsLeap(y) then 366 else 365
  }

  function DaysInMonth(y: int, m: int): int
    requires 1 <= m <= 12
  {
    if m == 2 then (if IsLeap(y) then 29 else 28)
    else if m == 4 || m == 6 || m == 9 || m == 11 then 30
    else 31
  }

  /** Days of a common year that precede the first of month m (m = 13: the whole year). */
  const CumulativeDays: seq<int> := [0, 31, 59, 90, 120, 151, 181, 212, 243, 273, 304, 334, 365]

  /** Days of year y that precede the first of month m. */
  function DaysBeforeMonth(y: int, m: int): int
    requires 1 <= m <= 13
  {
    CumulativeDays[m - 1] + (if m > 2 && IsLeap(y) then 1 else 0)
  }

  /** Days from 0000-01-01 to the first of January of year y (negative before year 0). */
  function DaysBeforeYear(y: int): int
  {
    365 * y + (y + 3) / 4 - (y + 99) / 100 + (y + 399) / 400
  }

  /** DaysBeforeYear(1970): the day number of 1970-01-01 counted from 0000-01-01. */
  const EpochOffset: int := 719528

  /** The day number of y-m-d; a day outside the month counts on from its first. */
  function DaysFromCivil(y: int, m: int, d: int): int
    requires 1 <= m <= 12
  {
    DaysBeforeYear(y) + DaysBeforeMonth(y, m) + d - 1 - EpochOffset
  }

  datatype Civil = Civil(year: int, month: int, day: int)

  predicate ValidCivil(c: Civil)
  {
    1 <= c.month <= 12 && 1 <= c.day <= DaysInMonth(c.year, c.month)
  }

  function DaysOf(c: Civil): int
    requires 1 <= c.month <= 12
  {
    DaysFromCivil(c.year, c.month, c.day)
  }

  lemma LeapStep4(y: int)
    ensures (y + 4) / 4 - (y + 3) / 4 == (if y % 4 == 0 then 1 else 0)
  {
    var q, r := y / 4, y % 4;
    ShiftDiv4(q, r + 4);
    ShiftDiv4(q, r + 3);
    ShiftDiv4(q, r);
  }

  lemma LeapStep100(y: int)
    ensures (y + 100) / 100 - (y + 99) / 100 == (if y % 100 == 0 then 1 else 0)
  {
    var q, r := y / 100, y % 100;
    ShiftDiv100(q, r + 100);
    ShiftDiv100(q, r + 99);
    ShiftDiv100(q, r);
  }

  lemma LeapStep400(y: int)
    ensures (y + 400) / 400 - (y + 399) / 400 == (if y % 400 == 0 then 1 else 0)
  {
    var q, r := y / 400, y % 400;
    ShiftDiv400(q, r + 400);
    ShiftDiv400(q, r + 399);
    ShiftDiv400(q, r);
  }

  /** Consecutive years are DaysInYear apart: the closed form counts leap days correctly. */
  lemma DaysBeforeNextYear(y: int)
    ensures DaysBeforeYear(y + 1) == DaysBeforeYear(y) + DaysInYear(y)
  {
    LeapStep4(y);
    LeapStep100(y);
    LeapStep400(y);
    var a := if y % 4 == 0 then 1 else 0;
    var b := if y % 100 == 0 then 1 else 0;
    var c := if y % 400 == 0 then 1 else 0;
    assert DaysBeforeYear(y + 1) == DaysBeforeYear(y) + 365 + a - b + c;
    if y % 400 == 0 {
      ShiftDiv100(4 * (y / 400), 0);
    }
    if y % 100 == 0 {
      ShiftDiv4(25 * (y / 100), 0);
    }
  }

  lemma ShiftDiv4(q: int, a: int)
    ensures (4 * q + a) / 4 == q + a / 4 && (4 * q + a) % 4 == a % 4
  {
  }

  lemma ShiftDiv100(q: int, a: int)
    ensures (100 * q + a) / 100 == q + a / 100 && (100 * q + a) % 100 == a % 100
  {
  }

  lemma ShiftDiv400(q: int, a: int)
    ensures (400 * q + a) / 400 == q + a / 400 && (400 * q + a) % 400 == a % 400
  {
  }

  /** Whole 400-year eras are 146097 days long and repeat the leap-year pattern. */
  lemma DaysBeforeEra(e: int, k: int)
    ensures DaysBeforeYear(400 * e + k) == 146097 * e + DaysBeforeYear(k)
    ensures IsLeap(400 * e + k) == IsLeap(k)
  {
    ShiftDiv4(100 * e, k + 3);
    ShiftDiv4(100 * e, k);
    ShiftDiv100(4 * e, k + 99);
    ShiftDiv100(4 * e, k);
    ShiftDiv400(e, k + 399);
    ShiftDiv400(e, k);
  }

  lemma {:induction false} DaysBeforeYearMonotone(a: int, b: int)
    requires a <= b
    ensures DaysBeforeYear(a) + 365 * (b - a) <= DaysBeforeYear(b)
    decreases b - a
  {
    if a < b {
      DaysBeforeYearMonotone(a, b - 1);
      DaysBeforeNextYear(b - 1);
    }
  }

  lemma DaysBeforeMonthStep(y: int, m: int)
    requires 1 <= m <= 12
    ensures DaysBeforeMonth(y, m + 1) == DaysBeforeMonth(y, m) + DaysInMonth(y, m)
    ensures DaysBeforeMonth(y, 13) == DaysInYear(y)
  {
  }

  lemma DaysBeforeMonthMonotone(y: int, m: int, n: int)
    requires 1 <= m <= n <= 13
    ensures DaysBeforeMonth(y, m) <= DaysBeforeMonth(y, n)
  {
  }

  /**
   * The year of an era holding day r of that era (counting from year k's first day),
   * with the day's offset inside that year.
   */
  function YearOfEra(r: int, k: int): (res: (int, int))
    requires 0 <= k <= 400 && 0 <= r
    requires DaysBeforeYear(k) + r < 146097
    ensures k <= res.0 < 400 && 0 <= res.1 < DaysInYear(res.0)
    ensures DaysBeforeYear(res.0) + res.1 == DaysBeforeYear(k) + r
    decreases 400 - k
  {
    if r < DaysInYear(k) then (k, r)
    else
      DaysBeforeNextYear(k);
      YearOfEra(r - DaysInYear(k), k + 1)
  }

  /** Day r counted from the first of month m still lies in year y. */
  predicate InYear(y: int, r: int, m: int)
  {
    1 <= m <= 12 && 0 <= r && DaysBeforeMonth(y, m) + r < DaysInYear(y)
  }

  /** The month of year y holding day r of the year (counting from month m's first day). */
  function MonthOfYear(y: int, r: int, m: int): (res: (int, int))
    requires InYear(y, r, m)
    ensures m <= res.0 <= 12 && 0 <= res.1 < DaysInMonth(y, res.0)
    ensures DaysBeforeMonth(y, res.0) + res.1 == DaysBeforeMonth(y, m) + r
    decreases 12 - m
  {
    DaysBeforeMonthStep(y, m);
    if r < DaysInMonth(y, m) then (m, r)
    else MonthOfYear(y, r - DaysInMonth(y, m), m + 1)
  }

  lemma FirstMonth(y: int)
    ensures DaysBeforeMonth(y, 1) == 0
  {
  }

  /** Putting the pieces back together: era, year of the era, month and day give back the day number. */
  lemma CivilAssembled(z: int, e: int, r: int, k: int, r1: int, m: int, r2: int)
    requires z + EpochOffset == 146097 * e + r
    requires DaysBeforeYear(k) + r1 == r
    requires 1 <= m <= 12 && 0 <= r2 < DaysInMonth(k, m) && DaysBeforeMonth(k, m) + r2 == r1
    ensures ValidCivil(Civil(400 * e + k, m, r2 + 1)) && DaysOf(Civil(400 * e + k, m, r2 + 1)) == z
  {
    DaysBeforeEra(e, k);
  }

  /** The calendar date of day number z: a valid date whose day number is z. */
  function CivilFromDays(z: int): (c: Civil)
    ensures ValidCivil(c) && DaysOf(c) == z
  {
    CivilInEra(z, (z + EpochOffset) / 146097, (z + EpochOffset) % 146097)
  }

  /**
   * The date of day number z, which is day r of 400-year era e. Year k of
   * an era has the leap-year pattern of year k of era 0, so the month is
   * found in year k.
   */
  function CivilInEra(z: int, e: int, r: int): (c: Civil)
    requires 0 <= r < 146097 && z + EpochOffset == 146097 * e + r
    ensures ValidCivil(c) && DaysOf(c) == z
  {
    assert DaysBeforeYear(0) == 0;
    var yr := YearOfEra(r, 0);
    var k, r1 := yr.0, yr.1;
    FirstMonth(k);
    var md := MonthOfYear(k, r1, 1);
    var m, r2 := md.0, md.1;
    CivilAssembled(z, e, r, k, r1, m, r2);
    Civil(400 * e + k, m, r2 + 1)
  }

  /** Earlier valid dates have smaller day numbers. */
  lemma DaysOfIncreasing(c: Civil, c': Civil)
    requires ValidCivil(c) && ValidCivil(c')
    requires c.year < c'.year || (c.year == c'.year && c.month < c'.month)
             || (c.year == c'.year && c.month == c'.month && c.day < c'.day)
    ensures DaysOf(c) < DaysOf(c')
  {
    DaysBeforeMonthStep(c.year, c.month);
    if c.year < c'.year {
      DaysBeforeMonthMonotone(c.year, c.month + 1, 13);
      DaysBeforeNextYear(c.year);
      DaysBeforeYearMonotone(c.year + 1, c'.year);
    } else if c.month < c'.month {
      DaysBeforeMonthMonotone(c.year, c.month + 1, c'.month);
    }
  }

  /** Day numbers and valid calendar dates are in one-to-one correspondence. */
  lemma CivilRoundTrip(c: Civil)
    requires ValidCivil(c)
    ensures CivilFromDays(DaysOf(c)) == c
  {
    var c' := CivilFromDays(DaysOf(c));
    if c' != c {
      if c.year < c'.year || (c.year == c'.year && c.month < c'.month)
         || (c.year == c'.year && c.month == c'.month && c.day < c'.day) {
        DaysOfIncreasing(c, c');
      } else {
        DaysOfIncreasing(c', c);
      }
    }
  }

  lemma YearFromDays(c: Civil, y: int)
    requires ValidCivil(c) && DaysOf(c) >= DaysFromCivil(y, 1, 1)
    ensures c.year >= y
  {
    if c.year < y {
      var first := Civil(y, 1, 1);
      assert ValidCivil(first) && DaysOf(first) == DaysFromCivil(y, 1, 1);
      DaysOfIncreasing(c, first);
    }
  }

  /** Every day after the first of January of year y lies in year y or later. */
  lemma YearLowerBound(z: int, y: int)
    requires z >= DaysFromCivil(y, 1, 1)
    ensures CivilFromDays(z).year >= y
  {
    YearFromDays(CivilFromDays(z), y);
  }

  /** Day of the week of day number z, 0 = Sunday; 1970-01-01 was a Thursday. */
  function WeekDay(z: int): (w: int)
    ensures 0 <= w < 7
  {
    (z + 4) % 7
  }

  lemma WeekDayNext(z: int)
    ensures WeekDay(z + 1) == (WeekDay(z) + 1) % 7
    ensures WeekDay(z + 7) == WeekDay(z)
  {
  }
}
