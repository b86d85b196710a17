/**
 * ECMAScript `Date` reduced to whole days. A time value is the number of
 * days since 1970-01-01, or NaN (an "Invalid Date"). Every time value the
 * core makes is a midnight, so milliseconds are dropped: TimeClip's bound of
 * 8.64e15 ms is exactly 1e8 days.
 *
 * Local time and UTC are not told apart: `new Date(y, m, d)` builds a local
 * midnight while a date-only ISO string is read as UTC midnight, and the
 * getters read local fields. All of them are taken here as the same calendar
 * day, which is exact for a user whose time zone is UTC.
 */
module JsDate {
  import opened Wrappers
  import opened JsNumber
  import opened Calendar

  const MaxDays: int := 100000000

  type TimeDay = z: int | -MaxDays <= z <= MaxDays

  datatype Instant = Invalid | At(day: TimeDay)

  /**
   * What the host supplies: the current day (`new Date()`) and the
   * implementation-defined reading of a string that is not in the ISO
   * date-only format (`new Date(s)` hands those to engine heuristics).
   */
  datatype DateEnv = DateEnv(today: TimeDay, parseOther: string -> Instant)

  function TimeClip(days: int): (t: Instant)
    ensures t.At? <==> -MaxDays <= days <= MaxDays
    ensures t.At? ==> t.day == days
  {
    if -MaxDays <= days <= MaxDays then At(days) else Invalid
  }

  /** MakeDay(year, month, date): month may lie outside 0..11 and carries into the year. */
  function MakeDay(y: int, m: int, dt: int): int
  {
    DaysFromCivil(y + m / 12, m % 12 + 1, 1) + dt - 1
  }

  lemma MakeDayOfCivil(c: Civil)
    requires ValidCivil(c)
    ensures MakeDay(c.year, c.month - 1, c.day) == DaysOf(c)
  {
    var m := c.month - 1;
    assert m / 12 == 0 && m % 12 == m;
    assert DaysFromCivil(c.year, c.month, 1) + c.day - 1 == DaysFromCivil(c.year, c.month, c.day);
  }

  /** `new Date(year, month, day)`: NaN anywhere gives an Invalid Date; years 0..99 mean 1900..1999. */
  function DateFromParts(year: Number, month: Number, day: Number): (t: Instant)
    ensures (year.NaN? || month.NaN? || day.NaN?) ==> t == Invalid
  {
    if year.NaN? || month.NaN? || day.NaN? then Invalid
    else
      var y := if 0 <= year.n <= 99 then 1900 + year.n else year.n;
      TimeClip(MakeDay(y, month.n, day.n))
  }

  predicate AllDigits(s: string)
  {
    forall i :: 0 <= i < |s| ==> '0' <= s[i] <= '9'
  }

  function Decimal(s: string): nat
  {
    DigitsValue(s, 10)
  }

  /** A day of a four-digit year is within the time value range. */
  lemma YearDigits(y: string)
    requires |y| == 4
    ensures Decimal(y) < 10000
    ensures forall m, d :: 1 <= m <= 12 && 1 <= d <= 31 ==> -MaxDays <= DaysFromCivil(Decimal(y), m, d) <= MaxDays
  {
    assert Pow10(4) == 10000 by {
      assert Pow10(1) == 10 && Pow10(2) == 100 && Pow10(3) == 1000;
    }
    DigitsValueBelow(y);
  }

  /**
   * The date-only forms of the ECMAScript date time string format: `YYYY`,
   * `YYYY-MM` and `YYYY-MM-DD` with a month 01..12 and a day that exists in
   * that month. They denote the first day of the year, of the month, or that day.
   */
  function IsoDateOnly(s: string): (r: Option<int>)
    ensures r.Some? ==> exists c :: ValidCivil(c) && r.value == DaysOf(c)
    ensures r.Some? ==> -MaxDays <= r.value <= MaxDays
  {
    if |s| == 4 && AllDigits(s) then
      YearDigits(s);
      assert ValidCivil(Civil(Decimal(s), 1, 1));
      Some(DaysFromCivil(Decimal(s), 1, 1))
    else if |s| == 7 && AllDigits(s[..4]) && s[4] == '-' && AllDigits(s[5..])
            && 1 <= Decimal(s[5..]) <= 12 then
      YearDigits(s[..4]);
      assert ValidCivil(Civil(Decimal(s[..4]), Decimal(s[5..]), 1));
      Some(DaysFromCivil(Decimal(s[..4]), Decimal(s[5..]), 1))
    else if |s| == 10 && AllDigits(s[..4]) && s[4] == '-' && AllDigits(s[5..7]) && s[7] == '-'
            && AllDigits(s[8..]) && 1 <= Decimal(s[5..7]) <= 12
            && 1 <= Decimal(s[8..]) <= DaysInMonth(Decimal(s[..4]), Decimal(s[5..7])) then
      YearDigits(s[..4]);
      assert ValidCivil(Civil(Decimal(s[..4]), Decimal(s[5..7]), Decimal(s[8..])));
      Some(DaysFromCivil(Decimal(s[..4]), Decimal(s[5..7]), Decimal(s[8..])))
    else None
  }

  /**
   * `new Date(s)` for a string s: a date-only form is always a valid date,
   * any other string is read as the host likes.
   */
  function DateConstructor(s: string, env: DateEnv): (r: Instant)
    ensures IsoDateOnly(s).Some? ==> r == At(IsoDateOnly(s).value)
    ensures IsoDateOnly(s).None? ==> r == env.parseOther(s)
  {
    match IsoDateOnly(s)
    case Some(z) => TimeClip(z)
    case None => env.parseOther(s)
  }

  /** A "YYYY-MM-DD" string built from its parts is read as that day. */
  lemma IsoDayForm(y: string, m: string, d: string, env: DateEnv)
    requires |y| == 4 && |m| == 2 && |d| == 2 && AllDigits(y) && AllDigits(m) && AllDigits(d)
    requires 1 <= Decimal(m) <= 12 && 1 <= Decimal(d) <= DaysInMonth(Decimal(y), Decimal(m))
    ensures DateConstructor(y + "-" + m + "-" + d, env) == TimeClip(DaysFromCivil(Decimal(y), Decimal(m), Decimal(d)))
  {
    var s := y + "-" + m + "-" + d;
    assert s[..4] == y && s[4] == '-' && s[5..7] == m && s[7] == '-' && s[8..] == d;
  }

  lemma DecimalExamples()
    ensures Decimal("2025") == 2025
    ensures Decimal("08") == 8 && Decimal("09") == 9
    ensures Decimal("01") == 1 && Decimal("03") == 3 && Decimal("06") == 6
  {
    assert "2025"[..3] == "202" && "202"[..2] == "20" && "20"[..1] == "2" && "2"[..0] == "";
    assert "08"[..1] == "0" && "09"[..1] == "0" && "0"[..0] == "";
    assert "01"[..1] == "0" && "03"[..1] == "0" && "06"[..1] == "0";
  }

  /** The calendar fields of an instant in the calendar the getters use. */
  function CivilOf(t: Instant): Civil
    requires t.At?
  {
    CivilFromDays(t.day)
  }

  /** `getDate()`: the day of the month, NaN for an Invalid Date. */
  function GetDate(t: Instant): (r: Number)
    ensures t.At? ==> r.Num? && 1 <= r.n <= 31
    ensures t.Invalid? ==> r.NaN?
  {
    if t.At? then Num(CivilOf(t).day) else NaN
  }

  /** `getMonth()`: the month, 0-based. */
  function GetMonth(t: Instant): (r: Number)
    ensures t.At? ==> r.Num? && 0 <= r.n < 12
    ensures t.Invalid? ==> r.NaN?
  {
    if t.At? then Num(CivilOf(t).month - 1) else NaN
  }

  /** `getFullYear()`. */
  function GetFullYear(t: Instant): (r: Number)
    ensures t.Invalid? <==> r.NaN?
  {
    if t.At? then Num(CivilOf(t).year) else NaN
  }

  /** `getDay()`: the day of the week, 0 = Sunday. */
  function GetDay(t: Instant): (r: Number)
    ensures t.At? ==> r.Num? && 0 <= r.n < 7
    ensures t.Invalid? ==> r.NaN?
  {
    if t.At? then Num(WeekDay(t.day)) else NaN
  }

  /** `a > b` on dates: false as soon as either is an Invalid Date, as every comparison with NaN is. */
  predicate Later(a: Instant, b: Instant): (r: bool)
    ensures a.Invalid? || b.Invalid? ==> !r
    ensures a.At? && b.At? ==> (r <==> a.day > b.day)
  {
    a.At? && b.At? && a.day > b.day
  }

  /** `a.getTime() - b.getTime()`, in days. */
  function Minus(a: Instant, b: Instant): (r: Number)
    ensures r.NaN? <==> a.Invalid? || b.Invalid?
  {
    if a.At? && b.At? then Num(a.day - b.day) else NaN
  }

  /** `a.getTime() - b.getTime()` as a sort comparator returns it: in days, with NaN counted as 0. */
  function DayDifference(a: Instant, b: Instant): (d: int)
    ensures a.At? && b.At? ==> d == a.day - b.day
    ensures a.Invalid? || b.Invalid? ==> d == 0
  {
    match Minus(a, b)
    case NaN => 0
    case Num(d) => d
  }
}
