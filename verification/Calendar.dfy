/**
 The proleptic Gregorian calendar as ECMA-262 computes it (section 21.4.1: Day Number,
 Year Number, Month Number, MakeDay) and as RFC 3339 Appendix C tabulates it.
 */
module Calendar {

  datatype Date = Date(y: int, m: int, d: int)

  /** RFC 3339 Appendix C. */
  predicate Leap(y: int) {
    y % 4 == 0 && (y % 100 != 0 || y % 400 == 0)
  }

  /** The table of RFC 3339 section 5.7. */
  function MonthLength(y: int, m: int): (n: int)
    ensures 28 <= n <= 31
  {
    if m == 2 then (if Leap(y) then 29 else 28)
    else if m == 4 || m == 6 || m == 9 || m == 11 then 30
    else 31
  }

  /** A date that exists. */
  predicate Real(date: Date) {
    1 <= date.m <= 12 && 1 <= date.d <= MonthLength(date.y, date.m)
  }

  predicate Before(a: Date, b: Date) {
    a.y < b.y || (a.y == b.y && (a.m < b.m || (a.m == b.m && a.d < b.d)))
  }

  /** DayFromYear of ECMA-262 section 21.4.1.3. */
  function DayFromYear(y: int): int {
    365 * (y - 1970) + (y - 1969) / 4 - (y - 1901) / 100 + (y - 1601) / 400
  }

  /** Days of year `y` before the first of month `m` (section 21.4.1.4); `m == 13` is the whole year. */
  function DaysBefore(y: int, m: int): int {
    (match m
     case 1 => 0 case 2 => 31 case 3 => 59 case 4 => 90 case 5 => 120 case 6 => 151 case 7 => 181
     case 8 => 212 case 9 => 243 case 10 => 273 case 11 => 304 case 12 => 334 case _ => 365)
    + if m > 2 && Leap(y) then 1 else 0
  }

  lemma MonthStep(y: int, m: int)
    requires 1 <= m <= 12
    ensures DaysBefore(y, m + 1) == DaysBefore(y, m) + MonthLength(y, m)
  {
  }

  /** MakeDay of ECMA-262 section 21.4.1.28: `month` counts from 0 and both it and `dt` may overflow. */
  function MakeDay(y: int, month: int, dt: int): int {
    var ym, mn := y + month / 12, month % 12;
    DayFromYear(ym) + DaysBefore(ym, mn + 1) + dt - 1
  }

  /** `Date.UTC(y, month, dt)` in whole days: two-digit years mean 19xx (section 21.4.3.4). */
  function Utc(y: int, month: int, dt: int): int {
    MakeDay(if 0 <= y <= 99 then 1900 + y else y, month, dt)
  }

  function DayNumber(date: Date): int {
    DayFromYear(date.y) + DaysBefore(date.y, date.m) + date.d - 1
  }

  /** 0 is Sunday: day 0 of the epoch was a Thursday. */
  function WeekDay(day: int): (w: int)
    ensures 0 <= w <= 6
  {
    (day + 4) % 7
  }

  /** The day after a date. */
  function Tomorrow(date: Date): Date {
    if date.d < MonthLength(date.y, date.m) then Date(date.y, date.m, date.d + 1)
    else if date.m < 12 then Date(date.y, date.m + 1, 1)
    else Date(date.y + 1, 1, 1)
  }

  /** Day 0 is the first of 1970, and days are numbered one after the other. */
  lemma DaysAreCounted(date: Date)
    requires Real(date)
    ensures DayNumber(Date(1970, 1, 1)) == 0 && DayNumber(Tomorrow(date)) == DayNumber(date) + 1
  {
    hide Leap;
    MonthStep(date.y, date.m);
    YearLength(date.y);
  }

  function One(b: bool): int { if b then 1 else 0 }

  lemma LeapCount(y: int)
    ensures DayFromYear(y + 1) - DayFromYear(y) == 365 + One(y % 4 == 0) - One(y % 100 == 0) + One(y % 400 == 0)
  {
    Quotient(y, 4, 1968);
    Quotient(y, 100, 1900);
    Quotient(y, 400, 1600);
    assert y - 1 - 1968 == y - 1969 && y - 1 - 1900 == y - 1901 && y - 1 - 1600 == y - 1601;
    assert y + 1 - 1969 == y - 1968 && y + 1 - 1901 == y - 1900 && y + 1 - 1601 == y - 1600;
  }

  lemma Multiples(y: int)
    ensures y % 100 == 0 ==> y % 4 == 0
    ensures y % 400 == 0 ==> y % 100 == 0
  {
  }

  lemma YearLength(y: int)
    ensures DayFromYear(y + 1) == DayFromYear(y) + (if Leap(y) then 366 else 365)
    ensures DaysBefore(y, 13) == if Leap(y) then 366 else 365
  {
    LeapCount(y);
    Multiples(y);
  }

  /** Stepping `y` by one steps a floor quotient exactly at the multiples. */
  lemma Quotient(y: int, k: int, anchor: int)
    requires k > 1 && anchor % k == 0
    ensures (y - anchor) / k - (y - 1 - anchor) / k == One(y % k == 0)
  {
    var q, r := (y - 1 - anchor) / k, (y - 1 - anchor) % k;
    var a := anchor / k;
    assert y == k * (q + a) + (r + 1) by { assert k * (q + a) == k * q + k * a; }
    if r + 1 == k {
      assert y - anchor == k * (q + 1) by { assert k * (q + 1) == k * q + k; }
      DivIs(y - anchor, k, q + 1, 0);
      assert k * (q + a) + k == k * (q + a + 1);
      DivIs(y, k, q + a + 1, 0);
    } else {
      DivIs(y - anchor, k, q, r + 1);
      DivIs(y, k, q + a, r + 1);
    }
  }

  lemma DivIs(x: int, k: int, q: int, r: int)
    requires k > 0 && 0 <= r < k && x == k * q + r
    ensures x / k == q && x % k == r
  {
    var q', r' := x / k, x % k;
    assert k * (q - q') == r' - r by { assert k * (q - q') == k * q - k * q'; }
    if q > q' {
      assert k * (q - q') >= k by { assert (q - q') >= 1; MulMonotone(k, q - q'); }
    } else if q < q' {
      MulMonotone(k, q' - q);
      NegateProduct(k, q' - q);
    }
  }

  lemma NegateProduct(k: int, n: int)
    ensures k * -n == -(k * n)
  {
  }

  lemma MulMonotone(k: int, n: int)
    requires k > 0 && n >= 1
    ensures k * n >= k
  {
    assert k * n == k + k * (n - 1);
    assert k * (n - 1) >= 0;
  }

  lemma {:induction false} DayFromYearMonotone(a: int, b: int)
    requires a <= b
    ensures DayFromYear(b) - DayFromYear(a) >= 365 * (b - a)
    decreases b - a
  {
    if a < b {
      YearLength(b - 1);
      DayFromYearMonotone(a, b - 1);
    }
  }

  /** YearFromTime of section 21.4.1.3, in days: the year whose days contain `day`. */
  function YearOf(day: int): (y: int)
    ensures DayFromYear(y) <= day < DayFromYear(y + 1)
  {
    YearFrom(day, 1970 + day / 366)
  }

  lemma YearGrows(y: int)
    ensures DayFromYear(y - 1) < DayFromYear(y) < DayFromYear(y + 1)
  {
    hide DayFromYear, DaysBefore;
    YearLength(y);
    YearLength(y - 1);
  }

  function YearFrom(day: int, y: int): (r: int)
    ensures DayFromYear(r) <= day < DayFromYear(r + 1)
    decreases if day < DayFromYear(y) then DayFromYear(y) - day else day - DayFromYear(y)
  {
    YearGrows(y);
    if day < DayFromYear(y) then
      (if DayFromYear(y - 1) <= day then y - 1 else YearFrom(day, y - 1))
    else if DayFromYear(y + 1) <= day then YearFrom(day, y + 1)
    else y
  }

  /** MonthFromTime: the month from `m` on containing the `n`-th day of the year. */
  function MonthFrom(y: int, n: int, m: int): (r: int)
    requires 1 <= m <= 12 && DaysBefore(y, m) <= n < DaysBefore(y, 13)
    ensures m <= r <= 12 && DaysBefore(y, r) <= n < DaysBefore(y, r + 1)
    decreases 12 - m
  {
    if n < DaysBefore(y, m + 1) then m else MonthFrom(y, n, m + 1)
  }

  /** `getUTCFullYear`, `getUTCMonth() + 1` and `getUTCDate` of a day number. */
  function CivilOf(day: int): Date {
    var y := YearOf(day);
    YearLength(y);
    var n := day - DayFromYear(y);
    var m := MonthFrom(y, n, 1);
    Date(y, m, n - DaysBefore(y, m) + 1)
  }

  /** The components of any day number form a real date with that day number. */
  lemma CivilOfDay(day: int)
    ensures Real(CivilOf(day)) && DayNumber(CivilOf(day)) == day
  {
    var date := CivilOf(day);
    YearLength(date.y);
    MonthStep(date.y, date.m);
    hide Leap, DayFromYear, DaysBefore;
  }

  lemma {:induction false} DaysBeforeMonotone(y: int, a: int, b: int)
    requires 1 <= a <= b <= 13
    ensures DaysBefore(y, a) <= DaysBefore(y, b)
    decreases b
  {
    if a < b {
      MonthStep(y, b - 1);
      DaysBeforeMonotone(y, a, b - 1);
    }
  }

  lemma DayOfYearBound(date: Date)
    requires Real(date)
    ensures DayFromYear(date.y) <= DayNumber(date) < DayFromYear(date.y + 1)
  {
    YearLength(date.y);
    MonthStep(date.y, date.m);
    DaysBeforeMonotone(date.y, date.m + 1, 13);
  }

  /** Day numbers order real dates exactly as (year, month, day) does. */
  lemma DayNumberOrder(a: Date, b: Date)
    requires Real(a) && Real(b)
    ensures Before(a, b) <==> DayNumber(a) < DayNumber(b)
    ensures a == b <==> DayNumber(a) == DayNumber(b)
  {
    if a.y == b.y && a.m == b.m {
    } else if Before(a, b) {
      DayNumberStrict(a, b);
    } else {
      DayNumberStrict(b, a);
    }
  }

  lemma DayNumberStrict(a: Date, b: Date)
    requires Real(a) && Real(b) && Before(a, b)
    ensures DayNumber(a) < DayNumber(b)
  {
    if a.y < b.y {
      DayOfYearBound(a);
      DayOfYearBound(b);
      DayFromYearMonotone(a.y + 1, b.y);
    } else if a.m < b.m {
      MonthStep(a.y, a.m);
      DaysBeforeMonotone(a.y, a.m + 1, b.m);
    }
  }

  /**
   The round trip through `Date.UTC` that the sources use as a validity test accepts a
   four-digit (year, month, day) exactly when the year is at least 100 and the date exists.
   */
  lemma UtcRoundTripDecides(y: int, m: int, d: int)
    requires 0 <= y <= 9999 && 0 <= m <= 99 && 0 <= d <= 99
    ensures CivilOf(Utc(y, m - 1, d)) == Date(y, m, d) <==> y >= 100 && Real(Date(y, m, d))
  {
    var day := Utc(y, m - 1, d);
    RoundTripOf(day, Date(y, m, d));
    if Real(Date(y, m, d)) {
      if y >= 100 { UtcOfReal(y, m, d); } else { TwoDigitYearMoves(y, m, d); }
    }
  }

  lemma RoundTripOf(day: int, date: Date)
    ensures CivilOf(day) == date <==> Real(date) && DayNumber(date) == day
  {
    CivilOfDay(day);
    hide CivilOf, DayNumber;
    if Real(date) { DayNumberOrder(CivilOf(day), date); }
  }

  lemma UtcOfReal(y: int, m: int, d: int)
    requires y >= 100 && 1 <= m <= 12
    ensures Utc(y, m - 1, d) == DayNumber(Date(y, m, d))
  {
    assert (m - 1) / 12 == 0 && (m - 1) % 12 == m - 1;
  }

  lemma TwoDigitYearMoves(y: int, m: int, d: int)
    requires 0 <= y <= 99 && Real(Date(y, m, d))
    ensures DayNumber(Date(y, m, d)) < Utc(y, m - 1, d)
  {
    hide DayFromYear, DaysBefore, Leap, MonthLength;
    assert (m - 1) / 12 == 0 && (m - 1) % 12 == m - 1;
    DayOfYearBound(Date(1900 + y, m, 1));
    DayOfYearBound(Date(y, m, d));
    DayFromYearMonotone(y + 1, 1900 + y);
  }

  /** `new Date(Date.UTC(y, m, 0)).getUTCDate()`, the last day of month `m`. */
  lemma DayZeroIsMonthLength(y: int, m: int)
    requires y >= 100 && 1 <= m <= 12
    ensures CivilOf(Utc(y, m, 0)).d == MonthLength(y, m)
  {
    hide DayNumber, Utc, CivilOf, Real, MonthLength;
    LastDay(y, m);
    RoundTripOf(Utc(y, m, 0), Date(y, m, MonthLength(y, m)));
  }

  lemma LastDay(y: int, m: int)
    requires y >= 100 && 1 <= m <= 12
    ensures var last := Date(y, m, MonthLength(y, m)); Real(last) && DayNumber(last) == Utc(y, m, 0)
  {
    hide CivilOf;
    YearLength(y);
    MonthStep(y, m);
  }
}
