/**
 Bill schedules (packages/domain/src/bills/schedule.ts): ISO dates as text, validated
 cadence rules, the next due date, and the period key that names a due date in the
 unique index on (template_id, period).
 */
module Schedule {
  import opened Text
  import opened Calendar

  datatype Cadence = Monthly | Weekly

  datatype ScheduleError = BadSchedule | BadDate | NoMonthlyDate

  /** What a validated (cadence, cadenceDay) pair asks for. */
  datatype Rule = MonthDay(day: int) | LastDay | OnWeekDay(weekDay: int)

  predicate ValidRule(rule: Rule) {
    match rule
    case MonthDay(day) => 1 <= day <= 31
    case LastDay => true
    case OnWeekDay(w) => 0 <= w <= 6
  }

  // ---------- ISO text ----------

  /** `^\d{4}-\d{2}-\d{2}$` */
  predicate IsoShape(s: string) {
    |s| == 10 && s[4] == '-' && s[7] == '-'
    && AllDigits(s[..4]) && AllDigits(s[5..7]) && AllDigits(s[8..])
  }

  function ParseISO(s: string): Option<Date> {
    if !IsoShape(s) then None
    else
      var date := Date(Value(s[..4]), Value(s[5..7]), Value(s[8..]));
      if CivilOf(Utc(date.y, date.m - 1, date.d)) == date then Some(date) else None
  }

  /** `String(n)` of an integer. */
  function Signed(n: int): string {
    if n < 0 then "-" + Decimal(-n) else Decimal(n)
  }

  function ToISO(date: Date): string {
    Dashed(PadStart(Signed(date.y), 4, '0'), PadStart(Signed(date.m), 2, '0'), PadStart(Signed(date.d), 2, '0'))
  }

  /** The dates that ISO text of this program can name. */
  predicate Storable(date: Date) {
    Real(date) && 100 <= date.y <= 9999
  }

  lemma Powers()
    ensures Pow10(2) == 100 && Pow10(4) == 10000
  {
    assert Pow10(1) == 10 && Pow10(3) == 10 * Pow10(2);
  }

  lemma ToISOParts(date: Date)
    requires Storable(date)
    ensures ToISO(date) == Dashed(Digits(date.y, 4), Digits(date.m, 2), Digits(date.d, 2))
  {
    Powers();
    PaddedDecimal(date.y, 4);
    PaddedDecimal(date.m, 2);
    PaddedDecimal(date.d, 2);
  }

  lemma PartsOfPrinted(date: Date)
    requires Storable(date)
    ensures var s := ToISO(date);
            && IsoShape(s) && Value(s[..4]) == date.y && Value(s[5..7]) == date.m && Value(s[8..]) == date.d
  {
    hide Digits, Value, ToISO, Dashed, MonthLength, Pow10;
    Powers();
    ToISOParts(date);
    StorableRange(date);
    DashedParts(Digits(date.y, 4), Digits(date.m, 2), Digits(date.d, 2));
    ValueOfDigits(date.y, 4);
    ValueOfDigits(date.m, 2);
    ValueOfDigits(date.d, 2);
  }

  lemma PartsDetermine(s: string)
    requires IsoShape(s)
    ensures s == Dashed(Digits(Value(s[..4]), 4), Digits(Value(s[5..7]), 2), Digits(Value(s[8..]), 2))
    ensures Value(s[..4]) <= 9999 && Value(s[5..7]) <= 99 && Value(s[8..]) <= 99
  {
    hide Value, Digits, Pow10, IsDigit;
    Powers();
    ValueBound(s[..4]);
    ValueBound(s[5..7]);
    ValueBound(s[8..]);
    DigitsOfValue(s[..4]);
    DigitsOfValue(s[5..7]);
    DigitsOfValue(s[8..]);
    assert s == s[..4] + [s[4]] + s[5..7] + [s[7]] + s[8..];
  }

  /** Parsing accepts exactly the text that printing a storable date produces. */
  lemma ParseISOExact(s: string, date: Date)
    ensures ParseISO(s) == Some(date) <==> Storable(date) && s == ToISO(date)
  {
    hide CivilOf, Utc, Digits, Value, Dashed, ToISO, MonthLength, AllDigits;
    if Storable(date) && s == ToISO(date) {
      PartsOfPrinted(date);
      StorableRange(date);
      UtcRoundTripDecides(date.y, date.m, date.d);
    }
    if ParseISO(s) == Some(date) {
      PartsDetermine(s);
      UtcRoundTripDecides(date.y, date.m, date.d);
      ToISOParts(date);
    }
  }

  lemma ParseToISO(date: Date)
    requires Storable(date)
    ensures ParseISO(ToISO(date)) == Some(date)
  {
    ParseISOExact(ToISO(date), date);
  }

  /** String order of ISO text is calendar order, and the text determines the date. */
  lemma ISOOrder(a: Date, b: Date)
    requires Storable(a) && Storable(b)
    ensures Less(ToISO(a), ToISO(b)) <==> Before(a, b)
    ensures ToISO(a) == ToISO(b) <==> a == b
  {
    hide Digits, ToISO, Dashed, ParseISO, Less, MonthLength, Pow10;
    Powers();
    ToISOParts(a);
    ToISOParts(b);
    StorableRange(a);
    StorableRange(b);
    DashedOrder(Digits(a.y, 4), Digits(a.m, 2), Digits(a.d, 2), Digits(b.y, 4), Digits(b.m, 2), Digits(b.d, 2));
    DigitsOrder(a.y, b.y, 4);
    DigitsOrder(a.m, b.m, 2);
    DigitsOrder(a.d, b.d, 2);
    ParseToISO(a);
    ParseToISO(b);
  }

  lemma {:induction false} FirstDigit(n: nat, k: nat)
    requires k >= 1 && n < Pow10(k)
    ensures n / Pow10(k - 1) < 10
    ensures Digits(n, k)[0] == DigitChar(n / Pow10(k - 1))
  {
    if k > 1 {
      FirstDigit(n / 10, k - 1);
      QuotientOfQuotient(n, Pow10(k - 2));
    } else {
      assert Digits(n, 1) == [] + [DigitChar(n % 10)];
    }
  }

  lemma QuotientOfQuotient(n: nat, p: nat)
    requires p >= 1
    ensures n / 10 / p == n / (10 * p)
  {
    var q, r, t := n / 10 / p, n / 10 % p, n % 10;
    assert n == 10 * (p * q + r) + t;
    assert 10 * (p * q) == (10 * p) * q;
    DivIs(n, 10 * p, q, 10 * r + t);
  }

  /** Text of a year-10000 date sorts before every storable date of year 2000 on. */
  lemma FiveDigitYearSortsLow(a: Date, b: Date)
    requires Real(a) && a.y == 10000 && Storable(b) && b.y >= 2000
    ensures Less(ToISO(a), ToISO(b))
  {
    Powers();
    assert Pow10(3) == 1000;
    DecimalFive();
    ToISOParts(b);
    FirstDigit(b.y, 4);
    var x, y := ToISO(a), ToISO(b);
    assert x[0] == '1' && y[0] >= '2';
  }

  lemma DecimalFive()
    ensures Decimal(10000) == "10000"
  {
    assert Decimal(10) == Decimal(1) + ['0'];
    assert Decimal(100) == Decimal(10) + ['0'];
    assert Decimal(1000) == Decimal(100) + ['0'];
    assert Decimal(10000) == Decimal(1000) + ['0'];
  }

  // ---------- schedules ----------

  const WEEKDAYS: seq<string> :=
    ["sunday", "monday", "tuesday", "wednesday", "thursday", "friday", "saturday"]

  function IndexOf(xs: seq<string>, x: string): (i: int)
    ensures -1 <= i < |xs|
    ensures i >= 0 ==> xs[i] == x
    ensures i == -1 <==> x !in xs
  {
    if xs == [] then -1
    else if xs[0] == x then 0
    else
      var i := IndexOf(xs[1..], x);
      if i == -1 then -1 else i + 1
  }

  /** validateSchedule, keeping what the later code reads back out of `cadenceDay`. */
  function ReadRule(cadence: Cadence, cadenceDay: string): (r: Result<Rule, ScheduleError>)
    ensures r.Success? ==> ValidRule(r.value) && (r.value.OnWeekDay? <==> cadence == Weekly)
  {
    match cadence
    case Monthly =>
      if cadenceDay == "last" then Success(LastDay)
      else if AllDigits(cadenceDay) && 1 <= Value(cadenceDay) <= 31 && Decimal(Value(cadenceDay)) == cadenceDay
      then Success(MonthDay(Value(cadenceDay)))
      else Failure(BadSchedule)
    case Weekly =>
      var i := IndexOf(WEEKDAYS, cadenceDay);
      if i == -1 then Failure(BadSchedule) else Success(OnWeekDay(i))
  }

  /** The texts validateSchedule accepts, and that each names a different rule. */
  lemma AcceptedSchedules(cadence: Cadence, cadenceDay: string, rule: Rule)
    requires ValidRule(rule)
    ensures ReadRule(cadence, cadenceDay) == Success(rule) <==>
              match rule
              case LastDay => cadence == Monthly && cadenceDay == "last"
              case MonthDay(day) => cadence == Monthly && cadenceDay == Decimal(day)
              case OnWeekDay(w) =>
                cadence == Weekly
                && cadenceDay == ["sunday", "monday", "tuesday", "wednesday", "thursday", "friday", "saturday"][w]
  {
    hide Decimal, IndexOf, Value;
    assert "last"[0] == 'l' && !IsDigit('l');
    if rule.OnWeekDay? { DistinctWeekDays(rule.weekDay, IndexOf(WEEKDAYS, cadenceDay)); }
  }

  lemma DistinctWeekDays(i: int, j: int)
    requires 0 <= i < 7 && -1 <= j < 7
    ensures j >= 0 && WEEKDAYS[i] == WEEKDAYS[j] ==> i == j
  {
    var letter := (w: int) requires 0 <= w < 7 => (|WEEKDAYS[w]|, WEEKDAYS[w][0], WEEKDAYS[w][1]);
    assert forall w, v :: 0 <= w < v < 7 ==> letter(w) != letter(v);
  }

  function Min(a: int, b: int): int { if a <= b then a else b }

  /** The due day of a month: past the month's end it clamps to the last day. */
  function DueDay(rule: Rule, y: int, m: int): int {
    if rule.MonthDay? then Min(rule.day, MonthLength(y, m)) else MonthLength(y, m)
  }

  /** The scheduled dates of a rule. */
  predicate IsDue(rule: Rule, date: Date) {
    Real(date) &&
    if rule.OnWeekDay? then WeekDay(DayNumber(date)) == rule.weekDay
    else date.d == DueDay(rule, date.y, date.m)
  }

  // ---------- what a schedule says, in terms of the calendar ----------

  /** The day of the week by name: 1970-01-05 was a Monday. */
  predicate FallsOn(day: string, date: Date) {
    var n := DayNumber(date) - DayNumber(Date(1970, 1, 5));
    || (day == "monday" && n % 7 == 0)
    || (day == "tuesday" && n % 7 == 1)
    || (day == "wednesday" && n % 7 == 2)
    || (day == "thursday" && n % 7 == 3)
    || (day == "friday" && n % 7 == 4)
    || (day == "saturday" && n % 7 == 5)
    || (day == "sunday" && n % 7 == 6)
  }

  predicate LastOfMonth(date: Date) {
    !Real(Date(date.y, date.m, date.d + 1))
  }

  /** The date of the day of the month asked for, or the last one of a month that is too short. */
  predicate OnOrLast(day: int, date: Date) {
    date.d == day || (date.d < day && LastOfMonth(date))
  }

  /** The real dates that a cadence and its day name. */
  predicate Scheduled(cadence: Cadence, cadenceDay: string, date: Date) {
    Real(date) &&
    match cadence
    case Weekly => FallsOn(cadenceDay, date)
    case Monthly =>
      (cadenceDay == "last" && LastOfMonth(date))
      || exists day | 1 <= day <= 31 :: cadenceDay == Decimal(day) && OnOrLast(day, date)
  }

  /** The rule read from a schedule has exactly the dates the schedule names. */
  lemma DueIsScheduled(cadence: Cadence, cadenceDay: string, date: Date)
    ensures Scheduled(cadence, cadenceDay, date) <==>
            ReadRule(cadence, cadenceDay).Success? && IsDue(ReadRule(cadence, cadenceDay).value, date)
  {
    hide FallsOn, IsDue;
    if Real(date) {
      if cadence == Weekly { NamedDays(cadenceDay, date); } else { DaysOfMonth(cadenceDay, date); }
    } else {
      DueIsReal(cadence, cadenceDay, date);
    }
  }

  lemma DueIsReal(cadence: Cadence, cadenceDay: string, date: Date)
    ensures ReadRule(cadence, cadenceDay).Success? && IsDue(ReadRule(cadence, cadenceDay).value, date) ==> Real(date)
  {
    hide Real, DayNumber, ReadRule, DueDay;
  }

  lemma NamedDays(day: string, date: Date)
    requires Real(date)
    ensures FallsOn(day, date) <==> ReadRule(Weekly, day).Success? && IsDue(ReadRule(Weekly, day).value, date)
  {
    assert DayNumber(Date(1970, 1, 5)) == 4;
    hide DayNumber, Real, IndexOf, WeekDay;
    SevenNames(day, IndexOf(WEEKDAYS, day));
    WeekOffset(DayNumber(date) - 4);
  }

  /** Where a name stands in the table. */
  lemma SevenNames(day: string, w: int)
    requires w == IndexOf(WEEKDAYS, day)
    ensures day == "sunday" <==> w == 0
    ensures day == "monday" <==> w == 1
    ensures day == "tuesday" <==> w == 2
    ensures day == "wednesday" <==> w == 3
    ensures day == "thursday" <==> w == 4
    ensures day == "friday" <==> w == 5
    ensures day == "saturday" <==> w == 6
  {
    hide IndexOf;
    forall i | 0 <= i < 7 && day == WEEKDAYS[i]
      ensures w == i
    {
      assert WEEKDAYS[i] in WEEKDAYS;
      DistinctWeekDays(i, w);
    }
    assert WEEKDAYS[0] == "sunday" && WEEKDAYS[1] == "monday" && WEEKDAYS[2] == "tuesday" && WEEKDAYS[3] == "wednesday";
    assert WEEKDAYS[4] == "thursday" && WEEKDAYS[5] == "friday" && WEEKDAYS[6] == "saturday";
  }

  lemma WeekOffset(n: int)
    ensures WeekDay(n + 4) == if n % 7 == 6 then 0 else n % 7 + 1
  {
  }

  lemma DaysOfMonth(cadenceDay: string, date: Date)
    requires Real(date)
    ensures Scheduled(Monthly, cadenceDay, date) <==>
            ReadRule(Monthly, cadenceDay).Success? && IsDue(ReadRule(Monthly, cadenceDay).value, date)
  {
    hide Decimal, Value, MonthLength;
    assert "last"[0] == 'l' && !IsDigit('l');
  }

  /** `date` is the first scheduled date after the other. */
  ghost predicate FirstAfter(cadence: Cadence, cadenceDay: string, after: Date, date: Date) {
    && Scheduled(cadence, cadenceDay, date) && Before(after, date)
    && forall other :: Scheduled(cadence, cadenceDay, other) && Before(after, other) ==> !Before(other, date)
  }

  lemma NextIsFirst(cadence: Cadence, cadenceDay: string, after: Date)
    requires ReadRule(cadence, cadenceDay).Success? && Real(after)
    ensures FirstAfter(cadence, cadenceDay, after, Next(ReadRule(cadence, cadenceDay).value, after))
  {
    hide Scheduled, IsDue, Next, ReadRule, Before, Real;
    NextIsEarliest(ReadRule(cadence, cadenceDay).value, after);
    forall date { DueIsScheduled(cadence, cadenceDay, date); }
  }

  /**
   Numbers the due dates of a rule: calendar months for monthly rules, Sunday-started
   weeks for weekly ones.
   */
  function Slot(rule: Rule, date: Date): int {
    if rule.OnWeekDay? then (DayNumber(date) + 4) / 7 else 12 * date.y + date.m - 1
  }

  /** The one due date of a slot. */
  function DueAt(rule: Rule, slot: int): Date {
    if rule.OnWeekDay? then CivilOf(7 * slot + rule.weekDay - 4)
    else Date(slot / 12, slot % 12 + 1, DueDay(rule, slot / 12, slot % 12 + 1))
  }

  lemma WeekSlot(rule: Rule, slot: int)
    requires ValidRule(rule) && rule.OnWeekDay?
    ensures IsDue(rule, DueAt(rule, slot)) && Slot(rule, DueAt(rule, slot)) == slot
  {
    hide CivilOf, DayNumber, Real;
    CivilOfDay(7 * slot + rule.weekDay - 4);
    DivIs(7 * slot + rule.weekDay, 7, slot, rule.weekDay);
  }

  lemma MonthSlot(rule: Rule, slot: int)
    requires ValidRule(rule) && !rule.OnWeekDay?
    ensures IsDue(rule, DueAt(rule, slot)) && Slot(rule, DueAt(rule, slot)) == slot
  {
    hide Leap;
  }

  lemma DueAtIsDue(rule: Rule, slot: int)
    requires ValidRule(rule)
    ensures IsDue(rule, DueAt(rule, slot)) && Slot(rule, DueAt(rule, slot)) == slot
  {
    if rule.OnWeekDay? { WeekSlot(rule, slot); } else { MonthSlot(rule, slot); }
  }

  /** Due dates and slots are in order-preserving correspondence. */
  lemma SlotOrder(rule: Rule, a: Date, b: Date)
    requires ValidRule(rule) && IsDue(rule, a) && IsDue(rule, b)
    ensures Before(a, b) <==> Slot(rule, a) < Slot(rule, b)
    ensures a == b <==> Slot(rule, a) == Slot(rule, b)
  {
    hide DayNumber, MonthLength;
    DayNumberOrder(a, b);
  }

  lemma DueAtSlot(rule: Rule, date: Date)
    requires ValidRule(rule) && IsDue(rule, date)
    ensures DueAt(rule, Slot(rule, date)) == date
  {
    DueAtIsDue(rule, Slot(rule, date));
    SlotOrder(rule, DueAt(rule, Slot(rule, date)), date);
  }

  function DaysToGo(rule: Rule, day: int): int
    requires rule.OnWeekDay?
  {
    (rule.weekDay - WeekDay(day) - 1) % 7 + 1
  }

  /** The due date the search of `nextDueDate` looks for, over all years. */
  function Next(rule: Rule, after: Date): Date {
    if rule.OnWeekDay? then CivilOf(DayNumber(after) + DaysToGo(rule, DayNumber(after)))
    else if after.d < DueDay(rule, after.y, after.m) then Date(after.y, after.m, DueDay(rule, after.y, after.m))
    else if after.m < 12 then Date(after.y, after.m + 1, DueDay(rule, after.y, after.m + 1))
    else Date(after.y + 1, 1, DueDay(rule, after.y + 1, 1))
  }

  lemma NextMonthly(rule: Rule, after: Date, date: Date)
    requires ValidRule(rule) && !rule.OnWeekDay? && Real(after)
    ensures IsDue(rule, Next(rule, after)) && Before(after, Next(rule, after))
    ensures IsDue(rule, date) && Before(after, date) ==> !Before(date, Next(rule, after))
  {
  }

  lemma NextWeekly(rule: Rule, after: Date, date: Date)
    requires ValidRule(rule) && rule.OnWeekDay? && Real(after)
    ensures IsDue(rule, Next(rule, after)) && Before(after, Next(rule, after))
    ensures IsDue(rule, date) && Before(after, date) ==> !Before(date, Next(rule, after))
  {
    hide DayNumber, CivilOf, Real;
    var n := DayNumber(after);
    var step := DaysToGo(rule, n);
    CivilOfDay(n + step);
    WeekStep(n, step, rule.weekDay);
    DayNumberOrder(after, Next(rule, after));
    if IsDue(rule, date) && Before(after, date) {
      DayNumberOrder(after, date);
      DayNumberOrder(date, Next(rule, after));
      WeekGap(n, DayNumber(date), rule.weekDay);
    }
  }

  /** `Next` is the earliest due date strictly after its argument. */
  lemma NextIsEarliest(rule: Rule, after: Date)
    requires ValidRule(rule) && Real(after)
    ensures IsDue(rule, Next(rule, after)) && Before(after, Next(rule, after))
    ensures forall date :: IsDue(rule, date) && Before(after, date) ==> !Before(date, Next(rule, after))
  {
    forall date
      ensures IsDue(rule, Next(rule, after)) && Before(after, Next(rule, after))
      ensures IsDue(rule, date) && Before(after, date) ==> !Before(date, Next(rule, after))
    {
      if rule.OnWeekDay? { NextWeekly(rule, after, date); } else { NextMonthly(rule, after, date); }
    }
    assert Real(after) && IsDue(rule, Next(rule, after)) by {
      if rule.OnWeekDay? { NextWeekly(rule, after, after); } else { NextMonthly(rule, after, after); }
    }
  }

  lemma WeekGap(after: int, day: int, w: int)
    requires after < day && WeekDay(day) == w
    ensures after + (w - WeekDay(after) - 1) % 7 + 1 <= day
  {
    var step := (w - WeekDay(after) - 1) % 7;
    if day <= after + 7 {
      var k := day - after - 1;
      assert (w - WeekDay(after) - 1) % 7 == k by {
        assert w - WeekDay(after) - 1 == k + 7 * ((after + 4) / 7 - (day + 4) / 7);
      }
    }
  }

  /** From a due date, `Next` moves to the next slot: no month and no week is skipped or repeated. */
  lemma NextSlot(rule: Rule, date: Date)
    requires ValidRule(rule) && IsDue(rule, date)
    ensures IsDue(rule, Next(rule, date)) && Slot(rule, Next(rule, date)) == Slot(rule, date) + 1
    ensures Next(rule, date) == DueAt(rule, Slot(rule, date) + 1)
  {
    var next, want := Next(rule, date), DueAt(rule, Slot(rule, date) + 1);
    NextIsEarliest(rule, date);
    DueAtIsDue(rule, Slot(rule, date) + 1);
    hide Next, DueAt, IsDue, Slot, Before;
    SlotOrder(rule, date, next);
    SlotOrder(rule, date, want);
    SlotOrder(rule, want, next);
  }

  function Iterate(rule: Rule, date: Date, n: nat): Date {
    if n == 0 then date else Next(rule, Iterate(rule, date, n - 1))
  }

  lemma {:induction false} IterateSlot(rule: Rule, date: Date, n: nat)
    requires ValidRule(rule) && IsDue(rule, date)
    ensures IsDue(rule, Iterate(rule, date, n)) && Slot(rule, Iterate(rule, date, n)) == Slot(rule, date) + n
  {
    hide Next, IsDue, Slot;
    if n > 0 {
      IterateSlot(rule, date, n - 1);
      NextSlot(rule, Iterate(rule, date, n - 1));
    }
  }

  /**
   Iterating from a due date visits every later due date exactly once, after as many steps as
   there are months or weeks between: none is skipped, none comes twice.
   */
  lemma EveryPeriodOnce(rule: Rule, date: Date, later: Date, n: nat)
    requires ValidRule(rule) && IsDue(rule, date) && IsDue(rule, later) && !Before(later, date)
    ensures Iterate(rule, date, n) == later <==> n == Slot(rule, later) - Slot(rule, date)
    ensures Slot(rule, later) >= Slot(rule, date)
  {
    hide IsDue, Slot, Before, Iterate;
    SlotOrder(rule, later, date);
    IterateSlot(rule, date, n);
    SlotOrder(rule, Iterate(rule, date, n), later);
  }

  /** A monthly schedule has exactly one due date in each month. */
  lemma OneDueDatePerMonth(rule: Rule, y: int, m: int, date: Date)
    requires ValidRule(rule) && !rule.OnWeekDay? && 1 <= m <= 12
    ensures IsDue(rule, date) && date.y == y && date.m == m <==> date == DueAt(rule, 12 * y + m - 1)
  {
    hide MonthLength, IsDue;
    DueAtIsDue(rule, 12 * y + m - 1);
    if IsDue(rule, date) { DueAtSlot(rule, date); }
  }

  // ---------- nextDueDate ----------

  function DaysInMonth(y: int, m: int): int {
    CivilOf(Utc(y, m, 0)).d
  }

  /**
   The only input on which the search for a monthly due date comes back empty: December
   9999 on or after its due day, where the text of the next candidate has a five-digit
   year and so compares below.
   */
  predicate EndOfIsoTime(rule: Rule, after: Date) {
    !rule.OnWeekDay? && after.y == 9999 && after.m == 12 && after.d >= DueDay(rule, 9999, 12)
  }

  method NextDueDate(cadence: Cadence, cadenceDay: string, afterISO: string) returns (r: Result<string, ScheduleError>)
    ensures r.Failure? <==>
            || ReadRule(cadence, cadenceDay).Failure?
            || ParseISO(afterISO).None?
            || EndOfIsoTime(ReadRule(cadence, cadenceDay).value, ParseISO(afterISO).value)
    ensures r.Success? ==> r.value == ToISO(Next(ReadRule(cadence, cadenceDay).value, ParseISO(afterISO).value))
    ensures r.Success? ==>
              exists date :: r.value == ToISO(date) && FirstAfter(cadence, cadenceDay, ParseISO(afterISO).value, date)
    ensures r == Failure(NoMonthlyDate) <==>
              && ReadRule(cadence, cadenceDay).Success? && ParseISO(afterISO).Some?
              && EndOfIsoTime(ReadRule(cadence, cadenceDay).value, ParseISO(afterISO).value)
  {
    hide DayNumber, CivilOf, ToISO, ParseISO, Real, FirstAfter;
    var read := ReadRule(cadence, cadenceDay);
    if read.Failure? { return Failure(read.error); }
    var parsed := ParseISO(afterISO);
    if parsed.None? { return Failure(BadDate); }
    ParseISOExact(afterISO, parsed.value);
    NextIsFirst(cadence, cadenceDay, parsed.value);
    if cadence == Monthly {
      r := SearchMonths(read.value, parsed.value, afterISO);
    } else {
      r := SearchWeek(read.value, parsed.value);
    }
  }

  /** The throw called unreachable, reached: the next "last" of a month after 9999-12-31. */
  lemma EndOfIsoTimeReached()
    ensures ReadRule(Monthly, "last").Success? && ParseISO("9999-12-31").Some?
    ensures EndOfIsoTime(ReadRule(Monthly, "last").value, ParseISO("9999-12-31").value)
  {
    hide ParseISO, ToISO, Digits;
    var date := Date(9999, 12, 31);
    NineDigits();
    ToISOParts(date);
    ParseToISO(date);
    assert ToISO(date) == "9999-12-31";
  }

  lemma NineDigits()
    ensures Digits(9999, 4) == "9999" && Digits(12, 2) == "12" && Digits(31, 2) == "31"
  {
    OneMoreDigit(9999, 3);
    OneMoreDigit(999, 2);
    OneMoreDigit(99, 1);
    OneMoreDigit(9, 0);
    OneMoreDigit(12, 1);
    OneMoreDigit(1, 0);
    OneMoreDigit(31, 1);
    OneMoreDigit(3, 0);
  }

  lemma OneMoreDigit(n: nat, k: nat)
    ensures Digits(n, k + 1) == Digits(n / 10, k) + [DigitChar(n % 10)]
    ensures k == 0 ==> Digits(n / 10, k) == []
  {
  }

  method SearchMonths(rule: Rule, after: Date, afterISO: string) returns (r: Result<string, ScheduleError>)
    requires ValidRule(rule) && !rule.OnWeekDay? && Storable(after) && afterISO == ToISO(after)
    ensures r == Failure(NoMonthlyDate) <==> r.Failure?
    ensures r.Failure? <==> EndOfIsoTime(rule, after)
    ensures r.Success? ==> r.value == ToISO(Next(rule, after))
  {
    hide MonthLength, ToISO, CivilOf, Utc, DayNumber;
    for offset := 0 to 3
      invariant offset >= 1 ==> after.d >= DueDay(rule, after.y, after.m)
      invariant offset >= 2 ==> EndOfIsoTime(rule, after)
    {
      var monthIndex := after.m - 1 + offset;
      var y, m := after.y + monthIndex / 12, monthIndex % 12 + 1;
      var dim := DaysInMonth(y, m);
      DayZeroIsMonthLength(y, m);
      var d := if rule.LastDay? then dim else Min(rule.day, dim);
      assert d == DueDay(rule, y, m);
      var iso := ToISO(Date(y, m, d));
      CandidateText(after, Date(y, m, d));
      if Less(afterISO, iso) { return Success(iso); }
    }
    return Failure(NoMonthlyDate);
  }

  method SearchWeek(rule: Rule, after: Date) returns (r: Result<string, ScheduleError>)
    requires ValidRule(rule) && rule.OnWeekDay? && Storable(after)
    ensures r == Success(ToISO(Next(rule, after)))
  {
    hide DayNumber, CivilOf, ToISO, Real;
    var base := DayNumber(after);
    ghost var want := DaysToGo(rule, base);
    assert Next(rule, after) == CivilOf(base + want);
    for step := 1 to 8
      invariant step <= want
    {
      WeekStep(base, step, rule.weekDay);
      if WeekDay(base + step) == rule.weekDay {
        return Success(ToISO(CivilOf(base + step)));
      }
    }
    assert false;
  }

  /** A candidate's text compares above `after` exactly when it is later and still of four-digit year. */
  lemma CandidateText(after: Date, candidate: Date)
    requires Storable(after) && Real(candidate) && after.y <= candidate.y <= after.y + 1
    ensures Less(ToISO(after), ToISO(candidate)) <==> Before(after, candidate) && candidate.y <= 9999
  {
    if candidate.y == 10000 {
      FiveDigitYearSortsLow(candidate, after);
      LessAsymmetric(ToISO(candidate), ToISO(after));
    } else {
      ISOOrder(after, candidate);
    }
  }

  lemma WeekStep(base: int, step: int, w: int)
    requires 1 <= step <= 7 && 0 <= w <= 6
    ensures WeekDay(base + step) == w <==> step == (w - WeekDay(base) - 1) % 7 + 1
  {
  }

  /** What the caller of `nextDueDate` relies on, in terms of ISO text alone. */
  lemma NextDueTextIsEarliest(rule: Rule, after: Date)
    requires ValidRule(rule) && Storable(after) && after.y <= 9998
    ensures Storable(Next(rule, after)) && Less(ToISO(after), ToISO(Next(rule, after)))
    ensures forall date :: (Storable(date) && IsDue(rule, date) && Less(ToISO(after), ToISO(date))) ==>
                !Less(ToISO(date), ToISO(Next(rule, after)))
  {
    var next := Next(rule, after);
    NextIsEarliest(rule, after);
    NextWithinYear(rule, after);
    ISOOrder(after, next);
    forall date | Storable(date) && IsDue(rule, date) && Less(ToISO(after), ToISO(date))
      ensures !Less(ToISO(date), ToISO(next))
    {
      ISOOrder(after, date);
      ISOOrder(date, next);
    }
  }

  lemma NextWithinYear(rule: Rule, after: Date)
    requires ValidRule(rule) && Real(after)
    ensures after.y <= Next(rule, after).y <= after.y + 1
  {
    hide CivilOf, DayNumber, Real, MonthLength, DueDay;
    if rule.OnWeekDay? {
      CivilOfDay(DayNumber(after) + DaysToGo(rule, DayNumber(after)));
      WithinAWeek(after, Next(rule, after));
    }
  }

  lemma WithinAWeek(after: Date, next: Date)
    requires Real(after) && Real(next) && DayNumber(after) < DayNumber(next) <= DayNumber(after) + 7
    ensures after.y <= next.y <= after.y + 1
  {
    hide Real, DayFromYear, DaysBefore;
    DayOfYearBound(after);
    DayOfYearBound(next);
    YearLength(after.y + 1);
    if next.y >= after.y + 2 { DayFromYearMonotone(after.y + 2, next.y); }
    if next.y < after.y { DayFromYearMonotone(next.y + 1, after.y); }
  }

  // ---------- period keys ----------

  function PeriodKey(cadence: Cadence, dueISO: string): (r: Option<string>) {
    if ParseISO(dueISO).None? then None
    else Some(if cadence == Monthly then dueISO[..7] else dueISO)
  }

  /** The key of a month is its ISO year and month, the key of a week its due date. */
  lemma PeriodKeyIs(date: Date)
    requires Storable(date)
    ensures PeriodKey(Weekly, ToISO(date)) == Some(ToISO(date))
    ensures PeriodKey(Monthly, ToISO(date)).Some? && |PeriodKey(Monthly, ToISO(date)).value| == 7
    ensures PeriodKey(Monthly, ToISO(date)).value + "-" + Digits(date.d, 2) == ToISO(date)
  {
    hide Digits, ToISO, ParseISO, MonthLength;
    ParseToISO(date);
    StorableRange(date);
    Powers();
    ToISOParts(date);
    var head := Digits(date.y, 4) + "-" + Digits(date.m, 2);
    assert ToISO(date) == head + ("-" + Digits(date.d, 2)) && |head| == 7;
    assert ToISO(date)[..7] == head;
  }

  function CadenceOf(rule: Rule): Cadence {
    if rule.OnWeekDay? then Weekly else Monthly
  }

  /** Two due dates of one schedule with the same period key are the same date. */
  lemma PeriodKeyInjective(rule: Rule, a: Date, b: Date)
    requires ValidRule(rule) && Storable(a) && Storable(b) && IsDue(rule, a) && IsDue(rule, b)
    requires PeriodKey(CadenceOf(rule), ToISO(a)) == PeriodKey(CadenceOf(rule), ToISO(b))
    ensures a == b
  {
    ParseToISO(a);
    ParseToISO(b);
    ISOOrder(a, b);
    if !rule.OnWeekDay? { MonthPrefix(a, b); }
  }

  lemma MonthPrefix(a: Date, b: Date)
    requires Storable(a) && Storable(b)
    ensures |ToISO(a)| == |ToISO(b)| == 10
    ensures ToISO(a)[..7] == ToISO(b)[..7] <==> a.y == b.y && a.m == b.m
  {
    hide Digits, ToISO, Dashed, MonthLength, Pow10;
    Powers();
    ToISOParts(a);
    ToISOParts(b);
    StorableRange(a);
    StorableRange(b);
    DashedParts(Digits(a.y, 4), Digits(a.m, 2), Digits(a.d, 2));
    DashedParts(Digits(b.y, 4), Digits(b.m, 2), Digits(b.d, 2));
    DigitsOrder(a.y, b.y, 4);
    DigitsOrder(a.m, b.m, 2);
    if ToISO(a)[..7] == ToISO(b)[..7] {
      DashedPrefix(Digits(a.y, 4), Digits(a.m, 2), Digits(b.y, 4), Digits(b.m, 2));
    }
  }

  // ---------- anchors of new and resumed templates ----------

  function IsoAddDays(iso: string, days: int): (r: Option<string>)
  {
    match ParseISO(iso)
    case None => None
    case Some(date) =>
      Some(ToISO(CivilOf(Utc(date.y, date.m - 1, date.d) + days)))
  }

  /**
   `nextDueDate(cadence, cadenceDay, isoAddDays(today, -1))`, the `nextRun` of a created
   or resumed template: the earliest due date on or after `today`.
   */
  method FirstRun(cadence: Cadence, cadenceDay: string, today: string) returns (r: Result<string, ScheduleError>)
    requires ParseISO(today).Some? && ParseISO(today).value.y <= 9998
    ensures r.Failure? <==> ReadRule(cadence, cadenceDay).Failure? || ParseISO(today) == Some(Date(100, 1, 1))
    ensures r.Success? ==>
              var rule := ReadRule(cadence, cadenceDay).value;
              exists date :: r.value == ToISO(date) && EarliestFrom(rule, ParseISO(today).value, date)
  {
    hide DayNumber, CivilOf, ToISO, ParseISO, IsoAddDays, Next, ReadRule, Real, Eve, EarliestFrom, EndOfIsoTime;
    ghost var t := ParseISO(today).value;
    ghost var read := ReadRule(cadence, cadenceDay);
    var yesterday := IsoAddDays(today, -1);
    Yesterday(today);
    if read.Success? && t != Date(100, 1, 1) {
      EveYear(t);
      EarliestAfterEve(read.value, Eve(t), t);
    }
    r := NextDueDate(cadence, cadenceDay, yesterday.value);
  }

  function Eve(t: Date): Date {
    CivilOf(DayNumber(t) - 1)
  }

  lemma StorableRange(t: Date)
    requires Storable(t)
    ensures 1 <= t.m <= 12 && 1 <= t.d <= 31 && 100 <= t.y <= 9999
  {
  }

  lemma Yesterday(today: string)
    requires ParseISO(today).Some?
    ensures var t := ParseISO(today).value;
            && Storable(t) && today == ToISO(t) && IsoAddDays(today, -1).Some?
            && ParseISO(IsoAddDays(today, -1).value) == if t == Date(100, 1, 1) then None else Some(Eve(t))
  {
    hide DayNumber, Utc, CivilOf, ToISO, Real, MonthLength;
    var t := ParseISO(today).value;
    ParseISOExact(today, t);
    StorableRange(t);
    UtcOfReal(t.y, t.m, t.d);
    CivilOfDay(DayNumber(t) - 1);
    EveYear(t);
    assert IsoAddDays(today, -1) == Some(ToISO(Eve(t)));
    if t == Date(100, 1, 1) { BelowYear100(Eve(t)); } else { ParseToISO(Eve(t)); }
  }

  /** The earliest due date on or after `from`. */
  ghost predicate EarliestFrom(rule: Rule, from: Date, date: Date) {
    IsDue(rule, date) && Storable(date) && !Before(date, from)
    && forall other :: IsDue(rule, other) && !Before(other, from) ==> !Before(other, date)
  }

  lemma YearGap(y: int)
    ensures DayNumber(Date(y, 1, 1)) - DayNumber(Date(y - 1, 1, 1)) >= 365
  {
    YearLength(y - 1);
  }

  lemma EveYear(t: Date)
    requires Storable(t)
    ensures Eve(t).y == if t.m == 1 && t.d == 1 then t.y - 1 else t.y
  {
    hide DayNumber, CivilOf, MonthLength;
    var eve, newYear := Eve(t), Date(t.y, 1, 1);
    CivilOfDay(DayNumber(t) - 1);
    DayNumberOrder(eve, t);
    DayNumberOrder(eve, newYear);
    DayNumberOrder(newYear, t);
    YearGap(t.y);
    DayNumberOrder(Date(t.y - 1, 1, 1), eve);
  }

  lemma BelowYear100(eve: Date)
    requires Real(eve) && 0 <= eve.y < 100
    ensures ParseISO(ToISO(eve)).None?
  {
    hide DayNumber, CivilOf, ToISO, ParseISO, Digits, MonthLength;
    var s := ToISO(eve);
    Powers();
    PrintedFourDigits(eve);
    if ParseISO(s).Some? {
      var date := ParseISO(s).value;
      ParseISOExact(s, date);
      PrintedFourDigits(date);
      DigitsOrder(eve.y, date.y, 4);
    }
  }

  /** The text of a date up to year 9999 begins with the four digits of the year. */
  lemma PrintedFourDigits(date: Date)
    requires 0 <= date.y <= 9999 && 1 <= date.m <= 12 && 1 <= date.d <= 31
    ensures |ToISO(date)| == 10 && ToISO(date)[..4] == Digits(date.y, 4)
  {
    hide Digits, Decimal, PadStart;
    Powers();
    PaddedDecimal(date.y, 4);
    PaddedDecimal(date.m, 2);
    PaddedDecimal(date.d, 2);
    DashedParts(Digits(date.y, 4), Digits(date.m, 2), Digits(date.d, 2));
  }

  lemma EarliestAfterEve(rule: Rule, eve: Date, t: Date)
    requires ValidRule(rule) && Storable(t) && eve == Eve(t) && eve.y >= 100 && t.y <= 9998
    ensures EarliestFrom(rule, t, Next(rule, eve)) && !EndOfIsoTime(rule, eve)
  {
    hide DayNumber, CivilOf, Next, MonthLength, DueDay;
    CivilOfDay(DayNumber(t) - 1);
    NextIsEarliest(rule, eve);
    NextWithinYear(rule, eve);
    EveYear(t);
    DayNumberOrder(eve, t);
    var next := Next(rule, eve);
    DayNumberOrder(eve, next);
    DayNumberOrder(next, t);
    forall other | IsDue(rule, other) && !Before(other, t)
      ensures !Before(other, next)
    {
      DayNumberOrder(other, t);
      DayNumberOrder(eve, other);
    }
  }

  // ---------- the due dates of a rule as text, by slot ----------

  function DueText(rule: Rule, slot: int): string {
    ToISO(DueAt(rule, slot))
  }

  predicate InIso(rule: Rule, slot: int) {
    100 <= DueAt(rule, slot).y <= 9999
  }

  function SlotOf(rule: Rule, iso: string): int {
    if ParseISO(iso).Some? then Slot(rule, ParseISO(iso).value) else 0
  }

  /** The period under which the due date of a slot is posted. */
  function KeyAt(rule: Rule, slot: int): string {
    PeriodKey(CadenceOf(rule), DueText(rule, slot)).GetOr("")
  }

  /** What `nextDueDate` returns for a parsed date (see NextDueDate). */
  function Advance(rule: Rule, iso: string): string {
    if ParseISO(iso).Some? then ToISO(Next(rule, ParseISO(iso).value)) else ""
  }

  /** `nextRun` of a template created or resumed on `today` (see FirstRun). */
  function AnchorFrom(rule: Rule, today: string): string {
    if ParseISO(today).Some? then ToISO(Next(rule, Eve(ParseISO(today).value))) else ""
  }

  lemma DueTextParses(rule: Rule, slot: int)
    requires ValidRule(rule) && InIso(rule, slot)
    ensures Storable(DueAt(rule, slot)) && IsDue(rule, DueAt(rule, slot))
    ensures ParseISO(DueText(rule, slot)) == Some(DueAt(rule, slot))
    ensures SlotOf(rule, DueText(rule, slot)) == slot
  {
    hide ToISO, ParseISO, DueAt, Slot, DayNumber, MonthLength, DueDay, WeekDay;
    DueAtIsDue(rule, slot);
    ParseToISO(DueAt(rule, slot));
  }

  /** Due dates compare, as text, as their slots. */
  lemma DueTextOrder(rule: Rule, i: int, j: int)
    requires ValidRule(rule) && InIso(rule, i) && InIso(rule, j)
    ensures Less(DueText(rule, i), DueText(rule, j)) <==> i < j
  {
    hide ToISO, ParseISO, DueAt, Slot, SlotOf, IsDue, Storable, Less, Before;
    DueTextParses(rule, i);
    DueTextParses(rule, j);
    DueAtIsDue(rule, i);
    DueAtIsDue(rule, j);
    ISOOrder(DueAt(rule, i), DueAt(rule, j));
    SlotOrder(rule, DueAt(rule, i), DueAt(rule, j));
  }

  /** Distinct slots have distinct period keys. */
  lemma KeyAtInjective(rule: Rule, i: int, j: int)
    requires ValidRule(rule) && InIso(rule, i) && InIso(rule, j) && KeyAt(rule, i) == KeyAt(rule, j)
    ensures i == j
  {
    hide ToISO, ParseISO, DueAt, Slot, SlotOf, IsDue, Storable;
    DueTextParses(rule, i);
    DueTextParses(rule, j);
    PeriodKeyInjective(rule, DueAt(rule, i), DueAt(rule, j));
  }

  /** Advancing a due date gives the due date of the next slot. */
  lemma AdvanceIsNextSlot(rule: Rule, slot: int)
    requires ValidRule(rule) && InIso(rule, slot)
    ensures Advance(rule, DueText(rule, slot)) == DueText(rule, slot + 1)
    ensures DueAt(rule, slot).y <= DueAt(rule, slot + 1).y <= DueAt(rule, slot).y + 1
  {
    hide ToISO, ParseISO, DueAt, Slot, SlotOf, MonthLength, Next, DueDay, WeekDay, DayNumber;
    DueTextParses(rule, slot);
    DueAtIsDue(rule, slot);
    NextSlot(rule, DueAt(rule, slot));
    NextWithinYear(rule, DueAt(rule, slot));
  }

  /** A due date of year 9998 or before that is not after `today` leaves room to advance. */
  lemma DueByToday(rule: Rule, slot: int, today: string)
    requires ValidRule(rule) && InIso(rule, slot)
    requires ParseISO(today).Some? && ParseISO(today).value.y <= 9998
    requires !Less(today, DueText(rule, slot))
    ensures InIso(rule, slot + 1)
  {
    hide ToISO, ParseISO, DueAt, Slot, SlotOf, MonthLength, DueDay, WeekDay, DayNumber, Less;
    DueTextParses(rule, slot);
    AdvanceIsNextSlot(rule, slot);
    var t := ParseISO(today).value;
    ParseISOExact(today, t);
    ISOOrder(t, DueAt(rule, slot));
  }

  /** The anchor of a created or resumed template is the earliest due date not before today. */
  lemma AnchorIsEarliest(rule: Rule, today: string)
    requires ValidRule(rule) && ParseISO(today).Some? && 101 <= ParseISO(today).value.y <= 9998
    ensures var anchor := AnchorFrom(rule, today);
            var slot := SlotOf(rule, anchor);
            && InIso(rule, slot) && anchor == DueText(rule, slot) && !Less(anchor, today)
            && forall k :: InIso(rule, k) && !Less(DueText(rule, k), today) ==> slot <= k
  {
    hide ToISO, ParseISO, DueAt, Slot, DayNumber, MonthLength, DueDay, WeekDay, Less, Next, Eve, Before, Real;
    var t := ParseISO(today).value;
    ParseISOExact(today, t);
    EveYear(t);
    EarliestAfterEve(rule, Eve(t), t);
    var next := Next(rule, Eve(t));
    ParseToISO(next);
    DueAtSlot(rule, next);
    ISOOrder(next, t);
    var slot := Slot(rule, next);
    forall k | InIso(rule, k) && !Less(DueText(rule, k), today)
      ensures slot <= k
    {
      DueTextParses(rule, k);
      DueAtIsDue(rule, k);
      ISOOrder(DueAt(rule, k), t);
      SlotOrder(rule, DueAt(rule, k), next);
    }
  }

  /** The two anchors agree: what FirstRun returns is AnchorFrom. */
  lemma FirstRunIsAnchor(rule: Rule, today: string, date: Date)
    requires ValidRule(rule) && ParseISO(today).Some? && 101 <= ParseISO(today).value.y <= 9998
    requires EarliestFrom(rule, ParseISO(today).value, date)
    ensures ToISO(date) == AnchorFrom(rule, today)
  {
    hide ToISO, ParseISO, Next, Eve, Before, Real, IsDue;
    var t := ParseISO(today).value;
    ParseISOExact(today, t);
    EveYear(t);
    EarliestAfterEve(rule, Eve(t), t);
    EarliestUnique(rule, t, date, Next(rule, Eve(t)));
  }

  lemma EarliestUnique(rule: Rule, from: Date, a: Date, b: Date)
    requires EarliestFrom(rule, from, a) && EarliestFrom(rule, from, b)
    ensures a == b
  {
    hide IsDue, Storable;
  }
}
