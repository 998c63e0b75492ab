/**
 What the worker's pass achieves: how many periods one run posts, that a lagging `nextRun`
 is healed, that repeated runs catch up, that the SQL pre-filter loses nothing, and that the
 pass is one run of the BillRuns machine.
 */
module BillCatchUp {
  import opened Text
  import opened Calendar
  import opened Schedule
  import opened Sums
  import BillRuns
  import opened BillWorker

  /** The expense that the due date of a slot is posted as. */
  function ExpenseAt(id: nat, rule: Rule, slot: int): Expense {
    Expense(id, KeyAt(rule, slot))
  }

  function ExpensesFrom(id: nat, rule: Rule, slot: int, n: nat): seq<Expense> {
    seq(n, i => ExpenseAt(id, rule, slot + i))
  }

  function KeysFrom(rule: Rule, slot: int, n: nat): seq<string> {
    seq(n, i => KeyAt(rule, slot + i))
  }

  /** The slot of the first due date after `today`. */
  function OpenSlot(rule: Rule, today: string): int {
    SlotOf(rule, Advance(rule, today))
  }

  lemma OpenSlotSplits(rule: Rule, today: string, slot: int)
    requires ValidRule(rule) && BillRuns.GoodDay(today) && InIso(rule, slot)
    ensures Less(today, DueText(rule, slot)) <==> OpenSlot(rule, today) <= slot
  {
    hide ToISO, ParseISO, DueAt, Slot, DayNumber, MonthLength, DueDay, WeekDay, Less, Next, Before, Real;
    var t := ParseISO(today).value;
    ParseISOExact(today, t);
    NextIsEarliest(rule, t);
    NextWithinYear(rule, t);
    var next := Next(rule, t);
    ParseToISO(next);
    DueTextParses(rule, slot);
    DueAtIsDue(rule, slot);
    ISOOrder(t, DueAt(rule, slot));
    SlotOrder(rule, DueAt(rule, slot), next);
    BeforeTotal(t, DueAt(rule, slot), next);
  }

  lemma BeforeTotal(a: Date, b: Date, c: Date)
    requires Before(a, c)
    ensures !Before(a, b) ==> Before(b, c)
  {
  }

  /** The first `lag` of the due periods from the template's `nextRun` on are posted, the rest are not. */
  ghost predicate Lagging(id: nat, t: Template, expenses: seq<Expense>, lag: nat)
    requires ReadRule(t.cadence, t.cadenceDay).Success?
  {
    var rule, n := RuleOf(t), SlotOf(RuleOf(t), t.nextRun);
    forall slot :: n <= slot && InIso(rule, slot) ==> (ExpenseAt(id, rule, slot) in expenses <==> slot < n + lag)
  }

  /** The facts one round of the loop needs about a sound template. */
  lemma RoundFacts(t: Template, today: string)
    requires TemplateOk(t) && BillRuns.GoodDay(today)
    ensures ReadRule(t.cadence, t.cadenceDay).Success?
    ensures var rule, n := RuleOf(t), SlotOf(RuleOf(t), t.nextRun);
            && ValidRule(rule) && InIso(rule, n) && t.nextRun == DueText(rule, n)
            && PeriodAt(t.cadence, t.nextRun) == KeyAt(rule, n)
            && (Less(today, t.nextRun) <==> OpenSlot(rule, today) <= n)
            && (!Less(today, t.nextRun) ==>
                  var next := t.(nextRun := Advance(rule, t.nextRun));
                  TemplateOk(next) && SlotOf(rule, next.nextRun) == n + 1)
  {
    hide InIso, DueText, OpenSlot, Less, BillRuns.GoodDay, Advance, SlotOf, KeyAt;
    PeriodOfSlot(t);
    OpenSlotSplits(RuleOf(t), today, SlotOf(RuleOf(t), t.nextRun));
    if !Less(today, t.nextRun) { StepOk(t, today); }
  }

  lemma PeriodOfSlot(t: Template)
    requires TemplateOk(t)
    ensures PeriodAt(t.cadence, t.nextRun) == KeyAt(RuleOf(t), SlotOf(RuleOf(t), t.nextRun))
  {
    hide InIso, DueText, SlotOf, ParseISO, PeriodKey;
    assert CadenceOf(RuleOf(t)) == t.cadence;
  }

  /** How many of the due periods from the stored `nextRun` on a turn with `fuel` rounds handles. */
  function Handled(t: Template, today: string, fuel: nat): nat
    requires ReadRule(t.cadence, t.cadenceDay).Success?
  {
    var due := OpenSlot(RuleOf(t), today) - SlotOf(RuleOf(t), t.nextRun);
    if due <= 0 then 0 else if due <= fuel then due else fuel
  }

  /** The outcome of a turn that meets no posting problem, `lag` periods behind the postings. */
  ghost predicate ExactTurn(id: nat, t: Template, expenses: seq<Expense>, today: string, lag: nat, fuel: nat,
                            turn: Turn)
    requires ReadRule(t.cadence, t.cadenceDay).Success?
  {
    var rule, n, m := RuleOf(t), SlotOf(RuleOf(t), t.nextRun), Handled(t, today, fuel);
    var stepped := if lag <= m then lag else m;
    && turn.nextRun == DueText(rule, n + m) && turn.active == t.active && !turn.refused
    && turn.already == KeysFrom(rule, n, stepped)
    && turn.expenses == expenses + ExpensesFrom(id, rule, n + lag, m - stepped)
  }

  predicate LagBounded(t: Template, today: string, lag: nat)
    requires ReadRule(t.cadence, t.cadenceDay).Success?
  {
    lag > 0 ==> SlotOf(RuleOf(t), t.nextRun) + lag <= OpenSlot(RuleOf(t), today)
  }

  /**
   With `due` periods due from the stored `nextRun` on, `lag` of them already posted, and no
   posting problem, one turn steps past the first min(lag, 24) of them, posts the following ones
   in order up to 24 in all, and leaves `nextRun` min(due, 24) periods further.  With no lag it
   posts exactly min(due, 24) expenses.
   */
  lemma {:induction false} CatchUpExact(id: nat, t: Template, expenses: seq<Expense>, today: string, lag: nat,
                                        fuel: nat)
    requires ReadRule(t.cadence, t.cadenceDay).Success? && TemplateOk(t) && BillRuns.GoodDay(today)
    requires Lagging(id, t, expenses, lag) && LagBounded(t, today, lag)
    ensures ExactTurn(id, t, expenses, today, lag, fuel, CatchUp(id, t, expenses, today, false, fuel))
    decreases fuel
  {
    hide BillRuns.GoodDay, Less, TemplateOk, DueText, OpenSlot, SlotOf, InIso, KeyAt, Advance, PeriodAt, ReadRule,
         Lagging, ExactTurn;
    RoundFacts(t, today);
    var rule, n := RuleOf(t), SlotOf(RuleOf(t), t.nextRun);
    if fuel > 0 && OpenSlot(rule, today) > n {
      var next := t.(nextRun := Advance(rule, t.nextRun));
      LagHead(id, t, next, expenses, lag);
      if lag > 0 {
        CatchUpExact(id, next, expenses, today, lag - 1, fuel - 1);
        SteppedPast(id, t, next, expenses, today, lag, fuel, CatchUp(id, next, expenses, today, false, fuel - 1));
      } else {
        var more := expenses + [ExpenseAt(id, rule, n)];
        CatchUpExact(id, next, more, today, 0, fuel - 1);
        PostedFirst(id, t, next, expenses, today, fuel, CatchUp(id, next, more, today, false, fuel - 1));
      }
    } else {
      NothingDue(id, t, expenses, today, lag, fuel);
    }
  }

  /** `next` is the template one due period further. */
  predicate OneOn(t: Template, next: Template)
    requires ReadRule(t.cadence, t.cadenceDay).Success?
  {
    && next.cadence == t.cadence && next.cadenceDay == t.cadenceDay && next.active == t.active
    && SlotOf(RuleOf(t), next.nextRun) == SlotOf(RuleOf(t), t.nextRun) + 1
  }

  lemma NothingDue(id: nat, t: Template, expenses: seq<Expense>, today: string, lag: nat, fuel: nat)
    requires ReadRule(t.cadence, t.cadenceDay).Success? && LagBounded(t, today, lag)
    requires t.nextRun == DueText(RuleOf(t), SlotOf(RuleOf(t), t.nextRun))
    requires fuel == 0 || OpenSlot(RuleOf(t), today) <= SlotOf(RuleOf(t), t.nextRun)
    ensures ExactTurn(id, t, expenses, today, lag, fuel, Turn(t.nextRun, t.active, expenses, [], false))
  {
    hide DueText, OpenSlot, SlotOf, KeyAt, ReadRule;
  }

  /** A turn that first steps past a posted period. */
  lemma SteppedPast(id: nat, t: Template, next: Template, expenses: seq<Expense>, today: string, lag: nat, fuel: nat,
                    rest: Turn)
    requires ReadRule(t.cadence, t.cadenceDay).Success? && OneOn(t, next) && lag > 0 && fuel > 0
    requires OpenSlot(RuleOf(t), today) > SlotOf(RuleOf(t), t.nextRun)
    requires ExactTurn(id, next, expenses, today, lag - 1, fuel - 1, rest)
    ensures var head := KeyAt(RuleOf(t), SlotOf(RuleOf(t), t.nextRun));
            ExactTurn(id, t, expenses, today, lag, fuel, rest.(already := [head] + rest.already))
  {
    hide DueText, OpenSlot, SlotOf, KeyAt, ReadRule, ExpensesFrom;
    var rule, n := RuleOf(t), SlotOf(RuleOf(t), t.nextRun);
    var m := Handled(next, today, fuel - 1);
    var stepped := if lag - 1 <= m then lag - 1 else m;
    assert KeysFrom(rule, n, stepped + 1) == [KeyAt(rule, n)] + KeysFrom(rule, n + 1, stepped);
  }

  /** A turn that posts its first period, nothing from there on being posted yet. */
  lemma PostedFirst(id: nat, t: Template, next: Template, expenses: seq<Expense>, today: string, fuel: nat, rest: Turn)
    requires ReadRule(t.cadence, t.cadenceDay).Success? && OneOn(t, next) && fuel > 0
    requires OpenSlot(RuleOf(t), today) > SlotOf(RuleOf(t), t.nextRun)
    requires ExactTurn(id, next, expenses + [ExpenseAt(id, RuleOf(t), SlotOf(RuleOf(t), t.nextRun))], today, 0,
             fuel - 1, rest)
    ensures ExactTurn(id, t, expenses, today, 0, fuel, rest)
  {
    hide DueText, OpenSlot, SlotOf, KeyAt, ReadRule, KeysFrom;
    var rule, n := RuleOf(t), SlotOf(RuleOf(t), t.nextRun);
    var row := ExpenseAt(id, rule, n);
    var m := Handled(next, today, fuel - 1);
    assert KeysFrom(rule, n + 1, 0) == KeysFrom(rule, n, 0) by { NoKeys(rule, n); NoKeys(rule, n + 1); }
    assert ExpensesFrom(id, rule, n, m + 1) == [row] + ExpensesFrom(id, rule, n + 1, m);
    assert expenses + [row] + ExpensesFrom(id, rule, n + 1, m) == expenses + ([row] + ExpensesFrom(id, rule, n + 1, m));
  }

  lemma NoKeys(rule: Rule, slot: int)
    ensures KeysFrom(rule, slot, 0) == []
  {
  }

  lemma LagHead(id: nat, t: Template, next: Template, expenses: seq<Expense>, lag: nat)
    requires ReadRule(t.cadence, t.cadenceDay).Success? && TemplateOk(t) && Lagging(id, t, expenses, lag)
    requires next.cadence == t.cadence && next.cadenceDay == t.cadenceDay
    requires SlotOf(RuleOf(t), next.nextRun) == SlotOf(RuleOf(t), t.nextRun) + 1
    ensures var row := ExpenseAt(id, RuleOf(t), SlotOf(RuleOf(t), t.nextRun));
            && (row in expenses <==> lag > 0)
            && (lag > 0 ==> Lagging(id, next, expenses, lag - 1))
            && (lag == 0 ==> Lagging(id, next, expenses + [row], 0))
  {
    hide SlotOf, InIso, KeyAt, DueText, ReadRule;
    if lag == 0 { LagStays(id, t, next, expenses); }
  }

  lemma LagStays(id: nat, t: Template, next: Template, expenses: seq<Expense>)
    requires ReadRule(t.cadence, t.cadenceDay).Success? && TemplateOk(t) && Lagging(id, t, expenses, 0)
    requires next.cadence == t.cadence && next.cadenceDay == t.cadenceDay
    requires SlotOf(RuleOf(t), next.nextRun) == SlotOf(RuleOf(t), t.nextRun) + 1
    ensures Lagging(id, next, expenses + [ExpenseAt(id, RuleOf(t), SlotOf(RuleOf(t), t.nextRun))], 0)
  {
    hide SlotOf, InIso, KeyAt, DueText, ReadRule;
    var rule, n := RuleOf(t), SlotOf(RuleOf(t), t.nextRun);
    forall slot | n + 1 <= slot && InIso(rule, slot)
      ensures ExpenseAt(id, rule, slot) !in expenses + [ExpenseAt(id, rule, n)]
    {
      if KeyAt(rule, slot) == KeyAt(rule, n) { KeyAtInjective(rule, slot, n); }
    }
  }

  /** `nextRun` after `runs` passes on one day. */
  function AfterRuns(id: nat, t: Template, expenses: seq<Expense>, today: string, runs: nat): Template
    requires ReadRule(t.cadence, t.cadenceDay).Success?
    decreases runs
  {
    if runs == 0 then t
    else
      var turn := CatchUp(id, t, expenses, today, false, BillRuns.MAX_CATCHUP_PER_RUN);
      AfterRuns(id, Settle(t, turn), turn.expenses, today, runs - 1)
  }

  /** A turn with no posting problem moves `nextRun` min(due, 24) slots on, whatever was posted before. */
  lemma {:induction false} CatchUpMoves(id: nat, t: Template, expenses: seq<Expense>, today: string, fuel: nat)
    requires ReadRule(t.cadence, t.cadenceDay).Success? && TemplateOk(t) && BillRuns.GoodDay(today)
    ensures var turn := CatchUp(id, t, expenses, today, false, fuel);
            && TemplateOk(Settle(t, turn)) && turn.active == t.active
            && SlotOf(RuleOf(t), turn.nextRun) == SlotOf(RuleOf(t), t.nextRun) + Handled(t, today, fuel)
    decreases fuel
  {
    hide BillRuns.GoodDay, Less, TemplateOk, DueText, OpenSlot, SlotOf, InIso, KeyAt, Advance, PeriodAt, ReadRule;
    RoundFacts(t, today);
    if fuel > 0 && !Less(today, t.nextRun) {
      var next := t.(nextRun := Advance(RuleOf(t), t.nextRun));
      var row := Expense(id, PeriodAt(t.cadence, t.nextRun));
      CatchUpMoves(id, next, if row in expenses then expenses else expenses + [row], today, fuel - 1);
    } else {
      assert Settle(t, CatchUp(id, t, expenses, today, false, fuel)) == t;
    }
  }

  /** One run with no posting problem moves `nextRun` over the periods due by the house's date, at most 24 of them. */
  lemma RunMovesAtMost24(id: nat, t: Template, expenses: seq<Expense>, now: int)
    requires TemplateOk(t) && ClockOk(now) && t.zone.Some? && ReadRule(t.cadence, t.cadenceDay).Success?
    ensures var rule, turn := RuleOf(t), TurnOf(id, t, expenses, now, false);
            var due := OpenSlot(rule, LocalDate(t.zone.value, now)) - SlotOf(rule, t.nextRun);
            SlotOf(rule, turn.nextRun) - SlotOf(rule, t.nextRun)
              == if due <= 0 then 0 else if due <= 24 then due else 24
  {
    hide BillRuns.GoodDay, LocalDate, CatchUp, OpenSlot, SlotOf, ReadRule, BillRuns.DueIso;
    assert BillRuns.GoodDay(LocalDate(t.zone.value, now));
    CatchUpMoves(id, t, expenses, LocalDate(t.zone.value, now), 24);
  }

  /** Repeated runs catch up: once 24 periods a run cover the backlog, `nextRun` lies after today. */
  lemma {:induction false} RunsCatchUp(id: nat, t: Template, expenses: seq<Expense>, today: string, runs: nat)
    requires ReadRule(t.cadence, t.cadenceDay).Success? && TemplateOk(t) && BillRuns.GoodDay(today)
    requires OpenSlot(RuleOf(t), today) - SlotOf(RuleOf(t), t.nextRun) <= 24 * runs
    ensures Less(today, AfterRuns(id, t, expenses, today, runs).nextRun)
    decreases runs
  {
    hide BillRuns.GoodDay, Less, TemplateOk, DueText, OpenSlot, SlotOf, InIso, KeyAt, PeriodAt, ReadRule, CatchUp;
    if runs == 0 {
      RoundFacts(t, today);
    } else {
      CatchUpMoves(id, t, expenses, today, BillRuns.MAX_CATCHUP_PER_RUN);
      var turn := CatchUp(id, t, expenses, today, false, BillRuns.MAX_CATCHUP_PER_RUN);
      RunsCatchUp(id, Settle(t, turn), turn.expenses, today, runs - 1);
    }
  }

  // ---------- the SQL pre-filter ----------

  /** A template the scan skips is not due in its own house, wherever that house is. */
  lemma SkippedNotDue(t: Template, now: int)
    requires ClockOk(now) && t.zone.Some? && -840 <= t.zone.value <= 840 && t.active && !Scanned(t, now)
    ensures Less(LocalDate(t.zone.value, now), t.nextRun)
  {
    hide BillRuns.DueIso, ToISO, CivilOf, ParseISO, Less, ReadRule;
    DatesInOrder(t.zone.value, MINUTES_PER_DAY, now);
    var here, latest := LocalDate(t.zone.value, now), LocalDate(MINUTES_PER_DAY, now);
    LessTotal(here, latest);
    if here != latest { LessTransitive(here, latest, t.nextRun); }
  }

  lemma DatesInOrder(a: int, b: int, now: int)
    requires ClockOk(now) && -MAX_OFFSET <= a <= b <= MAX_OFFSET + MINUTES_PER_DAY
    ensures !Less(LocalDate(b, now), LocalDate(a, now))
  {
    hide ToISO, CivilOf, ParseISO, Less, DayNumber, Real, MonthLength;
    var x, y := (now + a) / MINUTES_PER_DAY, (now + b) / MINUTES_PER_DAY;
    assert BillRuns.GoodDay(LocalDate(a, now)) && BillRuns.GoodDay(LocalDate(b, now));
    LocalDateStorable(a, now);
    LocalDateStorable(b, now);
    CivilOfDay(x);
    CivilOfDay(y);
    ISOOrder(CivilOf(y), CivilOf(x));
    DayNumberOrder(CivilOf(y), CivilOf(x));
  }

  lemma LocalDateStorable(offset: int, now: int)
    requires BillRuns.GoodDay(LocalDate(offset, now))
    ensures Storable(CivilOf((now + offset) / MINUTES_PER_DAY))
  {
    hide CivilOf, ParseISO, MonthLength, Dashed, PadStart, Decimal;
    var date := CivilOf((now + offset) / MINUTES_PER_DAY);
    var s := LocalDate(offset, now);
    ParseISOExact(s, ParseISO(s).value);
    CivilOfDay((now + offset) / MINUTES_PER_DAY);
    PrintedYear(date, ParseISO(s).value);
  }

  lemma {:induction false} PadLength(s: string, width: nat)
    ensures |PadStart(s, width, '0')| == if |s| >= width then |s| else width
  {
    if |s| < width { PadLength(s, width - 1); }
  }

  lemma {:induction false} DecimalLong(n: nat, k: nat)
    requires n >= Pow10(k)
    ensures |Decimal(n)| >= k + 1
  {
    if k > 0 { DecimalLong(n / 10, k - 1); }
  }

  /** Two real dates that print alike, one of them storable, are both storable. */
  lemma PrintedYear(a: Date, b: Date)
    requires Real(a) && Storable(b) && ToISO(a) == ToISO(b)
    ensures Storable(a)
  {
    hide Dashed, Decimal, PadStart, MonthLength, Digits;
    var ya, yb := PadStart(Signed(a.y), 4, '0'), Digits(b.y, 4);
    RealRange(a);
    ToISOParts(b);
    Powers();
    PaddedDecimal(a.m, 2);
    PaddedDecimal(a.d, 2);
    DashedParts(ya, Digits(a.m, 2), Digits(a.d, 2));
    DashedParts(yb, Digits(b.m, 2), Digits(b.d, 2));
    PadLength(Signed(a.y), 4);
    YearDigits(a.y, b.y);
  }

  lemma RealRange(a: Date)
    requires Real(a)
    ensures 1 <= a.m <= 12 && 1 <= a.d <= 31
  {
  }

  lemma YearDigits(y: int, z: int)
    requires 100 <= z <= 9999
    ensures PadStart(Signed(y), 4, '0') == Digits(z, 4) ==> y == z
  {
    hide PadStart;
    Powers();
    PadLength(Signed(y), 4);
    if 0 <= y <= 9999 {
      PaddedDecimal(y, 4);
      DigitsOrder(y, z, 4);
    } else if y > 9999 {
      DecimalLong(y, 4);
    } else {
      PadFront("-" + Decimal(-y), 4);
    }
  }

  /** A padded negative number keeps its sign, so it is not all digits. */
  lemma {:induction false} PadFront(s: string, width: nat)
    requires '-' in s
    ensures '-' in PadStart(s, width, '0')
  {
    if |s| < width { PadFront(s, width - 1); }
  }

  /**
   Two outcomes of a pass over `ids`, of which the first never visited what the scan skips: they
   differ in the skipped templates whose house has a broken zone, which the other one paused.
   */
  ghost predicate SameButPaused(ids: seq<nat>, was: map<nat, Template>, kept: map<nat, Template>,
                                all: map<nat, Template>,
                                now: int) {
    && kept.Keys == was.Keys == all.Keys
    && (forall id :: id in was && (id !in ids || !Scanned(was[id], now)) ==> kept[id] == was[id])
    && forall id :: id in was ==>
         all[id] == (if id in ids && was[id].zone.None? && !Scanned(was[id], now)
                     then was[id].(active := false) else kept[id])
  }

  /**
   Skipping what the pre-filter skips posts the same expenses as visiting every active template,
   and leaves the same templates, except that one whose house has a broken zone is only paused
   once its date comes into the scan.
   */
  lemma {:induction false} PreFilterLosesNothing(ids: seq<nat>, db: Tables, now: int, refusing: set<nat>)
    requires TemplatesOk(db.templates) && ClockOk(now)
    requires forall id :: id in ids ==> id in db.templates && db.templates[id].active
    requires Distinct(ids)
    ensures var kept, all := Pass(Filter(ids, db.templates, now), db, now, refusing), Pass(ids, db, now, refusing);
            && kept.expenses == all.expenses
            && SameButPaused(ids, db.templates, kept.templates, all.templates, now)
  {
    hide TurnOf, TemplateOk, Scanned, Pass, ClockOk, SameButPaused;
    PassStart(db, now, refusing);
    if ids == [] {
      NothingVisited(db.templates, now);
    } else {
      var front, last := ids[..|ids| - 1], ids[|ids| - 1];
      assert ids == front + [last];
      PreFilterLosesNothing(front, db, now, refusing);
      PassStep(ids, db, now, refusing);
      var kept := Filter(front, db.templates, now);
      var some, every := Pass(kept, db, now, refusing), Pass(front, db, now, refusing);
      var t := db.templates[last];
      OkReads(t);
      var settled := Settle(t, TurnOf(last, t, every.expenses, now, last in refusing));
      if Scanned(t, now) {
        PassStep(kept + [last], db, now, refusing);
        assert (kept + [last])[..|kept|] == kept;
        Visited(front, last, db.templates, some.templates, every.templates, now, settled);
      } else {
        SkippedTurn(last, t, every.expenses, now, last in refusing);
        Skipped(front, last, db.templates, some.templates, every.templates, now);
      }
    }
  }

  lemma OkReads(t: Template)
    requires TemplateOk(t)
    ensures ReadRule(t.cadence, t.cadenceDay).Success?
  {
  }

  lemma NothingVisited(was: map<nat, Template>, now: int)
    ensures SameButPaused([], was, was, was, now)
  {
  }

  lemma Visited(front: seq<nat>, last: nat, was: map<nat, Template>, kept: map<nat, Template>, all: map<nat, Template>,
                now: int, settled: Template)
    requires SameButPaused(front, was, kept, all, now) && last in was && last !in front && Scanned(was[last], now)
    ensures SameButPaused(front + [last], was, kept[last := settled], all[last := settled], now)
  {
    hide Scanned;
  }

  lemma Skipped(front: seq<nat>, last: nat, was: map<nat, Template>, kept: map<nat, Template>, all: map<nat, Template>,
                now: int)
    requires SameButPaused(front, was, kept, all, now) && last in was && last !in front && !Scanned(was[last], now)
    ensures var left := if was[last].zone.None? then was[last].(active := false) else was[last];
            SameButPaused(front + [last], was, kept, all[last := left], now)
  {
    hide Scanned;
  }

  /** Visiting a template the scan skips posts nothing; it only pauses one whose house has a broken zone. */
  lemma SkippedTurn(id: nat, t: Template, expenses: seq<Expense>, now: int, refuses: bool)
    requires TemplateOk(t) && ClockOk(now) && t.active && !Scanned(t, now)
    ensures var turn := TurnOf(id, t, expenses, now, refuses);
            && turn.expenses == expenses
            && Settle(t, turn) == if t.zone.None? then t.(active := false) else t
  {
    hide TemplateOk, Scanned, ClockOk, CatchUp;
    if t.zone.Some? { IdleTurn(id, t, expenses, now, refuses); }
  }

  lemma IdleTurn(id: nat, t: Template, expenses: seq<Expense>, now: int, refuses: bool)
    requires TemplateOk(t) && ClockOk(now) && t.zone.Some? && t.active && !Scanned(t, now)
    ensures var turn := TurnOf(id, t, expenses, now, refuses);
            Settle(t, turn) == t && turn.expenses == expenses
  {
    hide Scanned, ClockOk, LocalDate, Less, ReadRule, BillRuns.DueIso;
    SkippedNotDue(t, now);
  }

  // ---------- paused templates ----------

  /** A turn appends rows of its own template and keeps all others. */
  ghost predicate OnlyOwn(id: nat, before: seq<Expense>, after: seq<Expense>) {
    forall row: Expense :: row.templateId != id ==> (row in after <==> row in before)
  }

  lemma {:induction false} TurnPostsOwn(id: nat, t: Template, expenses: seq<Expense>, today: string, refuses: bool,
                                        fuel: nat)
    requires ReadRule(t.cadence, t.cadenceDay).Success?
    ensures OnlyOwn(id, expenses, CatchUp(id, t, expenses, today, refuses, fuel).expenses)
    decreases fuel
  {
    hide Less, Advance, PeriodAt, ReadRule;
    if fuel > 0 && !Less(today, t.nextRun) && !refuses {
      var row := Expense(id, PeriodAt(t.cadence, t.nextRun));
      var next := t.(nextRun := Advance(RuleOf(t), t.nextRun));
      TurnPostsOwn(id, next, if row in expenses then expenses else expenses + [row], today, refuses, fuel - 1);
    }
  }

  /**
   A turn pauses its template exactly when the zone of its house is broken, or the template is due
   in its house and its posting meets a problem; it then posts nothing and leaves the date.
   */
  lemma PausedExactly(id: nat, t: Template, expenses: seq<Expense>, now: int, refuses: bool)
    requires ReadRule(t.cadence, t.cadenceDay).Success? && t.active
    ensures var turn := TurnOf(id, t, expenses, now, refuses);
            && (!turn.active <==> t.zone.None? || (refuses && !Less(LocalDate(t.zone.value, now), t.nextRun)))
            && (!turn.active ==> turn.expenses == expenses && turn.nextRun == t.nextRun)
  {
    hide CatchUp, LocalDate, Less, ReadRule;
    if t.zone.Some? {
      CatchUpRefuses(id, t, expenses, LocalDate(t.zone.value, now), refuses, BillRuns.MAX_CATCHUP_PER_RUN);
    }
  }

  /** A pass, at whatever time, leaves a paused template and its postings as they are: it does not hot-loop. */
  lemma {:induction false} PausedIsLeftAlone(ids: seq<nat>, db: Tables, now: int, refusing: set<nat>, id: nat)
    requires TemplatesOk(db.templates) && id in db.templates && !db.templates[id].active
    requires forall x :: x in ids ==> x in db.templates && Scanned(db.templates[x], now)
    ensures var after := Pass(ids, db, now, refusing);
            && id in after.templates && after.templates[id] == db.templates[id]
            && forall p :: Expense(id, p) in after.expenses <==> Expense(id, p) in db.expenses
  {
    hide TurnOf, TemplateOk, Pass, LocalDate, Less;
    PassStart(db, now, refusing);
    if ids != [] {
      var front, last := ids[..|ids| - 1], ids[|ids| - 1];
      assert ids == front + [last];
      PausedIsLeftAlone(front, db, now, refusing, id);
      PassStep(ids, db, now, refusing);
      OkReads(db.templates[last]);
      TurnOfPostsOwn(last, db.templates[last], Pass(front, db, now, refusing).expenses, now, last in refusing);
    }
  }

  lemma TurnOfPostsOwn(id: nat, t: Template, expenses: seq<Expense>, now: int, refuses: bool)
    requires ReadRule(t.cadence, t.cadenceDay).Success?
    ensures OnlyOwn(id, expenses, TurnOf(id, t, expenses, now, refuses).expenses)
  {
    hide CatchUp, LocalDate, OnlyOwn;
    if t.zone.Some? {
      TurnPostsOwn(id, t, expenses, LocalDate(t.zone.value, now), refuses, BillRuns.MAX_CATCHUP_PER_RUN);
    } else {
      Unchanged(id, expenses);
    }
  }

  lemma Unchanged(id: nat, expenses: seq<Expense>)
    ensures OnlyOwn(id, expenses, expenses)
  {
  }

  // ---------- the pass as a run of the machine ----------

  /** The machine state and the tables describe the same template. */
  ghost predicate Same(s: BillRuns.State, id: nat, t: Template, expenses: seq<Expense>)
    requires ReadRule(t.cadence, t.cadenceDay).Success?
  {
    s.rule == RuleOf(t) && s.nextRun == t.nextRun && s.active == t.active
    && forall p :: BillRuns.Posted(s, p) <==> Expense(id, p) in expenses
  }

  ghost predicate InFlight(s: BillRuns.State, w: nat, t: Template, today: string, fuel: nat) {
    w in s.runs && fuel <= BillRuns.MAX_CATCHUP_PER_RUN
    && s.runs[w] == BillRuns.Run(today, t.nextRun, BillRuns.MAX_CATCHUP_PER_RUN - fuel, BillRuns.AtTop)
  }

  /**
   The catch-up loop is a trace of the machine: it reaches, by enabled events of run `w` alone,
   a state that describes the template exactly as the turn leaves it.
   */
  lemma {:induction false} TurnIsTrace(s: BillRuns.State, w: nat, id: nat, t: Template, expenses: seq<Expense>,
                                       today: string, refuses: bool, fuel: nat)
    requires ReadRule(t.cadence, t.cadenceDay).Success?
    requires Same(s, id, t, expenses) && InFlight(s, w, t, today, fuel)
    ensures var turn := CatchUp(id, t, expenses, today, refuses, fuel);
            exists es :: BillRuns.Trace(s, es) && w !in BillRuns.After(s, es).runs
                         && Same(BillRuns.After(s, es), id, Settle(t, turn), turn.expenses)
    decreases fuel
  {
    hide Less, Advance, SlotOf, BillRuns.Posted, BillRuns.PeriodOf, ReadRule, AnchorFrom, PeriodAt, BillRuns.GoodDay,
         BillRuns.Trace, BillRuns.After;
    if fuel == 0 || Less(today, t.nextRun) {
      SameRows(s, BillRuns.Step(s, BillRuns.Finish(w)), id, t, t, expenses);
      OneEvent(s, BillRuns.Finish(w), id, t, expenses);
    } else if refuses {
      SameRows(s, BillRuns.Step(s, BillRuns.Problem(w)), id, t, t.(active := false), expenses);
      OneEvent(s, BillRuns.Problem(w), id, t.(active := false), expenses);
    } else {
      var next := t.(nextRun := Advance(RuleOf(t), t.nextRun));
      SamePeriod(s, id, t, expenses);
      if Expense(id, PeriodAt(t.cadence, t.nextRun)) in expenses {
        var s1 := BillRuns.Step(s, BillRuns.Clash(w));
        var s2 := BillRuns.Step(s1, BillRuns.Heal(w));
        SameRows(s, s2, id, t, next, expenses);
        TurnIsTrace(s2, w, id, next, expenses, today, refuses, fuel - 1);
        var es :| BillRuns.Trace(s2, es) && w !in BillRuns.After(s2, es).runs
                  && Same(BillRuns.After(s2, es), id,
                     Settle(next, CatchUp(id, next, expenses, today, refuses, fuel - 1)),
                          CatchUp(id, next, expenses, today, refuses, fuel - 1).expenses);
        BillRuns.Cons(s1, BillRuns.Heal(w), es);
        BillRuns.Cons(s, BillRuns.Clash(w), [BillRuns.Heal(w)] + es);
      } else {
        var s1 := BillRuns.Step(s, BillRuns.Post(w));
        var more := expenses + [Expense(id, PeriodAt(t.cadence, t.nextRun))];
        MoreRows(s, s1, id, t, next, expenses);
        TurnIsTrace(s1, w, id, next, more, today, refuses, fuel - 1);
        var es :| BillRuns.Trace(s1, es) && w !in BillRuns.After(s1, es).runs
                  && Same(BillRuns.After(s1, es), id, Settle(next, CatchUp(id, next, more, today, refuses, fuel - 1)),
                          CatchUp(id, next, more, today, refuses, fuel - 1).expenses);
        BillRuns.Cons(s, BillRuns.Post(w), es);
      }
    }
  }

  /**
   A turn from its scan on: where the template is active and its house's date is one the clock has
   reached, scanning it and going round the loop is a trace that ends as the turn does.
   */
  lemma ScannedTurnIsTrace(s: BillRuns.State, w: nat, id: nat, t: Template, expenses: seq<Expense>, now: int,
                           refuses: bool)
    requires TemplateOk(t) && ClockOk(now) && t.zone.Some? && t.active
    requires ReadRule(t.cadence, t.cadenceDay).Success? && Same(s, id, t, expenses)
    requires w !in s.runs && !Less(s.today, LocalDate(t.zone.value, now))
    ensures var turn := TurnOf(id, t, expenses, now, refuses);
            exists es :: BillRuns.Trace(s, es) && w !in BillRuns.After(s, es).runs
                         && Same(BillRuns.After(s, es), id, Settle(t, turn), turn.expenses)
  {
    hide Less, LocalDate, ReadRule, BillRuns.DueIso, CatchUp, BillRuns.GoodDay, BillRuns.Posted, BillRuns.Trace,
         BillRuns.After;
    var today := LocalDate(t.zone.value, now);
    assert BillRuns.GoodDay(today);
    var scan := BillRuns.Scan(w, today);
    SameRows(s, BillRuns.Step(s, scan), id, t, t, expenses);
    TurnIsTrace(BillRuns.Step(s, scan), w, id, t, expenses, today, refuses, 24);
    var turn := CatchUp(id, t, expenses, today, refuses, 24);
    var es :| BillRuns.Trace(BillRuns.Step(s, scan), es) && w !in BillRuns.After(BillRuns.Step(s, scan), es).runs
              && Same(BillRuns.After(BillRuns.Step(s, scan), es), id, Settle(t, turn), turn.expenses);
    BillRuns.Cons(s, scan, es);
  }

  lemma OneEvent(s: BillRuns.State, e: BillRuns.Event, id: nat, t: Template, expenses: seq<Expense>)
    requires ReadRule(t.cadence, t.cadenceDay).Success? && BillRuns.Enabled(s, e)
    requires BillRuns.Step(s, e).rows == s.rows && Same(BillRuns.Step(s, e), id, t, expenses)
    ensures BillRuns.Trace(s, [e] + []) && BillRuns.After(s, [e] + []) == BillRuns.Step(s, e)
  {
    hide BillRuns.Enabled, BillRuns.Step, Same, ReadRule;
    BillRuns.NoEvents(BillRuns.Step(s, e));
    BillRuns.Cons(s, e, []);
  }

  lemma SamePeriod(s: BillRuns.State, id: nat, t: Template, expenses: seq<Expense>)
    requires ReadRule(t.cadence, t.cadenceDay).Success? && Same(s, id, t, expenses)
    ensures BillRuns.PeriodOf(s, t.nextRun) == PeriodAt(t.cadence, t.nextRun)
  {
    hide BillRuns.Posted, PeriodKey;
    assert CadenceOf(s.rule) == t.cadence;
  }

  lemma SameRows(s: BillRuns.State, s2: BillRuns.State, id: nat, t: Template, next: Template, expenses: seq<Expense>)
    requires ReadRule(t.cadence, t.cadenceDay).Success? && Same(s, id, t, expenses)
    requires s2.rows == s.rows && s2.rule == s.rule && s2.active == next.active && s2.nextRun == next.nextRun
    requires next.cadence == t.cadence && next.cadenceDay == t.cadenceDay
    ensures Same(s2, id, next, expenses)
  {
    hide ReadRule;
    assert forall p :: BillRuns.Posted(s2, p) <==> BillRuns.Posted(s, p);
  }

  lemma MoreRows(s: BillRuns.State, s1: BillRuns.State, id: nat, t: Template, next: Template, expenses: seq<Expense>)
    requires ReadRule(t.cadence, t.cadenceDay).Success? && Same(s, id, t, expenses)
    requires |s1.rows| == |s.rows| + 1 && s1.rows[..|s.rows|] == s.rows
             && s1.rows[|s.rows|].period == PeriodAt(t.cadence, t.nextRun)
    requires s1.rule == s.rule && s1.active == s.active && s1.nextRun == next.nextRun
             && next == t.(nextRun := next.nextRun)
    ensures Same(s1, id, next, expenses + [Expense(id, PeriodAt(t.cadence, t.nextRun))])
  {
    hide ReadRule, PeriodAt;
    var p0 := PeriodAt(t.cadence, t.nextRun);
    forall p
      ensures BillRuns.Posted(s1, p) <==> p == p0 || BillRuns.Posted(s, p)
    {
      if BillRuns.Posted(s, p) {
        var i :| 0 <= i < |s.rows| && s.rows[i].period == p;
        assert s1.rows[i] == s1.rows[..|s.rows|][i];
      }
      if BillRuns.Posted(s1, p) && p != p0 {
        var i :| 0 <= i < |s1.rows| && s1.rows[i].period == p;
        assert s1.rows[i] == s1.rows[..|s.rows|][i];
      }
    }
  }
}
