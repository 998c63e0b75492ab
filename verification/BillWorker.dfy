/**
 The worker's pass over all due templates (postDueBills in
 apps/worker/src/bills/post-due-bills.ts), run alone on the tables: the SQL pre-filter, the
 per-house date, the bounded catch-up loop, the unique-key heal and the pause.
 */
module BillWorker {
  import opened Text
  import opened Calendar
  import opened Schedule
  import opened Sums
  import BillPosting
  import BillRuns
  import Posting
  import Splits

  const MINUTES_PER_DAY := 1440

  /** East of every house: UTC+14. */
  const MAX_OFFSET := 14 * 60

  /** A bill template joined with its house's zone: an offset in minutes, or a broken zone name. */
  datatype Template = Template(cadence: Cadence, cadenceDay: string, nextRun: string, active: bool, zone: Option<int>)

  /** The columns of a posted expense that the unique index covers. */
  datatype Expense = Expense(templateId: nat, period: string)

  function RuleOf(t: Template): Rule
    requires ReadRule(t.cadence, t.cadenceDay).Success?
  {
    ReadRule(t.cadence, t.cadenceDay).value
  }

  /** The wall-clock date `offset` minutes east of UTC at minute `now`. */
  function LocalDate(offset: int, now: int): string {
    ToISO(CivilOf((now + offset) / MINUTES_PER_DAY))
  }

  /** Days are counted from the first of 1970: the day numbered `n` has minutes 1440n to 1440n + 1439. */
  predicate OnDay(date: Date, minute: int) {
    Real(date) && DayNumber(date) * 1440 <= minute < (DayNumber(date) + 1) * 1440
  }

  /** The house's date is the real date whose day holds the instant there. */
  lemma LocalDateHolds(offset: int, now: int)
    ensures exists date :: OnDay(date, now + offset) && LocalDate(offset, now) == ToISO(date)
  {
    hide ToISO, CivilOf, Real, DayNumber;
    var date := CivilOf((now + offset) / 1440);
    CivilOfDay((now + offset) / 1440);
    assert OnDay(date, now + offset) && LocalDate(offset, now) == ToISO(date);
  }

  /** Every house-local date at `now` lies in the years the schedule code can handle. */
  ghost predicate ClockOk(now: int) {
    forall offset {:trigger LocalDate(offset, now)} :: -MAX_OFFSET <= offset <= MAX_OFFSET + MINUTES_PER_DAY ==>
        BillRuns.GoodDay(LocalDate(offset, now))
  }

  predicate TemplateOk(t: Template) {
    ReadRule(t.cadence, t.cadenceDay).Success? && BillRuns.DueIso(RuleOf(t), t.nextRun)
    && (t.zone.Some? ==> -MAX_OFFSET <= t.zone.value <= MAX_OFFSET)
  }

  predicate TemplatesOk(templates: map<nat, Template>) {
    forall id :: id in templates ==> TemplateOk(templates[id])
  }

  /** What one template's turn leaves behind. */
  datatype Turn = Turn(nextRun: string, active: bool, expenses: seq<Expense>, already: seq<string>, refused: bool)

  function PeriodAt(cadence: Cadence, iso: string): string {
    PeriodKey(cadence, iso).GetOr("")
  }

  /**
   The catch-up loop of one template: stop when not yet due, pause on a posting problem, step
   past a period already posted, else post it.
   */
  function CatchUp(id: nat, t: Template, expenses: seq<Expense>, today: string, refuses: bool, fuel: nat): Turn
    requires ReadRule(t.cadence, t.cadenceDay).Success?
    decreases fuel
  {
    if fuel == 0 || Less(today, t.nextRun) then Turn(t.nextRun, t.active, expenses, [], false)
    else if refuses then Turn(t.nextRun, false, expenses, [], true)
    else
      var row := Expense(id, PeriodAt(t.cadence, t.nextRun));
      var next := t.(nextRun := Advance(RuleOf(t), t.nextRun));
      if row in expenses then
        var rest := CatchUp(id, next, expenses, today, refuses, fuel - 1);
        rest.(already := [row.period] + rest.already)
      else CatchUp(id, next, expenses + [row], today, refuses, fuel - 1)
  }

  /** What the catch-up loop refuses: a due date that has come, when its posting meets a problem. */
  lemma {:induction false} CatchUpRefuses(id: nat, t: Template, expenses: seq<Expense>, today: string, refuses: bool,
                                          fuel: nat)
    requires ReadRule(t.cadence, t.cadenceDay).Success?
    ensures var turn := CatchUp(id, t, expenses, today, refuses, fuel);
            && (turn.refused <==> refuses && fuel > 0 && !Less(today, t.nextRun))
            && turn.active == (t.active && !turn.refused)
            && (turn.refused ==> turn.expenses == expenses && turn.nextRun == t.nextRun)
    decreases fuel
  {
    hide Less, Advance, PeriodAt, ReadRule;
    if fuel > 0 && !Less(today, t.nextRun) && !refuses {
      var row := Expense(id, PeriodAt(t.cadence, t.nextRun));
      var next := t.(nextRun := Advance(RuleOf(t), t.nextRun));
      CatchUpRefuses(id, next, if row in expenses then expenses else expenses + [row], today, refuses, fuel - 1);
    }
  }

  /** A turn that continues one which already stepped past `already`. */
  function Resumed(already: seq<string>, rest: Turn): Turn {
    rest.(already := already + rest.already)
  }

  /** One round of the loop, with what the earlier rounds left in `already`. */
  lemma CatchUpStep(id: nat, t: Template, expenses: seq<Expense>, today: string, refuses: bool, fuel: nat,
                    already: seq<string>)
    requires ReadRule(t.cadence, t.cadenceDay).Success?
    ensures var turn := CatchUp(id, t, expenses, today, refuses, fuel);
            var row := Expense(id, PeriodAt(t.cadence, t.nextRun));
            var next := t.(nextRun := Advance(RuleOf(t), t.nextRun));
            if fuel == 0 || Less(today, t.nextRun)
              then Resumed(already, turn) == Turn(t.nextRun, t.active, expenses, already, false)
            else if refuses then Resumed(already, turn) == Turn(t.nextRun, false, expenses, already, true)
            else if row in expenses then
              Resumed(already, turn)
                == Resumed(already + [row.period], CatchUp(id, next, expenses, today, refuses, fuel - 1))
            else
              Resumed(already, turn) == Resumed(already, CatchUp(id, next, expenses + [row], today, refuses, fuel - 1))
  {
    hide Less, Advance, PeriodAt, ReadRule;
    assert already + [] == already;
    var left := if fuel > 0 then fuel - 1 else 0;
    var rest := CatchUp(id, t.(nextRun := Advance(RuleOf(t), t.nextRun)), expenses, today, refuses, left);
    var p := PeriodAt(t.cadence, t.nextRun);
    assert already + ([p] + rest.already) == already + [p] + rest.already;
  }

  /** One template's turn, including the pause of a template whose house has a broken zone. */
  function TurnOf(id: nat, t: Template, expenses: seq<Expense>, now: int, refuses: bool): Turn
    requires ReadRule(t.cadence, t.cadenceDay).Success?
  {
    if t.zone.None? then Turn(t.nextRun, false, expenses, [], true)
    else CatchUp(id, t, expenses, LocalDate(t.zone.value, now), refuses, BillRuns.MAX_CATCHUP_PER_RUN)
  }

  function Settle(t: Template, turn: Turn): Template {
    t.(nextRun := turn.nextRun, active := turn.active)
  }

  datatype Tables = Tables(templates: map<nat, Template>, expenses: seq<Expense>)

  /** The turns of the scanned templates, in scan order. */
  function Pass(ids: seq<nat>, db: Tables, now: int, refusing: set<nat>): Tables
    requires TemplatesOk(db.templates) && forall id :: id in ids ==> id in db.templates
  {
    if ids == [] then db
    else
      var last := |ids| - 1;
      var before := Pass(ids[..last], db, now, refusing);
      // the row as the scan read it; nothing else writes it during the pass
      var t := db.templates[ids[last]];
      var turn := TurnOf(ids[last], t, before.expenses, now, ids[last] in refusing);
      Tables(before.templates[ids[last] := Settle(t, turn)], turn.expenses)
  }

  /** Each period with the template it is of. */
  function Under(id: nat, periods: seq<string>): (r: seq<(nat, string)>)
    ensures |r| == |periods| && forall i :: 0 <= i < |r| ==> r[i] == (id, periods[i])
  {
    seq(|periods|, i requires 0 <= i < |periods| => (id, periods[i]))
  }

  /** The periods the turns step past because they are posted already, in scan order. */
  function Already(ids: seq<nat>, db: Tables, now: int, refusing: set<nat>): seq<(nat, string)>
    requires TemplatesOk(db.templates) && forall id :: id in ids ==> id in db.templates
  {
    if ids == [] then []
    else
      var front, last := ids[..|ids| - 1], ids[|ids| - 1];
      var turn := TurnOf(last, db.templates[last], Pass(front, db, now, refusing).expenses, now, last in refusing);
      Already(front, db, now, refusing) + Under(last, turn.already)
  }

  lemma AlreadyStep(ids: seq<nat>, db: Tables, now: int, refusing: set<nat>)
    requires TemplatesOk(db.templates) && (forall id :: id in ids ==> id in db.templates) && ids != []
    ensures var front, last := ids[..|ids| - 1], ids[|ids| - 1];
            var expenses := Pass(front, db, now, refusing).expenses;
            var turn := TurnOf(last, db.templates[last], expenses, now, last in refusing);
            Already(ids, db, now, refusing) == Already(front, db, now, refusing) + Under(last, turn.already)
  {
    hide TurnOf, Pass, Under;
  }

  lemma NoneAlready(db: Tables, now: int, refusing: set<nat>)
    requires TemplatesOk(db.templates)
    ensures Already([], db, now, refusing) == []
  {
    hide TemplateOk;
  }

  /** The WHERE clause of the due scan: active, and `next_run` at most the UTC date plus one day. */
  predicate Scanned(t: Template, now: int) {
    t.active && !Less(LocalDate(MINUTES_PER_DAY, now), t.nextRun)
  }

  /** The scan takes the active templates not due later than the day after the UTC date. */
  lemma ScannedTilTomorrow(t: Template, now: int, date: Date)
    requires OnDay(date, now)
    ensures Scanned(t, now) <==> t.active && !Less(ToISO(Tomorrow(date)), t.nextRun)
  {
    hide ToISO, CivilOf, DayNumber, Less;
    DaysAreCounted(date);
    TomorrowIsReal(date);
    CivilOfDay((now + 1440) / 1440);
    DayNumberOrder(CivilOf((now + 1440) / 1440), Tomorrow(date));
  }

  lemma TomorrowIsReal(date: Date)
    requires Real(date)
    ensures Real(Tomorrow(date))
  {
    hide Leap;
  }

  function Filter(ids: seq<nat>, templates: map<nat, Template>, now: int): (r: seq<nat>)
    requires forall id :: id in ids ==> id in templates
    ensures forall id :: id in r <==> id in ids && Scanned(templates[id], now)
  {
    if ids == [] then []
    else
      var front := Filter(ids[..|ids| - 1], templates, now);
      var last := ids[|ids| - 1];
      assert ids == ids[..|ids| - 1] + [last];
      if Scanned(templates[last], now) then front + [last] else front
  }

  lemma {:induction false} FilterDistinct(ids: seq<nat>, templates: map<nat, Template>, now: int)
    requires (forall id :: id in ids ==> id in templates) && Distinct(ids)
    ensures Distinct(Filter(ids, templates, now))
  {
    hide Scanned;
    if ids != [] {
      var front, last := ids[..|ids| - 1], ids[|ids| - 1];
      assert ids == front + [last];
      FilterDistinct(front, templates, now);
    }
  }

  /** The list names exactly those of the templates that are inactive. */
  ghost predicate Names(paused: seq<nat>, ids: seq<nat>, templates: map<nat, Template>) {
    forall id :: id in paused <==> id in ids && id in templates && !templates[id].active
  }

  lemma NoneNamed(templates: map<nat, Template>)
    ensures Names([], [], templates)
  {
  }

  lemma NamesStep(paused: seq<nat>, ids: seq<nat>, k: nat, before: map<nat, Template>, after: map<nat, Template>,
                  refused: bool)
    requires k < |ids| && Distinct(ids) && Names(paused, ids[..k], before) && ids[k] in before
    requires ids[k] in after && after == before[ids[k] := after[ids[k]]] && (refused <==> !after[ids[k]].active)
    ensures Names(if refused then paused + [ids[k]] else paused, ids[..k + 1], after)
  {
    var id := ids[k];
    assert ids[..k + 1] == ids[..k] + [id];
    assert id !in ids[..k];
  }

  lemma ScannedActive(t: Template, now: int)
    requires Scanned(t, now)
    ensures t.active
  {
  }

  datatype PostResult = Posted | Duplicate | Refused

  /** What a posting reads in its transaction: the active members and rooms of the house, and the bill's charge. */
  datatype Charge = Charge(
    members: seq<Posting.ActiveMember>, rooms: map<Posting.RoomId, int>,
    owner: Splits.UserId, amountCents: int, mode: Splits.SplitMode)

  predicate Housed(c: Charge) {
    Posting.WellHoused(c.members, c.rooms)
  }

  function Request(c: Charge): Posting.ResolveInput {
    BillPosting.PostingOf(c.members, c.owner, c.amountCents, c.mode)
  }

  /** The posting meets a problem. */
  ghost predicate Refuses(c: Charge) {
    !Posting.Accepted(c.members, c.rooms, Request(c))
  }

  ghost function SharesOf(c: Charge): map<Splits.UserId, int>
    requires !Refuses(c)
  {
    Splits.SplitOf(Posting.SplitRequest(c.members, c.rooms, Request(c)))
  }

  /** The templates whose posting meets a problem. */
  ghost function Refusing(charges: map<nat, Charge>): set<nat> {
    set id | id in charges && Refuses(charges[id])
  }

  class BillStore {
    var templates: map<nat, Template>
    var expenses: seq<Expense>

    constructor ()
      ensures templates == map[] && expenses == []
    {
      templates, expenses := map[], [];
    }

    /** postOne: one transaction that commits the expense and the new `next_run`, or nothing. */
    method PostOne(id: nat, due: string, advanced: string, charge: Charge)
        returns (r: PostResult, splits: map<Splits.UserId, int>)
      requires id in templates && Housed(charge)
      modifies this
      ensures var row := Expense(id, PeriodAt(old(templates[id]).cadence, due));
              && (r == Refused <==> Refuses(charge))
              && (r == Duplicate <==> !Refuses(charge) && row in old(expenses))
              && (r == Posted ==> splits == SharesOf(charge))
              && (r == Posted ==> BillPosting.Charges(charge.members, charge.rooms, charge.owner, charge.amountCents,
                                                      charge.mode, splits))
              && (BillPosting.Chargeable(charge.rooms, charge.amountCents) ==>
                    (r == Refused <==> !BillPosting.Payable(charge.members, charge.rooms, charge.owner, charge.mode)))
              && (r == Posted ==> expenses == old(expenses) + [row]
                                  && templates == old(templates)[id := old(templates[id]).(nextRun := advanced)])
              && (r != Posted ==> expenses == old(expenses) && templates == old(templates))
    {
      hide Posting.Accepted, Splits.SplitOf, PeriodAt, BillPosting.Charges, BillPosting.Payable, BillPosting.Chargeable;
      var shares := BillPosting.PostingShares(charge.members, charge.rooms, charge.owner, charge.amountCents,
                                              charge.mode);
      if shares.Failure? { return Refused, map[]; }
      var row := Expense(id, PeriodAt(templates[id].cadence, due));
      if row in expenses { return Duplicate, map[]; }
      expenses := expenses + [row];
      templates := templates[id := templates[id].(nextRun := advanced)];
      return Posted, shares.value;
    }

    /** The guarded UPDATE that deactivates a template that cannot post. */
    method Pause(id: nat)
      requires id in templates
      modifies this`templates
      ensures templates == old(templates)[id := old(templates[id]).(active := false)]
    {
      templates := templates[id := templates[id].(active := false)];
    }

    /** The compare-and-set heal of a `next_run` that lags behind the posted periods. */
    method HealNextRun(id: nat, due: string, advanced: string)
      requires id in templates
      modifies this`templates
      ensures templates == if old(templates[id]).nextRun == due
                           then old(templates)[id := old(templates[id]).(nextRun := advanced)] else old(templates)
    {
      if templates[id].nextRun == due {
        templates := templates[id := templates[id].(nextRun := advanced)];
      }
    }

    /** One round of the catch-up loop: advance, post, and on a refusal pause or on a duplicate heal. */
    method TryPeriod(id: nat, nextRun: string, ghost today: string, charge: Charge)
        returns (r: PostResult, advanced: string)
      requires Housed(charge) && id in templates && TemplateOk(templates[id]) && BillRuns.GoodDay(today)
      requires nextRun == templates[id].nextRun && !Less(today, nextRun)
      modifies this
      ensures var t := old(templates[id]);
              var row := Expense(id, PeriodAt(t.cadence, nextRun));
              && advanced == Advance(RuleOf(t), nextRun) && TemplateOk(t.(nextRun := advanced))
              && r == (if Refuses(charge) then Refused else if row in old(expenses) then Duplicate else Posted)
              && expenses == (if r == Posted then old(expenses) + [row] else old(expenses))
              && templates == old(templates)[id := if Refuses(charge) then t.(active := false)
                                                   else t.(nextRun := advanced)]
    {
      hide Less, Advance, InIso, SlotOf, DueText, PeriodAt, ReadRule, TemplateOk, EndOfIsoTime, ParseISO, Next, ToISO,
           Refuses, Housed;
      StepOk(templates[id], today);
      var next := NextDueDate(templates[id].cadence, templates[id].cadenceDay, nextRun);
      advanced := next.value;
      var splits;
      r, splits := PostOne(id, nextRun, advanced, charge);
      if r == Refused {
        Pause(id);
      } else if r == Duplicate {
        HealNextRun(id, nextRun, advanced);
      }
    }

    method RunTemplate(id: nat, today: string, charge: Charge) returns (already: seq<string>, paused: bool)
      requires Housed(charge) && id in templates && TemplateOk(templates[id]) && BillRuns.GoodDay(today)
      modifies this
      ensures var turn := CatchUp(id, old(templates[id]), old(expenses), today, Refuses(charge),
                                  BillRuns.MAX_CATCHUP_PER_RUN);
              && templates == old(templates)[id := Settle(old(templates[id]), turn)]
              && expenses == turn.expenses && already == turn.already && paused == turn.refused
    {
      hide BillRuns.GoodDay, Less, Advance, PeriodAt, ReadRule, BillRuns.DueIso, CatchUp, Refuses, Housed;
      already, paused := [], false;
      ghost var refuses := Refuses(charge);
      var nextRun := templates[id].nextRun;
      var t0 := templates[id];
      ghost var goal := CatchUp(id, t0, expenses, today, refuses, BillRuns.MAX_CATCHUP_PER_RUN);
      for i := 0 to BillRuns.MAX_CATCHUP_PER_RUN
        invariant templates == old(templates)[id := t0.(nextRun := nextRun)]
        invariant TemplateOk(t0.(nextRun := nextRun)) && !paused
        invariant goal == Resumed(already, CatchUp(id, t0.(nextRun := nextRun), expenses, today, refuses,
                                                   BillRuns.MAX_CATCHUP_PER_RUN - i))
      {
        CatchUpStep(id, t0.(nextRun := nextRun), expenses, today, refuses, BillRuns.MAX_CATCHUP_PER_RUN - i, already);
        if Less(today, nextRun) { break; }
        var r, advanced := TryPeriod(id, nextRun, today, charge);
        if r == Refused {
          paused := true;
          break;
        }
        if r == Duplicate {
          already := already + [PeriodAt(t0.cadence, nextRun)];
        }
        nextRun := advanced;
      }
      CatchUpStep(id, t0.(nextRun := nextRun), expenses, today, refuses, 0, already);
    }

    /** The whole pass. `order` lists the templates by creation, `charges` what their postings read. */
    method PostDueBills(order: seq<nat>, now: int, charges: map<nat, Charge>)
        returns (already: seq<(nat, string)>, paused: seq<nat>)
      requires forall id :: id in order ==> id in templates && id in charges && Housed(charges[id])
      requires Distinct(order)
      requires TemplatesOk(templates) && ClockOk(now)
      modifies this
      ensures var ids := Filter(order, old(templates), now);
              var db := Tables(old(templates), old(expenses));
              && Tables(templates, expenses) == Pass(ids, db, now, Refusing(charges))
              && already == Already(ids, db, now, Refusing(charges))
              && Names(paused, ids, templates)
    {
      hide TurnOf, BillRuns.GoodDay, LocalDate, TemplateOk, Less, CatchUp, Scanned, Pass, Refuses, Housed, Already,
           Under, Names;
      already, paused := [], [];
      ghost var refusing := Refusing(charges);
      var ids := Filter(order, templates, now);
      FilterDistinct(order, templates, now);
      ghost var db := Tables(templates, expenses);
      PassStart(db, now, refusing);
      NoneAlready(db, now, refusing);
      assert Names(paused, ids[..0], templates) by { NoneNamed(templates); }
      for k := 0 to |ids|
        invariant Tables(templates, expenses) == Pass(ids[..k], db, now, refusing)
        invariant already == Already(ids[..k], db, now, refusing)
        invariant Names(paused, ids[..k], templates)
        invariant templates.Keys == db.templates.Keys
        invariant forall j :: k <= j < |ids| ==> templates[ids[j]] == db.templates[ids[j]]
      {
        PassStep(ids[..k + 1], db, now, refusing);
        AlreadyStep(ids[..k + 1], db, now, refusing);
        assert ids[..k + 1][..k] == ids[..k];
        var id := ids[k];
        ghost var before := templates;
        ScannedActive(templates[id], now);
        var dup, refused := TakeTurn(id, now, charges[id]);
        already := already + Under(id, dup);
        NamesStep(paused, ids, k, before, templates, refused);
        if refused { paused := paused + [id]; }
      }
      assert ids[..|ids|] == ids;
    }

    /** One template's turn: its house's date, then the catch-up loop; a broken zone pauses it. */
    method TakeTurn(id: nat, now: int, charge: Charge) returns (already: seq<string>, paused: bool)
      requires Housed(charge) && id in templates && TemplateOk(templates[id]) && ClockOk(now)
      modifies this
      ensures var turn := TurnOf(id, old(templates[id]), old(expenses), now, Refuses(charge));
              && templates == old(templates)[id := Settle(old(templates[id]), turn)]
              && expenses == turn.expenses && already == turn.already && paused == turn.refused
      ensures old(templates[id]).active ==> id in templates && (paused <==> !templates[id].active)
    {
      hide CatchUp, BillRuns.GoodDay, LocalDate, BillRuns.DueIso, ReadRule, Refuses, Housed;
      ghost var was := templates[id];
      match templates[id].zone
      case None =>
        Pause(id);
        already, paused := [], true;
      case Some(offset) =>
        CatchUpRefuses(id, was, expenses, LocalDate(offset, now), Refuses(charge), BillRuns.MAX_CATCHUP_PER_RUN);
        already, paused := RunTemplate(id, LocalDate(offset, now), charge);
    }
  }

  lemma PassStart(db: Tables, now: int, refusing: set<nat>)
    requires TemplatesOk(db.templates)
    ensures Pass([], db, now, refusing) == db
  {
    hide TemplateOk;
  }

  lemma PassStep(ids: seq<nat>, db: Tables, now: int, refusing: set<nat>)
    requires TemplatesOk(db.templates) && (forall id :: id in ids ==> id in db.templates) && ids != []
    ensures var last := ids[|ids| - 1];
            var before := Pass(ids[..|ids| - 1], db, now, refusing);
            var turn := TurnOf(last, db.templates[last], before.expenses, now, last in refusing);
            Pass(ids, db, now, refusing)
              == Tables(before.templates[last := Settle(db.templates[last], turn)], turn.expenses)
  {
    hide TurnOf;
  }

  /** A due date reached by a good day advances inside the years of ISO text. */
  lemma StepOk(t: Template, today: string)
    requires TemplateOk(t) && BillRuns.GoodDay(today) && !Less(today, t.nextRun)
    ensures ReadRule(t.cadence, t.cadenceDay).Success?
    ensures ParseISO(t.nextRun).Some? && !EndOfIsoTime(RuleOf(t), ParseISO(t.nextRun).value)
    ensures Advance(RuleOf(t), t.nextRun) == ToISO(Next(RuleOf(t), ParseISO(t.nextRun).value))
    ensures TemplateOk(t.(nextRun := Advance(RuleOf(t), t.nextRun)))
    ensures SlotOf(RuleOf(t), Advance(RuleOf(t), t.nextRun)) == SlotOf(RuleOf(t), t.nextRun) + 1
  {
    hide Less, InIso, SlotOf, DueText, DueAt, ToISO, Next, ReadRule, ParseISO, DueDay, Storable, IsDue;
    var rule := RuleOf(t);
    var slot := SlotOf(rule, t.nextRun);
    DueTextParses(rule, slot);
    YearRoom(rule, slot, today);
    DueToday(t, today);
    BillRuns.AdvanceDue(rule, t.nextRun);
  }

  lemma DueToday(t: Template, today: string)
    requires TemplateOk(t) && BillRuns.GoodDay(today) && !Less(today, t.nextRun)
    ensures InIso(RuleOf(t), SlotOf(RuleOf(t), t.nextRun) + 1)
  {
    hide Less, InIso, SlotOf, DueText, ParseISO, ReadRule;
    DueByToday(RuleOf(t), SlotOf(RuleOf(t), t.nextRun), today);
  }

  lemma YearRoom(rule: Rule, slot: int, today: string)
    requires ValidRule(rule) && InIso(rule, slot) && BillRuns.GoodDay(today) && !Less(today, DueText(rule, slot))
    ensures DueAt(rule, slot).y <= 9998
  {
    hide Less, ToISO, ParseISO, DueAt, SlotOf;
    var t := ParseISO(today).value;
    DueTextParses(rule, slot);
    ParseISOExact(today, t);
    ISOOrder(t, DueAt(rule, slot));
  }
}
