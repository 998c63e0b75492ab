/**
 Creating, pausing and resuming bill templates (createBill and setActive in
 apps/api/src/ledger/bills.service.ts).  What they store is what the worker requires.
 */
module Bills {
  import opened Text
  import opened Schedule
  import opened Sums
  import opened Splits
  import opened Posting
  import BillRuns
  import opened BillWorker

  datatype Role = Admin | Housemate

  datatype BillInput = BillInput(
    description: string, amountCents: int, mode: SplitMode, cadence: Cadence, cadenceDay: string,
    ownerId: Option<UserId>)

  /** A row of `bill_templates`: what is charged, and the schedule the worker follows. */
  datatype Bill = Bill(description: string, amountCents: int, mode: SplitMode, owner: UserId, schedule: Template)

  datatype Refusal = InvalidSchedule | OwnerNotActive | OwnerPlaceholder | NotFound | Forbidden

  /** The owner of a new bill: `input.ownerId ?? userId`. */
  function OwnerOf(input: BillInput, user: UserId): UserId {
    input.ownerId.GetOr(user)
  }

  predicate SchedulesOk(bills: map<nat, Bill>) {
    forall id :: id in bills ==> TemplateOk(bills[id].schedule)
  }

  /** The owner and the admins change a bill, as long as they are active members. */
  predicate MayChange(bill: Bill, user: UserId, roles: map<UserId, Role>) {
    user in roles && (user == bill.owner || roles[user].Admin?)
  }

  class BillBook {
    var bills: map<nat, Bill>

    constructor ()
      ensures bills == map[] && SchedulesOk(bills)
    {
      bills := map[];
    }

    /** `members` are the active rows of the house, `offset` its zone and `today` its wall-clock date. */
    method CreateBill(id: nat, input: BillInput, user: UserId, members: seq<ActiveMember>, offset: int, today: string)
        returns (r: Result<Bill, Refusal>)
      requires id !in bills && SchedulesOk(bills) && Distinct(Ids(members))
      requires BillRuns.GoodDay(today) && -MAX_OFFSET <= offset <= MAX_OFFSET
      modifies this
      ensures SchedulesOk(bills)
      ensures r.Success? <==> ReadRule(input.cadence, input.cadenceDay).Success?
                              && exists m :: m in members && !m.isPlaceholder
                                   && m.userId == (if input.ownerId.Some? then input.ownerId.value else user)
      ensures r.Success? ==>
                var nextRun := AnchorFrom(ReadRule(input.cadence, input.cadenceDay).value, today);
                && r.value == Bill(input.description, input.amountCents, input.mode,
                                   if input.ownerId.Some? then input.ownerId.value else user,
                                   Template(input.cadence, input.cadenceDay, nextRun, true, Some(offset)))
                && bills == old(bills)[id := r.value]
      ensures r.Failure? ==> bills == old(bills)
    {
      hide BillRuns.DueIso, AnchorFrom, ParseISO, MemberOf, ReadRule;
      var read := ReadRule(input.cadence, input.cadenceDay);
      if read.Failure? { return Failure(InvalidSchedule); }
      var owner := OwnerOf(input, user);
      var problem := LockActingMember(members, owner);
      if problem.Some? { return Failure(if problem.value.NotAMember? then OwnerNotActive else OwnerPlaceholder); }
      var nextRun := Anchor(input.cadence, input.cadenceDay, today);
      var schedule := Template(input.cadence, input.cadenceDay, nextRun, true, Some(offset));
      var bill := Bill(input.description, input.amountCents, input.mode, owner, schedule);
      bills := bills[id := bill];
      return Success(bill);
    }

    /**
     Pausing keeps `nextRun`; resuming moves it to the earliest due date on or after today; a bill
     already in the wanted state is left alone.  `roles` are those of the active members.
     */
    method SetActive(id: nat, user: UserId, roles: map<UserId, Role>, active: bool, today: string)
        returns (r: Result<Bill, Refusal>)
      requires SchedulesOk(bills) && BillRuns.GoodDay(today)
      modifies this
      ensures SchedulesOk(bills)
      ensures r.Success? <==>
                id in old(bills) && user in roles && (old(bills)[id].owner == user || roles[user] == Admin)
      ensures r.Success? ==>
                var was := old(bills)[id];
                && bills == old(bills)[id := r.value]
                && r.value == was.(schedule := Switched(was.schedule, active, today))
      ensures r.Failure? ==> bills == old(bills)
    {
      hide BillRuns.DueIso, AnchorFrom, ParseISO, ReadRule;
      if id !in bills { return Failure(NotFound); }
      var bill := bills[id];
      if !MayChange(bill, user, roles) { return Failure(Forbidden); }
      var schedule := bill.schedule;
      if schedule.active != active {
        var nextRun := schedule.nextRun;
        if active { nextRun := Anchor(schedule.cadence, schedule.cadenceDay, today); }
        bill := bill.(schedule := schedule.(active := active, nextRun := nextRun));
      }
      bills := bills[id := bill];
      return Success(bill);
    }
  }

  /** A schedule after it has been switched on or off on a day. */
  function Switched(was: Template, active: bool, today: string): Template
    requires TemplateOk(was)
  {
    if was.active == active then was
    else if active then was.(active := true, nextRun := AnchorFrom(RuleOf(was), today))
    else was.(active := false)
  }

  /** The machine's template is on the same schedule. */
  predicate Describes(s: BillRuns.State, t: Template)
    requires ReadRule(t.cadence, t.cadenceDay).Success?
  {
    s.rule == RuleOf(t) && s.nextRun == t.nextRun && s.active == t.active
  }

  /** Switching a bill is the machine's pause or resume, or nothing. */
  lemma SwitchIsStep(s: BillRuns.State, t: Template, active: bool)
    requires TemplateOk(t) && Describes(s, t)
    ensures var e := if active then BillRuns.Resume else BillRuns.Pause;
            if t.active == active then Switched(t, active, s.today) == t
            else BillRuns.Enabled(s, e) && Describes(BillRuns.Step(s, e), Switched(t, active, s.today))
  {
    hide AnchorFrom, ReadRule, BillRuns.DueIso, SlotOf;
  }

  /** `nextDueDate(cadence, cadenceDay, isoAddDays(today, -1))`: the anchor both operations share. */
  method Anchor(cadence: Cadence, cadenceDay: string, today: string) returns (nextRun: string)
    requires ReadRule(cadence, cadenceDay).Success? && BillRuns.GoodDay(today)
    ensures var rule := ReadRule(cadence, cadenceDay).value;
            nextRun == AnchorFrom(rule, today) && BillRuns.DueIso(rule, nextRun)
    ensures var rule := ReadRule(cadence, cadenceDay).value;
            forall k :: InIso(rule, k) && !Less(DueText(rule, k), today) ==> !Less(DueText(rule, k), nextRun)
    ensures !Less(nextRun, today)
  {
    hide AnchorFrom, ParseISO, ReadRule, InIso, DueText, SlotOf, Less, EarliestFrom, ToISO;
    var r := FirstRun(cadence, cadenceDay, today);
    nextRun := r.value;
    ghost var rule := ReadRule(cadence, cadenceDay).value;
    ghost var date :| nextRun == ToISO(date) && EarliestFrom(rule, ParseISO(today).value, date);
    FirstRunIsAnchor(rule, today, date);
    AnchorIsEarliest(rule, today);
    forall k | InIso(rule, k) && !Less(DueText(rule, k), today) { DueTextOrder(rule, k, SlotOf(rule, nextRun)); }
  }
}
