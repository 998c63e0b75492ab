/**
 Recurring-bill posting as a state machine over one template row and the expenses posted
 under it (apps/worker/src/bills/post-due-bills.ts, apps/api/src/ledger/bills.service.ts).
 Any number of worker runs interleave; each holds a local, possibly stale `nextRun`, and may
 crash between any two of its transactions.
 */
module BillRuns {
  import opened Text
  import opened Calendar
  import opened Schedule

  const MAX_CATCHUP_PER_RUN := 24

  /** One posted expense: its `period`, and as history the due date (by slot) it was posted for. */
  datatype Row = Row(period: string, slot: int)

  /** Where a run stands: at the head of the loop, or between a unique violation and its heal. */
  datatype Phase = AtTop | Healing

  /** A run's locals. `today` is the house-local date computed once from the run's clock reading. */
  datatype Run = Run(today: string, nextRun: string, i: nat, phase: Phase)

  /**
   `today` is the house-local date now.  `base` and `mark` are history: the slot at which the
   template was created or last resumed, and how many rows precede the run of postings from it.
   */
  datatype State = State(
    rule: Rule, active: bool, nextRun: string, rows: seq<Row>,
    runs: map<nat, Run>, today: string, base: int, mark: nat)

  datatype Event =
    | Tick(today': string)
    | Scan(w: nat, asOf: string)
    | Post(w: nat)
    | Clash(w: nat)
    | Heal(w: nat)
    | Problem(w: nat)
    | Finish(w: nat)
    | Crash(w: nat)
    | Pause
    | Resume

  predicate GoodDay(iso: string) {
    ParseISO(iso).Some? && 101 <= ParseISO(iso).value.y <= 9998
  }

  /** The unique index on (template_id, period). */
  predicate Posted(s: State, period: string) {
    exists i :: 0 <= i < |s.rows| && s.rows[i].period == period
  }

  function PeriodOf(s: State, iso: string): string {
    PeriodKey(CadenceOf(s.rule), iso).GetOr("")
  }

  /** The loop of a run goes round: under its cap and its local `nextRun` not after its today. */
  predicate InLoop(s: State, w: nat) {
    w in s.runs && s.runs[w].phase == AtTop
    && s.runs[w].i < MAX_CATCHUP_PER_RUN && !Less(s.runs[w].today, s.runs[w].nextRun)
  }

  predicate Enabled(s: State, e: Event) {
    match e
    case Tick(today') => GoodDay(today') && !Less(today', s.today)
    case Scan(w, asOf) => w !in s.runs && s.active && GoodDay(asOf) && !Less(s.today, asOf)
    case Post(w) => InLoop(s, w) && !Posted(s, PeriodOf(s, s.runs[w].nextRun))
    case Clash(w) => InLoop(s, w) && Posted(s, PeriodOf(s, s.runs[w].nextRun))
    case Heal(w) => w in s.runs && s.runs[w].phase == Healing
    case Problem(w) => InLoop(s, w)
    case Finish(w) => w in s.runs && s.runs[w].phase == AtTop && !InLoop(s, w)
    case Crash(w) => w in s.runs
    case Pause => true
    case Resume => !s.active
  }

  function Step(s: State, e: Event): State
    requires Enabled(s, e)
  {
    match e
    case Tick(today') => s.(today := today')
    case Scan(w, asOf) => s.(runs := s.runs[w := Run(asOf, s.nextRun, 0, AtTop)])
    case Post(w) =>
      var r := s.runs[w];
      var advanced := Advance(s.rule, r.nextRun);
      s.(rows := s.rows + [Row(PeriodOf(s, r.nextRun), SlotOf(s.rule, r.nextRun))],
         nextRun := advanced,
         runs := s.runs[w := r.(nextRun := advanced, i := r.i + 1)])
    case Clash(w) => s.(runs := s.runs[w := s.runs[w].(phase := Healing)])
    case Heal(w) =>
      var r := s.runs[w];
      var advanced := Advance(s.rule, r.nextRun);
      s.(nextRun := if s.nextRun == r.nextRun then advanced else s.nextRun,
         runs := s.runs[w := r.(nextRun := advanced, i := r.i + 1, phase := AtTop)])
    case Problem(w) => s.(active := false, runs := s.runs - {w})
    case Finish(w) => s.(runs := s.runs - {w})
    case Crash(w) => s.(runs := s.runs - {w})
    case Pause => s.(active := false)
    case Resume =>
      var anchor := AnchorFrom(s.rule, s.today);
      var base := SlotOf(s.rule, anchor);
      s.(active := true, nextRun := anchor, base := base,
         mark := if |s.rows| > 0 && s.rows[|s.rows| - 1].slot == base then |s.rows| - 1 else |s.rows|)
  }

  /** A template just created on a good day. */
  predicate Init(s: State) {
    ValidRule(s.rule) && s.active && GoodDay(s.today) && s.rows == [] && s.runs == map[]
    && s.nextRun == AnchorFrom(s.rule, s.today)
    && s.base == SlotOf(s.rule, s.nextRun) && s.mark == 0
  }

  /** Every event of the trace is enabled when its turn comes. */
  predicate Trace(s: State, es: seq<Event>)
    decreases |es|
  {
    es == [] || (Enabled(s, es[0]) && Trace(Step(s, es[0]), es[1..]))
  }

  function After(s: State, es: seq<Event>): State
    requires Trace(s, es)
    decreases |es|
  {
    if es == [] then s else After(Step(s, es[0]), es[1..])
  }

  /** No resume happens while a worker run is in flight. */
  predicate QuietResumes(s: State, es: seq<Event>)
    requires Trace(s, es)
    decreases |es|
  {
    es != [] ==> (es[0].Resume? ==> s.runs == map[]) && QuietResumes(Step(s, es[0]), es[1..])
  }

  // ---------- at most once, in every run ----------

  /** `iso` is a due date of the rule. */
  predicate DueIso(rule: Rule, iso: string) {
    InIso(rule, SlotOf(rule, iso)) && iso == DueText(rule, SlotOf(rule, iso))
  }

  predicate RowOk(rule: Rule, row: Row) {
    InIso(rule, row.slot) && row.period == KeyAt(rule, row.slot)
  }

  predicate DistinctSlots(rows: seq<Row>) {
    forall i, j :: 0 <= i < j < |rows| ==> rows[i].slot != rows[j].slot
  }

  predicate Sound(s: State) {
    ValidRule(s.rule) && GoodDay(s.today) && DueIso(s.rule, s.nextRun)
    && (forall i :: 0 <= i < |s.rows| ==> RowOk(s.rule, s.rows[i]))
    && DistinctSlots(s.rows)
    && (forall w :: w in s.runs ==> DueIso(s.rule, s.runs[w].nextRun) && GoodDay(s.runs[w].today))
    && (forall w :: w in s.runs && s.runs[w].phase == Healing ==> InIso(s.rule, SlotOf(s.rule, s.runs[w].nextRun) + 1))
  }

  lemma AdvanceDue(rule: Rule, iso: string)
    requires ValidRule(rule) && DueIso(rule, iso) && InIso(rule, SlotOf(rule, iso) + 1)
    ensures DueIso(rule, Advance(rule, iso)) && SlotOf(rule, Advance(rule, iso)) == SlotOf(rule, iso) + 1
  {
    hide InIso, SlotOf, DueText, Advance;
    AdvanceIsNextSlot(rule, SlotOf(rule, iso));
    DueTextParses(rule, SlotOf(rule, iso) + 1);
  }

  /** A posting in the loop is for a due date whose successor is a due date too. */
  lemma LoopDue(s: State, w: nat)
    requires Sound(s) && InLoop(s, w)
    ensures var r := s.runs[w];
            var slot := SlotOf(s.rule, r.nextRun);
            && InIso(s.rule, slot + 1) && PeriodOf(s, r.nextRun) == KeyAt(s.rule, slot)
            && DueIso(s.rule, Advance(s.rule, r.nextRun)) && SlotOf(s.rule, Advance(s.rule, r.nextRun)) == slot + 1
  {
    hide InIso, SlotOf, DueText, Advance, Less, ParseISO, PeriodKey;
    var r := s.runs[w];
    DueByToday(s.rule, SlotOf(s.rule, r.nextRun), r.today);
    AdvanceDue(s.rule, r.nextRun);
  }

  /** With sound rows, the unique index refuses exactly the due dates already posted. */
  lemma PostedMeansSlot(s: State, slot: int)
    requires Sound(s) && InIso(s.rule, slot)
    ensures Posted(s, KeyAt(s.rule, slot)) <==> exists i :: 0 <= i < |s.rows| && s.rows[i].slot == slot
  {
    hide InIso, KeyAt, SlotOf, DueText;
    forall i | 0 <= i < |s.rows| && s.rows[i].period == KeyAt(s.rule, slot)
      ensures s.rows[i].slot == slot
    {
      assert RowOk(s.rule, s.rows[i]);
      KeyAtInjective(s.rule, s.rows[i].slot, slot);
    }
    forall i | 0 <= i < |s.rows| && s.rows[i].slot == slot
      ensures Posted(s, KeyAt(s.rule, slot))
    {
      assert RowOk(s.rule, s.rows[i]);
    }
  }

  lemma AnchorDue(s: State)
    requires ValidRule(s.rule) && GoodDay(s.today)
    ensures DueIso(s.rule, AnchorFrom(s.rule, s.today))
  {
    hide InIso, SlotOf, DueText, AnchorFrom, Less, ParseISO;
    AnchorIsEarliest(s.rule, s.today);
  }

  lemma SoundInit(s: State)
    requires Init(s)
    ensures Sound(s)
  {
    AnchorDue(s);
  }

  lemma SoundStep(s: State, e: Event)
    requires Sound(s) && Enabled(s, e)
    ensures Sound(Step(s, e))
  {
    hide InIso, SlotOf, DueText, Advance, AnchorFrom, Less, ParseISO, KeyAt, PeriodKey, DueIso, GoodDay, PeriodOf;
    match e
    case Post(w) =>
      LoopDue(s, w);
      DueIsoSlot(s.rule, s.runs[w].nextRun);
      PostedMeansSlot(s, SlotOf(s.rule, s.runs[w].nextRun));
    case Clash(w) => LoopDue(s, w);
    case Heal(w) => AdvanceDue(s.rule, s.runs[w].nextRun);
    case Resume => AnchorDue(s);
    case _ =>
  }

  lemma DueIsoSlot(rule: Rule, iso: string)
    requires DueIso(rule, iso)
    ensures InIso(rule, SlotOf(rule, iso))
  {
  }

  lemma {:induction false} SoundRun(s: State, es: seq<Event>)
    requires Sound(s) && Trace(s, es)
    ensures Sound(After(s, es))
    decreases |es|
  {
    hide Sound, Enabled, Step;
    if es != [] {
      SoundStep(s, es[0]);
      SoundRun(Step(s, es[0]), es[1..]);
    }
  }

  /**
   At most once, in every run: whatever workers, crashes, pauses and resumes interleave, no due
   date is posted twice and no two rows share a period.
   */
  lemma AtMostOnce(s: State, es: seq<Event>)
    requires Init(s) && Trace(s, es)
    ensures var rows := After(s, es).rows;
            forall i, j :: 0 <= i < j < |rows| ==> rows[i].slot != rows[j].slot && rows[i].period != rows[j].period
  {
    hide InIso, KeyAt, Init, Trace, After;
    SoundInit(s);
    SoundRun(s, es);
    var t := After(s, es);
    forall i, j | 0 <= i < j < |t.rows|
      ensures t.rows[i].slot != t.rows[j].slot && t.rows[i].period != t.rows[j].period
    {
      assert RowOk(t.rule, t.rows[i]) && RowOk(t.rule, t.rows[j]);
      if t.rows[i].period == t.rows[j].period { KeyAtInjective(t.rule, t.rows[i].slot, t.rows[j].slot); }
    }
  }

  // ---------- gap-free, when no resume overlaps a run ----------

  /** How far the run of postings from `base` has come: the first unposted slot. */
  function Top(s: State): int {
    s.base + |s.rows| - s.mark
  }

  predicate DueBy(s: State, slot: int) {
    !Less(s.today, DueText(s.rule, slot))
  }

  /** A local or stored `nextRun`: a due date of the current run, not past the first unposted one. */
  predicate Within(s: State, iso: string) {
    s.base <= SlotOf(s.rule, iso) <= Top(s)
  }

  predicate GapFree(s: State) {
    Sound(s) && s.mark <= |s.rows|
    && (forall i :: 0 <= i < |s.rows| ==> DueBy(s, s.rows[i].slot))
    && (forall i, j :: 0 <= i < j < |s.rows| ==> s.rows[i].slot < s.rows[j].slot)
    && (forall i :: 0 <= i < s.mark ==> s.rows[i].slot < s.base)
    && (forall i :: s.mark <= i < |s.rows| ==> s.rows[i].slot == s.base + i - s.mark)
    && Within(s, s.nextRun)
    && (forall w :: w in s.runs ==> Within(s, s.runs[w].nextRun) && !Less(s.today, s.runs[w].today))
    && (forall w :: w in s.runs && s.runs[w].phase == Healing ==> SlotOf(s.rule, s.runs[w].nextRun) < Top(s))
  }

  lemma NotLessTransitive(a: string, b: string, c: string)
    requires !Less(b, a) && !Less(c, b)
    ensures !Less(c, a)
  {
    LessTotal(a, b);
    LessTotal(b, c);
    if Less(c, a) {
      if a != b { LessTransitive(c, a, b); }
    }
  }

  lemma InitParts(s: State)
    requires Init(s)
    ensures s.mark == 0 && s.rows == [] && s.runs == map[] && s.base == SlotOf(s.rule, s.nextRun)
    ensures s.active && GoodDay(s.today) && ValidRule(s.rule) && s.nextRun == AnchorFrom(s.rule, s.today)
  {
  }

  lemma GapFreeInit(s: State)
    requires Init(s)
    ensures GapFree(s)
  {
    hide Sound, Init, InIso, SlotOf, DueText, Less, DueBy, GoodDay, AnchorFrom;
    InitParts(s);
    SoundInit(s);
  }

  /** In a gap-free state the loop posts exactly at the first unposted slot, and clashes below it. */
  lemma PostsAtTop(s: State, w: nat)
    requires GapFree(s) && InLoop(s, w)
    ensures Posted(s, PeriodOf(s, s.runs[w].nextRun)) <==> SlotOf(s.rule, s.runs[w].nextRun) < Top(s)
  {
    hide InIso, SlotOf, DueText, Advance, Less, ParseISO, KeyAt, PeriodKey, InLoop;
    InLoopRun(s, w);
    var slot := SlotOf(s.rule, s.runs[w].nextRun);
    LoopDue(s, w);
    DueIsoSlot(s.rule, s.runs[w].nextRun);
    PostedMeansSlot(s, slot);
    if slot < Top(s) { assert s.rows[s.mark + slot - s.base].slot == slot; }
  }

  lemma InLoopRun(s: State, w: nat)
    requires InLoop(s, w)
    ensures w in s.runs && !Less(s.runs[w].today, s.runs[w].nextRun)
  {
  }

  lemma GapFreePost(s: State, w: nat)
    requires GapFree(s) && Enabled(s, Post(w))
    ensures GapFree(Step(s, Post(w)))
  {
    hide InIso, SlotOf, DueText, Advance, Less, ParseISO, KeyAt, PeriodKey, Sound, DueIso, PeriodOf, Posted;
    var r := s.runs[w];
    SoundStep(s, Post(w));
    PostsAtTop(s, w);
    LoopDue(s, w);
    SoundNext(s, w);
    NotLessTransitive(r.nextRun, r.today, s.today);
  }

  lemma SoundNext(s: State, w: nat)
    requires Sound(s) && w in s.runs
    ensures s.runs[w].nextRun == DueText(s.rule, SlotOf(s.rule, s.runs[w].nextRun))
  {
  }

  lemma GapFreeClash(s: State, w: nat)
    requires GapFree(s) && Enabled(s, Clash(w))
    ensures GapFree(Step(s, Clash(w)))
  {
    hide InIso, SlotOf, DueText, Advance, Less, ParseISO, KeyAt, PeriodKey, Sound, DueIso, PeriodOf, Posted;
    SoundStep(s, Clash(w));
    PostsAtTop(s, w);
  }

  lemma GapFreeHeal(s: State, w: nat)
    requires GapFree(s) && Enabled(s, Heal(w))
    ensures GapFree(Step(s, Heal(w)))
  {
    hide InIso, SlotOf, DueText, Advance, Less, ParseISO, KeyAt, PeriodKey, Sound, DueIso, PeriodOf, Posted;
    SoundStep(s, Heal(w));
    HealSlot(s, w);
  }

  lemma HealSlot(s: State, w: nat)
    requires Sound(s) && w in s.runs && s.runs[w].phase == Healing
    ensures SlotOf(s.rule, Advance(s.rule, s.runs[w].nextRun)) == SlotOf(s.rule, s.runs[w].nextRun) + 1
  {
    hide InIso, SlotOf, DueText, Advance, Less, KeyAt, RowOk, GoodDay, DistinctSlots;
    AdvanceDue(s.rule, s.runs[w].nextRun);
  }

  /** Every posted due date is at most today's anchor, so only the last can be the anchor itself. */
  lemma RowsUpToAnchor(s: State, i: nat)
    requires GapFree(s) && i < |s.rows|
    ensures s.rows[i].slot <= SlotOf(s.rule, AnchorFrom(s.rule, s.today))
  {
    hide InIso, SlotOf, DueText, AnchorFrom, Less, ParseISO, KeyAt;
    AnchorIsEarliest(s.rule, s.today);
    var b := SlotOf(s.rule, AnchorFrom(s.rule, s.today));
    assert RowOk(s.rule, s.rows[i]);
    DueTextOrder(s.rule, b, s.rows[i].slot);
    if b < s.rows[i].slot { AfterDueBy(DueText(s.rule, b), DueText(s.rule, s.rows[i].slot), s.today); }
  }

  lemma AfterDueBy(a: string, b: string, today: string)
    requires Less(a, b) && !Less(today, b)
    ensures Less(a, today)
  {
    LessTotal(b, today);
    if b != today { LessTransitive(a, b, today); }
  }

  lemma GapFreeResume(s: State)
    requires GapFree(s) && Enabled(s, Resume) && s.runs == map[]
    ensures GapFree(Step(s, Resume))
  {
    hide InIso, SlotOf, DueText, AnchorFrom, Less, ParseISO, KeyAt, PeriodKey, Sound, DueIso;
    SoundStep(s, Resume);
    forall i | 0 <= i < |s.rows|
      ensures s.rows[i].slot <= SlotOf(s.rule, AnchorFrom(s.rule, s.today))
    {
      RowsUpToAnchor(s, i);
    }
  }

  lemma GapFreeTick(s: State, today': string)
    requires GapFree(s) && Enabled(s, Tick(today'))
    ensures GapFree(Step(s, Tick(today')))
  {
    hide InIso, SlotOf, DueText, Less, ParseISO, KeyAt, PeriodKey, Sound, DueIso;
    var t := Step(s, Tick(today'));
    SoundStep(s, Tick(today'));
    forall i | 0 <= i < |t.rows|
      ensures DueBy(t, t.rows[i].slot)
    {
      assert DueBy(s, s.rows[i].slot);
      NotLessTransitive(DueText(s.rule, s.rows[i].slot), s.today, today');
    }
    forall w | w in t.runs
      ensures !Less(t.today, t.runs[w].today)
    {
      NotLessTransitive(s.runs[w].today, s.today, today');
    }
  }

  lemma GapFreeStep(s: State, e: Event)
    requires GapFree(s) && Enabled(s, e) && (e.Resume? ==> s.runs == map[])
    ensures GapFree(Step(s, e))
  {
    hide InIso, SlotOf, DueText, Advance, AnchorFrom, Less, ParseISO, KeyAt, PeriodKey, Sound, DueIso, PeriodOf,
         Posted, GoodDay, InLoop;
    match e
    case Post(w) => GapFreePost(s, w);
    case Clash(w) => GapFreeClash(s, w);
    case Heal(w) => GapFreeHeal(s, w);
    case Resume => GapFreeResume(s);
    case Tick(today') => GapFreeTick(s, today');
    case _ => SoundStep(s, e);
  }

  /**
   Every reachable state of a run whose resumes are quiet is gap-free: from the slot where the
   template was created or last resumed, the posted rows are that due date and its successors in
   order, each once, and no stored or local `nextRun` points past the first unposted one.
   */
  lemma {:induction false} GapFreeRun(s: State, es: seq<Event>)
    requires GapFree(s) && Trace(s, es) && QuietResumes(s, es)
    ensures GapFree(After(s, es))
    decreases |es|
  {
    hide GapFree, Enabled, Step;
    if es != [] {
      GapFreeStep(s, es[0]);
      GapFreeRun(Step(s, es[0]), es[1..]);
    }
  }

  lemma {:induction false} NoResumeKeepsBase(s: State, es: seq<Event>)
    requires Trace(s, es) && forall e :: e in es ==> !e.Resume?
    ensures QuietResumes(s, es)
    ensures After(s, es).base == s.base && After(s, es).mark == s.mark && After(s, es).rule == s.rule
    decreases |es|
  {
    hide Enabled;
    if es != [] {
      assert !es[0].Resume?;
      NoResumeKeepsBase(Step(s, es[0]), es[1..]);
    }
  }

  /** How many postings committed. */
  function Posts(es: seq<Event>): nat {
    if es == [] then 0 else Posts(es[1..]) + if es[0].Post? then 1 else 0
  }

  lemma RowsStep(s: State, e: Event)
    requires Enabled(s, e)
    ensures |Step(s, e).rows| == |s.rows| + if e.Post? then 1 else 0
  {
    hide Posted, Advance, SlotOf, PeriodOf, AnchorFrom, Less;
  }

  lemma {:induction false} PostsAreRows(s: State, es: seq<Event>)
    requires Trace(s, es)
    ensures |After(s, es).rows| == |s.rows| + Posts(es)
    decreases |es|
  {
    hide Enabled, Step;
    if es != [] {
      RowsStep(s, es[0]);
      PostsAreRows(Step(s, es[0]), es[1..]);
    }
  }

  /**
   Without resumes, from creation on: the i-th posted row carries the period of the i-th due date,
   for every i, and the stored `nextRun` is a due date between the first and the first unposted.
   */
  lemma PostsEveryPeriodOnce(s: State, es: seq<Event>)
    requires Init(s) && Trace(s, es) && forall e :: e in es ==> !e.Resume?
    ensures var t := After(s, es);
            && |t.rows| == Posts(es)
            && (forall i :: 0 <= i < |t.rows| ==> t.rows[i] == Row(KeyAt(s.rule, s.base + i), s.base + i))
            && t.nextRun == DueText(s.rule, SlotOf(s.rule, t.nextRun))
            && s.base <= SlotOf(s.rule, t.nextRun) <= s.base + |t.rows|
  {
    hide InIso, SlotOf, DueText, KeyAt, Trace, After, Init, Less, GoodDay, DueBy, QuietResumes, AnchorFrom;
    InitParts(s);
    GapFreeInit(s);
    NoResumeKeepsBase(s, es);
    GapFreeRun(s, es);
    PostsAreRows(s, es);
    var t := After(s, es);
    forall i | 0 <= i < |t.rows|
      ensures t.rows[i] == Row(KeyAt(s.rule, s.base + i), s.base + i)
    {
      assert RowOk(t.rule, t.rows[i]);
    }
  }

  /** The stored `nextRun` never moves back, except by a resume. */
  lemma NextRunForward(s: State, e: Event)
    requires GapFree(s) && Enabled(s, e) && !e.Resume?
    ensures SlotOf(s.rule, s.nextRun) <= SlotOf(s.rule, Step(s, e).nextRun)
    ensures !Less(Step(s, e).nextRun, s.nextRun)
  {
    hide InIso, SlotOf, DueText, Advance, Less, ParseISO, KeyAt, PeriodKey, DueBy, PeriodOf, Posted, GoodDay, InLoop,
         AnchorFrom;
    match e {
      case Post(w) =>
        PostsAtTop(s, w);
        LoopDue(s, w);
      case Heal(w) => HealSlot(s, w);
      case _ =>
    }
    GapFreeStep(s, e);
    DueTextOrder(s.rule, SlotOf(s.rule, Step(s, e).nextRun), SlotOf(s.rule, s.nextRun));
  }

  lemma Cons(s: State, e: Event, es: seq<Event>)
    requires Enabled(s, e) && Trace(Step(s, e), es)
    ensures Trace(s, [e] + es) && After(s, [e] + es) == After(Step(s, e), es)
  {
    hide Enabled, Step;
    assert ([e] + es)[1..] == es;
  }

  /** A run scans, the template is paused, two periods pass, and it is resumed under the run. */
  function Overlapped(s: State, late: string): State {
    s.(runs := map[0 := Run(s.today, s.nextRun, 0, AtTop)], today := late, nextRun := late,
       base := SlotOf(s.rule, late), mark := 0)
  }

  lemma OverlapTrace(s: State, late: string)
    requires s.rows == [] && s.runs == map[] && s.active && GoodDay(s.today) && GoodDay(late)
    requires !Less(late, s.today) && AnchorFrom(s.rule, late) == late
    ensures var es := [Scan(0, s.today)] + ([Pause] + ([Tick(late)] + ([Resume] + [])));
            Trace(s, es) && After(s, es) == Overlapped(s, late)
  {
    hide SlotOf, AnchorFrom, Less, GoodDay, Trace, After;
    LessIrreflexive(s.today);
    var s1 := Step(s, Scan(0, s.today));
    var s2 := Step(s1, Pause);
    var s3 := Step(s2, Tick(late));
    var s4 := Step(s3, Resume);
    NoEvents(s4);
    Cons(s3, Resume, []);
    Cons(s2, Tick(late), [Resume] + []);
    Cons(s1, Pause, [Tick(late)] + ([Resume] + []));
    Cons(s, Scan(0, s.today), [Pause] + ([Tick(late)] + ([Resume] + [])));
    assert s4 == Overlapped(s, late);
  }

  lemma NoEvents(s: State)
    ensures Trace(s, []) && After(s, []) == s
  {
  }

  /** In some run a posting moves the stored `nextRun` back. */
  ghost predicate StalePosts(s: State) {
    exists es :: Trace(s, es) && Enabled(After(s, es), Post(0))
                 && Less(Step(After(s, es), Post(0)).nextRun, After(s, es).nextRun)
  }

  /**
   Why resumes must be quiet: a run that scanned before a pause and posts after the resume
   writes its stale successor over the newer `nextRun`, moving it back.
   */
  lemma OverlapRewinds(s: State)
    requires Init(s) && s.today == s.nextRun && DueAt(s.rule, s.base + 2).y <= 9998
    ensures StalePosts(s)
  {
    hide Step, Enabled, Overlapped, DueText, AnchorFrom, Less, DueAt, GoodDay, Trace, After, Init, Advance, SlotOf;
    InitParts(s);
    var late := DueText(s.rule, s.base + 2);
    OverlapFacts(s);
    OverlapTrace(s, late);
    StalePost(s, late);
  }

  /** A template of any valid schedule can start on any day of those years. */
  lemma TemplatesStart(rule: Rule, today: string)
    requires ValidRule(rule) && GoodDay(today)
    ensures exists s :: Init(s) && s.rule == rule && s.today == today
  {
    hide AnchorFrom, SlotOf, GoodDay;
    var anchor := AnchorFrom(rule, today);
    assert Init(State(rule, true, anchor, [], map[], today, SlotOf(rule, anchor), 0));
  }

  /** It happens to every schedule: a template created on any of its due dates has such a run. */
  lemma EveryScheduleCanRewind(rule: Rule, slot: int)
    requires ValidRule(rule) && InIso(rule, slot) && GoodDay(DueText(rule, slot)) && DueAt(rule, slot + 2).y <= 9998
    ensures exists s :: Init(s) && s.rule == rule && s.today == DueText(rule, slot) && StalePosts(s)
  {
    hide Init, StalePosts, DueText, DueAt, InIso, SlotOf, AnchorFrom, GoodDay, IsDue, ParseISO, Storable, ValidRule;
    TemplatesStart(rule, DueText(rule, slot));
    var s :| Init(s) && s.rule == rule && s.today == DueText(rule, slot);
    InitParts(s);
    AnchorOfDue(rule, slot);
    DueTextParses(rule, slot);
    OverlapRewinds(s);
  }

  lemma OverlapFacts(s: State)
    requires Init(s) && s.today == s.nextRun && DueAt(s.rule, s.base + 2).y <= 9998
    ensures var late := DueText(s.rule, s.base + 2);
            && GoodDay(late) && AnchorFrom(s.rule, late) == late && !Less(late, s.today)
            && Less(Advance(s.rule, s.nextRun), late)
  {
    hide InIso, SlotOf, DueText, Advance, AnchorFrom, Less, KeyAt, DueAt, PeriodOf, GoodDay, Init;
    InitParts(s);
    SoundInit(s);
    LaterSlots(s);
    AdvanceIsNextSlot(s.rule, s.base);
    DueTextOrder(s.rule, s.base + 2, s.base);
    DueTextOrder(s.rule, s.base + 1, s.base + 2);
    AnchorOfDue(s.rule, s.base + 2);
  }

  lemma StalePost(s: State, late: string)
    requires s.rows == [] && s.today == s.nextRun && Less(Advance(s.rule, s.nextRun), late)
    ensures var t := Overlapped(s, late);
            Enabled(t, Post(0)) && Less(Step(t, Post(0)).nextRun, t.nextRun)
  {
    hide Advance, Less, PeriodOf, SlotOf, GoodDay, AnchorFrom;
    LessIrreflexive(s.today);
  }

  lemma LaterSlots(s: State)
    requires Sound(s) && DueAt(s.rule, s.base + 2).y <= 9998 && s.base == SlotOf(s.rule, s.nextRun)
    requires s.today == s.nextRun
    ensures s.nextRun == DueText(s.rule, s.base) && InIso(s.rule, s.base)
    ensures InIso(s.rule, s.base + 1) && InIso(s.rule, s.base + 2) && GoodDay(DueText(s.rule, s.base + 2))
  {
    hide DueText, Advance, ParseISO, DueAt, KeyAt, Less;
    DueTextParses(s.rule, s.base);
    AdvanceIsNextSlot(s.rule, s.base);
    AdvanceIsNextSlot(s.rule, s.base + 1);
    DueTextParses(s.rule, s.base + 2);
  }

  lemma AnchorOfDue(rule: Rule, slot: int)
    requires ValidRule(rule) && InIso(rule, slot) && GoodDay(DueText(rule, slot))
    ensures AnchorFrom(rule, DueText(rule, slot)) == DueText(rule, slot)
  {
    hide InIso, SlotOf, DueText, AnchorFrom, Less, ParseISO;
    AnchorIsEarliest(rule, DueText(rule, slot));
    var anchor := SlotOf(rule, AnchorFrom(rule, DueText(rule, slot)));
    LessIrreflexive(DueText(rule, slot));
    DueTextOrder(rule, anchor, slot);
  }

  // ---------- crashes ----------

  /** From any state on, any days may pass and every run may crash, and the template stays as it is. */
  lemma {:induction false} AllMayCrash(s: State, today: string)
    requires GoodDay(today) && !Less(today, s.today)
    ensures exists es :: Trace(s, es) && After(s, es) == s.(runs := map[], today := today)
    decreases |s.runs|
  {
    hide Less, GoodDay, Posted, InLoop;
    if s.runs == map[] {
      NoEvents(Step(s, Tick(today)));
      Cons(s, Tick(today), []);
    } else {
      var w :| w in s.runs;
      var next := Step(s, Crash(w));
      assert next == s.(runs := s.runs - {w}) && s.runs == (s.runs - {w})[w := s.runs[w]];
      AllMayCrash(next, today);
      var es :| Trace(next, es) && After(next, es) == next.(runs := map[], today := today);
      Cons(s, Crash(w), es);
    }
  }
}
