/**
 Resuming a bill template while worker runs are in flight (setActive in
 apps/api/src/ledger/bills.service.ts against the loop of
 apps/worker/src/bills/post-due-bills.ts): exactly when such a resume lets the stored `nextRun`
 move back, and what every run keeps whose resumes do not.
 */
module BillResumes {
  import opened Text
  import opened Calendar
  import opened Schedule
  import opened BillRuns

  /** The slot a resume would move `nextRun` to. */
  function AnchorSlot(s: State): int {
    SlotOf(s.rule, AnchorFrom(s.rule, s.today))
  }

  predicate HasSlot(rows: seq<Row>, k: int) {
    exists i :: 0 <= i < |rows| && rows[i].slot == k
  }

  /** The first due date from `from` on that is not posted. */
  predicate FirstOpen(rows: seq<Row>, from: int, gap: int) {
    from <= gap && (forall k :: from <= k < gap ==> HasSlot(rows, k)) && !HasSlot(rows, gap)
  }

  /** A run gets to a slot while it is due on the run's day and rounds are left, one for each period before it. */
  predicate CanReach(rule: Rule, r: Run, slot: int) {
    !Less(r.today, DueText(rule, slot)) && r.i + slot - SlotOf(rule, r.nextRun) < MAX_CATCHUP_PER_RUN
  }

  /** The next due date the run would post lies before the anchor, and the run can get to it. */
  predicate Threatens(s: State, w: nat, gap: int) {
    && w in s.runs && FirstOpen(s.rows, SlotOf(s.rule, s.runs[w].nextRun), gap)
    && gap < AnchorSlot(s) && CanReach(s.rule, s.runs[w], gap)
  }

  /** A run in flight can still post a due date before the anchor. */
  ghost predicate Endangers(s: State) {
    exists w, gap :: Threatens(s, w, gap)
  }

  predicate Quiet(es: seq<Event>) {
    forall e :: e in es ==> !e.Resume?
  }

  /** After the events, none of them a resume, one more event moves the stored `nextRun` back. */
  predicate Rewinds(s: State, es: seq<Event>, e: Event) {
    Trace(s, es) && Quiet(es) && !e.Resume? && Enabled(After(s, es), e)
    && Less(Step(After(s, es), e).nextRun, After(s, es).nextRun)
  }

  // ---------- what resumes that endanger nothing keep ----------

  /** A run at or above the front, or one below an earlier gap that it cannot get to. */
  ghost predicate Placed(rule: Rule, rows: seq<Row>, r: Run, low: int, top: int) {
    && (r.phase == Healing ==> HasSlot(rows, SlotOf(rule, r.nextRun)))
    && (low <= SlotOf(rule, r.nextRun) <= top
        || exists gap :: FirstOpen(rows, SlotOf(rule, r.nextRun), gap) && gap < low && !CanReach(rule, r, gap))
  }

  /**
   From `low` on everything up to `top` is posted and nothing later; the stored `nextRun`, the
   anchor of the last resume and the runs that can still post lie in between.
   */
  ghost predicate Front(s: State, low: int, top: int) {
    && Sound(s) && low <= s.base <= top && low <= SlotOf(s.rule, s.nextRun) <= top && low <= AnchorSlot(s)
    && FirstOpen(s.rows, low, top) && Below(s.rows, top)
    && forall w :: w in s.runs ==> Placed(s.rule, s.rows, s.runs[w], low, top)
  }

  predicate Below(rows: seq<Row>, top: int) {
    forall i :: 0 <= i < |rows| ==> rows[i].slot < top
  }

  ghost predicate Orderly(s: State) {
    exists low, top :: Front(s, low, top)
  }

  lemma FrontInit(s: State)
    requires Init(s)
    ensures Front(s, s.base, s.base)
  {
    hide Sound, Init, InIso, SlotOf, DueText, Less, GoodDay, AnchorFrom;
    InitParts(s);
    SoundInit(s);
  }

  /** A gap-free state whose base is not past the anchor is orderly. */
  lemma GapFreeIsOrderly(s: State)
    requires GapFree(s) && s.base <= AnchorSlot(s)
    ensures Front(s, s.base, Top(s))
  {
    hide Sound, SlotOf, DueBy, Less, AnchorSlot, CanReach;
    forall k | s.base <= k < Top(s)
      ensures HasSlot(s.rows, k)
    {
      assert s.rows[s.mark + k - s.base].slot == k;
    }
  }

  lemma FrontParts(s: State, low: int, top: int)
    requires Front(s, low, top)
    ensures Sound(s) && low <= s.base <= top && low <= SlotOf(s.rule, s.nextRun) <= top && low <= AnchorSlot(s)
    ensures FirstOpen(s.rows, low, top) && Below(s.rows, top)
    ensures forall w :: w in s.runs ==> Placed(s.rule, s.rows, s.runs[w], low, top)
  {
    hide Sound, SlotOf, AnchorSlot, FirstOpen, Below, Placed;
  }

  lemma FrontMade(s: State, low: int, top: int)
    requires Sound(s) && low <= s.base <= top && low <= SlotOf(s.rule, s.nextRun) <= top && low <= AnchorSlot(s)
    requires FirstOpen(s.rows, low, top) && Below(s.rows, top)
    requires forall w :: w in s.runs ==> Placed(s.rule, s.rows, s.runs[w], low, top)
    ensures Front(s, low, top)
  {
    hide Sound, SlotOf, AnchorSlot, FirstOpen, Below, Placed;
  }

  lemma AnchorMonotone(rule: Rule, a: string, b: string)
    requires ValidRule(rule) && GoodDay(a) && GoodDay(b) && !Less(b, a)
    ensures SlotOf(rule, AnchorFrom(rule, a)) <= SlotOf(rule, AnchorFrom(rule, b))
  {
    hide InIso, SlotOf, DueText, AnchorFrom, Less, ParseISO;
    AnchorIsEarliest(rule, a);
    AnchorIsEarliest(rule, b);
    NotLessTransitive(a, b, AnchorFrom(rule, b));
  }

  /** A run in the loop is not stuck when it finds its due date unposted. */
  lemma PostsAtFront(s: State, low: int, top: int, w: nat)
    requires w in s.runs && Front(s, low, top) && Enabled(s, Post(w))
    ensures SlotOf(s.rule, s.runs[w].nextRun) == top
  {
    hide InIso, SlotOf, DueText, Advance, Less, ParseISO, KeyAt, PeriodKey, AnchorSlot, Posted, PeriodOf, GoodDay,
         RowOk, DistinctSlots;
    var n := SlotOf(s.rule, s.runs[w].nextRun);
    LoopDue(s, w);
    DueIsoSlot(s.rule, s.runs[w].nextRun);
    PostedMeansSlot(s, n);
    assert !HasSlot(s.rows, n);
    SoundNext(s, w);
  }

  /** One more row at the front leaves every other run where it was. */
  lemma StillPlaced(rule: Rule, rows: seq<Row>, row: Row, r: Run, low: int, top: int)
    requires Placed(rule, rows, r, low, top) && low <= top == row.slot
    ensures Placed(rule, rows + [row], r, low, top + 1)
  {
    hide SlotOf, CanReach;
    RowsGrow(rows, row);
    var n := SlotOf(rule, r.nextRun);
    if !(low <= n <= top) {
      var gap :| FirstOpen(rows, n, gap) && gap < low && !CanReach(rule, r, gap);
      assert FirstOpen(rows + [row], n, gap);
    }
  }

  lemma RowsGrow(rows: seq<Row>, row: Row)
    ensures forall k :: HasSlot(rows + [row], k) <==> HasSlot(rows, k) || k == row.slot
  {
    forall k
      ensures HasSlot(rows + [row], k) <==> HasSlot(rows, k) || k == row.slot
    {
      if HasSlot(rows, k) {
        var i :| 0 <= i < |rows| && rows[i].slot == k;
        assert (rows + [row])[i].slot == k;
      }
      assert (rows + [row])[|rows|] == row;
    }
  }

  lemma FrontPost(s: State, low: int, top: int, w: nat)
    requires Front(s, low, top) && Enabled(s, Post(w))
    ensures Front(Step(s, Post(w)), low, top + 1) && !Less(Step(s, Post(w)).nextRun, s.nextRun)
  {
    hide InIso, SlotOf, DueText, Advance, Less, ParseISO, KeyAt, PeriodKey, AnchorFrom, Posted, PeriodOf, Sound,
         Front, Placed, InLoop;
    FrontParts(s, low, top);
    InLoopRun(s, w);
    PostsAtFront(s, low, top, w);
    LoopDue(s, w);
    SoundStep(s, Post(w));
    var t := Step(s, Post(w));
    var row := t.rows[|s.rows|];
    RowsGrow(s.rows, row);
    forall v | v in t.runs
      ensures Placed(t.rule, t.rows, t.runs[v], low, top + 1)
    {
      if v == w { PlacedAtTop(s, low, top, w); } else { StillPlaced(s.rule, s.rows, row, s.runs[v], low, top); }
    }
    FrontMade(t, low, top + 1);
    StoredForward(s, t);
  }

  lemma PlacedAtTop(s: State, low: int, top: int, w: nat)
    requires Enabled(s, Post(w)) && low <= top && SlotOf(s.rule, Step(s, Post(w)).runs[w].nextRun) == top + 1
    ensures Placed(s.rule, Step(s, Post(w)).rows, Step(s, Post(w)).runs[w], low, top + 1)
  {
    hide SlotOf, Advance, Less, Posted, PeriodOf, CanReach;
  }

  /** Comparing stored due dates by their slots. */
  lemma StoredForward(s: State, t: State)
    requires Sound(s) && Sound(t) && t.rule == s.rule && SlotOf(s.rule, s.nextRun) <= SlotOf(s.rule, t.nextRun)
    ensures !Less(t.nextRun, s.nextRun)
  {
    hide InIso, SlotOf, DueText, Less, Sound;
    StoredNext(s);
    StoredNext(t);
    DueTextOrder(s.rule, SlotOf(s.rule, t.nextRun), SlotOf(s.rule, s.nextRun));
  }

  lemma StoredNext(s: State)
    requires Sound(s)
    ensures s.nextRun == DueText(s.rule, SlotOf(s.rule, s.nextRun)) && InIso(s.rule, SlotOf(s.rule, s.nextRun))
            && ValidRule(s.rule)
  {
    hide InIso, DueText, SlotOf, RowOk, GoodDay, DistinctSlots;
  }

  /** The heal moves its own run on, and the stored `nextRun` only if both were at the same due date. */
  lemma FrontHeal(s: State, low: int, top: int, w: nat)
    requires Front(s, low, top) && Enabled(s, Heal(w))
    ensures Front(Step(s, Heal(w)), low, top) && !Less(Step(s, Heal(w)).nextRun, s.nextRun)
  {
    hide InIso, SlotOf, DueText, Advance, Less, ParseISO, KeyAt, PeriodKey, AnchorFrom, Sound, Front, Placed,
         FirstOpen, Below, HasSlot;
    FrontParts(s, low, top);
    HealSlot(s, w);
    SoundStep(s, Heal(w));
    var t := Step(s, Heal(w));
    HealPlaced(s.rule, s.rows, s.runs[w], t.runs[w], low, top);
    forall v | v in t.runs
      ensures Placed(t.rule, t.rows, t.runs[v], low, top)
    {
      if v != w { assert t.runs[v] == s.runs[v]; }
    }
    assert !HasSlot(s.rows, top) by { OpenAt(s.rows, low, top); }
    StoredSlot(s.rule, s.rows, s.nextRun, s.runs[w], low, top);
    FrontMade(t, low, top);
    StoredForward(s, t);
  }

  lemma OpenAt(rows: seq<Row>, from: int, gap: int)
    requires FirstOpen(rows, from, gap)
    ensures !HasSlot(rows, gap) && forall k :: from <= k <= gap ==> FirstOpen(rows, k, gap)
  {
  }

  lemma HealPlaced(rule: Rule, rows: seq<Row>, r: Run, r': Run, low: int, top: int)
    requires Placed(rule, rows, r, low, top) && FirstOpen(rows, low, top) && r.phase == Healing
    requires r'.today == r.today && r'.i == r.i + 1 && r'.phase == AtTop
    requires SlotOf(rule, r'.nextRun) == SlotOf(rule, r.nextRun) + 1
    ensures Placed(rule, rows, r', low, top)
  {
    hide SlotOf, DueText, Less, HasSlot;
    var n := SlotOf(rule, r.nextRun);
    if !(low <= n <= top) {
      var gap :| FirstOpen(rows, n, gap) && gap < low && !CanReach(rule, r, gap);
      assert FirstOpen(rows, n + 1, gap);
    }
  }

  /** What is being healed is posted, so it lies below the front. */
  lemma StoredSlot(rule: Rule, rows: seq<Row>, stored: string, r: Run, low: int, top: int)
    requires Placed(rule, rows, r, low, top) && r.phase == Healing && !HasSlot(rows, top) && SlotOf(rule, stored) <= top
    requires SlotOf(rule, Advance(rule, r.nextRun)) == SlotOf(rule, r.nextRun) + 1
    ensures var after := if stored == r.nextRun then Advance(rule, r.nextRun) else stored;
            SlotOf(rule, stored) <= SlotOf(rule, after) <= top
  {
    hide SlotOf, Advance, CanReach;
  }

  /** After a resume that endangers nothing. */
  lemma FrontResume(s: State, low: int, top: int) returns (low': int, top': int)
    requires Front(s, low, top) && Enabled(s, Resume) && !Endangers(s)
    ensures Front(Step(s, Resume), low', top')
  {
    hide InIso, SlotOf, DueText, Less, AnchorFrom, Sound, Front, Placed, Endangers;
    FrontParts(s, low, top);
    SoundStep(s, Resume);
    var t, anchor := Step(s, Resume), AnchorSlot(s);
    ResumeTo(s);
    if anchor <= top {
      low', top' := low, top;
    } else {
      low', top' := anchor, anchor;
      NotBelow(s.rows, top, anchor);
      forall w | w in s.runs { NoThreat(s, low, top, w); }
    }
    FrontMade(t, low', top');
  }

  lemma ResumeTo(s: State)
    requires Enabled(s, Resume)
    ensures var t := Step(s, Resume);
            && t.rule == s.rule && t.rows == s.rows && t.runs == s.runs && t.today == s.today
            && SlotOf(t.rule, t.nextRun) == AnchorSlot(s) == t.base == AnchorSlot(t)
  {
    hide SlotOf, AnchorFrom;
  }

  lemma NotBelow(rows: seq<Row>, top: int, k: int)
    requires Below(rows, top) && top <= k
    ensures FirstOpen(rows, k, k) && Below(rows, k)
  {
  }

  /** A run at the front that cannot get to it is stuck below the new anchor. */
  lemma NoThreat(s: State, low: int, top: int, w: nat)
    requires !Endangers(s) && w in s.runs && top < AnchorSlot(s) && low <= AnchorSlot(s)
    requires Placed(s.rule, s.rows, s.runs[w], low, top) && FirstOpen(s.rows, low, top)
    ensures Placed(s.rule, s.rows, s.runs[w], AnchorSlot(s), AnchorSlot(s))
  {
    hide SlotOf, AnchorFrom, CanReach, HasSlot;
    var n := SlotOf(s.rule, s.runs[w].nextRun);
    if low <= n <= top {
      assert FirstOpen(s.rows, n, top);
      assert !Threatens(s, w, top);
    }
  }

  lemma FrontTick(s: State, low: int, top: int, today': string)
    requires Front(s, low, top) && Enabled(s, Tick(today'))
    ensures Front(Step(s, Tick(today')), low, top)
  {
    hide InIso, SlotOf, DueText, Less, AnchorFrom, Front, Placed, FirstOpen, Below, RowOk, DueIso, GoodDay,
         DistinctSlots;
    FrontParts(s, low, top);
    SoundStep(s, Tick(today'));
    AnchorMonotone(s.rule, s.today, today');
    FrontMade(Step(s, Tick(today')), low, top);
  }

  lemma FrontClash(s: State, low: int, top: int, w: nat)
    requires Front(s, low, top) && Enabled(s, Clash(w))
    ensures Front(Step(s, Clash(w)), low, top)
  {
    hide InIso, SlotOf, DueText, Less, AnchorFrom, Front, FirstOpen, Below, Sound, Posted, PeriodOf, KeyAt, Placed,
         HasSlot;
    FrontParts(s, low, top);
    InLoopRun(s, w);
    SoundStep(s, Clash(w));
    ClashPosted(s, w);
    ClashPlaced(s.rule, s.rows, s.runs[w], low, top);
    FrontMade(Step(s, Clash(w)), low, top);
  }

  lemma ClashPlaced(rule: Rule, rows: seq<Row>, r: Run, low: int, top: int)
    requires Placed(rule, rows, r, low, top) && HasSlot(rows, SlotOf(rule, r.nextRun))
    ensures Placed(rule, rows, r.(phase := Healing), low, top)
  {
    hide SlotOf, DueText, Less, HasSlot, FirstOpen;
    var n := SlotOf(rule, r.nextRun);
    if !(low <= n <= top) {
      var gap :| FirstOpen(rows, n, gap) && gap < low && !CanReach(rule, r, gap);
      assert FirstOpen(rows, n, gap) && !CanReach(rule, r.(phase := Healing), gap);
    }
  }

  lemma ClashPosted(s: State, w: nat)
    requires Sound(s) && Enabled(s, Clash(w))
    ensures w in s.runs && HasSlot(s.rows, SlotOf(s.rule, s.runs[w].nextRun))
  {
    hide InIso, SlotOf, DueText, Less, Posted, PeriodOf, KeyAt, Sound;
    InLoopRun(s, w);
    LoopDue(s, w);
    RunInIso(s, w);
    PostedMeansSlot(s, SlotOf(s.rule, s.runs[w].nextRun));
  }

  lemma FrontOther(s: State, low: int, top: int, e: Event)
    requires Front(s, low, top) && Enabled(s, e)
    requires e.Scan? || e.Problem? || e.Finish? || e.Crash? || e.Pause?
    ensures Front(Step(s, e), low, top) && Step(s, e).nextRun == s.nextRun
  {
    hide InIso, SlotOf, DueText, Less, AnchorFrom, Front, FirstOpen, Below, Sound, InLoop, CanReach, GoodDay;
    FrontParts(s, low, top);
    SoundStep(s, e);
    FrontMade(Step(s, e), low, top);
  }

  /** Every step but a resume that endangers something keeps the order; only a resume moves `nextRun` back. */
  lemma FrontStep(s: State, low: int, top: int, e: Event) returns (low': int, top': int)
    requires Front(s, low, top) && Enabled(s, e) && (e.Resume? ==> !Endangers(s))
    ensures Front(Step(s, e), low', top') && (!e.Resume? ==> !Less(Step(s, e).nextRun, s.nextRun))
  {
    hide Front, Endangers, Less, InLoop, Posted, PeriodOf, GoodDay, Advance, AnchorFrom, SlotOf;
    low', top' := low, top;
    LessIrreflexive(s.nextRun);
    match e
    case Post(w) => FrontPost(s, low, top, w); top' := top + 1;
    case Heal(w) => FrontHeal(s, low, top, w);
    case Clash(w) => FrontClash(s, low, top, w);
    case Tick(today') => FrontTick(s, low, top, today');
    case Resume => low', top' := FrontResume(s, low, top);
    case _ => FrontOther(s, low, top, e);
  }

  /** No resume of the run endangers anything. */
  ghost predicate Harmless(s: State, es: seq<Event>)
    requires Trace(s, es)
    decreases |es|
  {
    es != [] ==> (es[0].Resume? ==> !Endangers(s)) && Harmless(Step(s, es[0]), es[1..])
  }

  lemma {:induction false} OrderlyRun(s: State, es: seq<Event>)
    requires Orderly(s) && Trace(s, es) && Harmless(s, es)
    ensures Orderly(After(s, es))
    decreases |es|
  {
    hide Front, Enabled, Step, Endangers;
    if es != [] {
      var low, top :| Front(s, low, top);
      var low', top' := FrontStep(s, low, top, es[0]);
      OrderlyRun(Step(s, es[0]), es[1..]);
    }
  }

  lemma OrderlyFacts(s: State, e: Event)
    requires Orderly(s)
    ensures exists top :: SlotOf(s.rule, s.nextRun) <= top && FirstOpen(s.rows, s.base, top) && Below(s.rows, top)
    ensures !e.Resume? && Enabled(s, e) ==> !Less(Step(s, e).nextRun, s.nextRun)
  {
    hide Front, Enabled, Step, Endangers, Less, SlotOf, HasSlot, Below, Sound, FirstOpen;
    var low, top :| Front(s, low, top);
    FrontParts(s, low, top);
    OpenAt(s.rows, low, top);
    if !e.Resume? && Enabled(s, e) { var low', top' := FrontStep(s, low, top, e); }
  }

  /**
   In every run from a template's creation whose resumes endanger nothing, overlapping ones
   included: from the anchor of the last resume on, every due date up to some first unposted one
   is posted and none after it, the stored `nextRun` does not point past that one, and no event
   but a resume moves it back.
   */
  lemma HarmlessRunsStayInOrder(s: State, es: seq<Event>, e: Event)
    requires Init(s) && Trace(s, es) && Harmless(s, es)
    ensures var t := After(s, es);
            exists top :: SlotOf(t.rule, t.nextRun) <= top && FirstOpen(t.rows, t.base, top) && Below(t.rows, top)
    ensures !e.Resume? && Enabled(After(s, es), e) ==> !Less(Step(After(s, es), e).nextRun, After(s, es).nextRun)
  {
    hide Init, Front, Enabled, Step, Endangers, Less, SlotOf, FirstOpen, Below, Trace, After, Harmless;
    FrontInit(s);
    OrderlyRun(s, es);
    OrderlyFacts(After(s, es), e);
  }

  lemma {:induction false} FrontNeverRewinds(s: State, low: int, top: int, es: seq<Event>, e: Event)
    requires Front(s, low, top)
    ensures !Rewinds(s, es, e)
    decreases |es|
  {
    hide Front, Enabled, Step, Less;
    if Trace(s, es) && Quiet(es) && !e.Resume? && Enabled(After(s, es), e) {
      if es == [] {
        var low', top' := FrontStep(s, low, top, e);
      } else {
        assert es[0] in es && forall x :: x in es[1..] ==> x in es;
        var low', top' := FrontStep(s, low, top, es[0]);
        FrontNeverRewinds(Step(s, es[0]), low', top', es[1..], e);
      }
    }
  }

  // ---------- a gap that a run in flight can get to ----------

  lemma ConsQuiet(s: State, e: Event, es: seq<Event>)
    requires Enabled(s, e) && !e.Resume? && Trace(Step(s, e), es) && Quiet(es)
    ensures Trace(s, [e] + es) && Quiet([e] + es) && After(s, [e] + es) == After(Step(s, e), es)
  {
    hide Enabled, Step;
    Cons(s, e, es);
    forall x | x in [e] + es ensures !x.Resume? { assert x == e || x in es; }
  }

  /** What a run needs to get to the gap, round by round, and what it leaves alone. */
  ghost predicate OnTheWay(s: State, w: nat, gap: int) {
    Sound(s) && w in s.runs && SlotOf(s.rule, s.runs[w].nextRun) <= gap < SlotOf(s.rule, s.nextRun)
    && CanReach(s.rule, s.runs[w], gap) && InIso(s.rule, gap)
    && (s.runs[w].phase == Healing ==> SlotOf(s.rule, s.runs[w].nextRun) < gap)
    && forall k :: SlotOf(s.rule, s.runs[w].nextRun) <= k < gap ==> HasSlot(s.rows, k)
  }

  lemma RoundLoop(s: State, w: nat, gap: int)
    requires OnTheWay(s, w, gap) && s.runs[w].phase == AtTop
    ensures InLoop(s, w) && s.runs[w].nextRun == DueText(s.rule, SlotOf(s.rule, s.runs[w].nextRun))
  {
    hide InIso, DueText, Less, ParseISO, KeyAt, SlotOf, RowOk, GoodDay, DistinctSlots;
    var n := SlotOf(s.rule, s.runs[w].nextRun);
    SoundNext(s, w);
    DueIsoSlot(s.rule, s.runs[w].nextRun);
    DueTextOrder(s.rule, gap, n);
    NotLessTransitive(s.runs[w].nextRun, DueText(s.rule, gap), s.runs[w].today);
  }

  /** Below the gap the run meets the unique index. */
  lemma RoundClash(s: State, w: nat, gap: int)
    requires OnTheWay(s, w, gap) && s.runs[w].phase == AtTop && SlotOf(s.rule, s.runs[w].nextRun) < gap
    ensures Enabled(s, Clash(w)) && OnTheWay(Step(s, Clash(w)), w, gap)
  {
    hide InIso, DueText, Less, ParseISO, KeyAt, SlotOf, Sound, PeriodKey, CadenceOf, Advance, Posted, PeriodOf,
         InLoop, AnchorFrom;
    RoundLoop(s, w, gap);
    LoopDue(s, w);
    RunInIso(s, w);
    var n := SlotOf(s.rule, s.runs[w].nextRun);
    assert HasSlot(s.rows, n);
    PostedMeansSlot(s, n);
    SoundStep(s, Clash(w));
  }

  lemma RunInIso(s: State, w: nat)
    requires Sound(s) && w in s.runs
    ensures InIso(s.rule, SlotOf(s.rule, s.runs[w].nextRun))
  {
    hide InIso, DueText, SlotOf, RowOk, GoodDay, DistinctSlots;
  }

  /** The heal leaves the newer stored `nextRun` alone. */
  lemma RoundHeal(s: State, w: nat, gap: int)
    requires OnTheWay(s, w, gap) && s.runs[w].phase == Healing
    ensures Enabled(s, Heal(w)) && OnTheWay(Step(s, Heal(w)), w, gap)
    ensures Step(s, Heal(w)) == s.(runs := s.runs[w := Step(s, Heal(w)).runs[w]])
    ensures Step(s, Heal(w)).runs[w].phase == AtTop
    ensures SlotOf(s.rule, Step(s, Heal(w)).runs[w].nextRun) == SlotOf(s.rule, s.runs[w].nextRun) + 1
  {
    hide InIso, DueText, Less, ParseISO, KeyAt, SlotOf, Sound, Advance, AnchorFrom, HasSlot;
    HealSlot(s, w);
    SoundStep(s, Heal(w));
  }

  /** Round by round the run gets to the gap, changing nothing but itself. */
  lemma {:induction false} GetsThere(s: State, w: nat, gap: int) returns (es: seq<Event>)
    requires OnTheWay(s, w, gap)
    ensures Trace(s, es) && Quiet(es)
    ensures var t := After(s, es);
            w in t.runs && t == s.(runs := s.runs[w := t.runs[w]]) && OnTheWay(t, w, gap)
            && t.runs[w].phase == AtTop && SlotOf(s.rule, t.runs[w].nextRun) == gap
    decreases gap - SlotOf(s.rule, s.runs[w].nextRun), if s.runs[w].phase == AtTop then 1 else 0
  {
    hide OnTheWay, Enabled, Step, SlotOf;
    WayParts(s, w, gap);
    if s.runs[w].phase == Healing {
      RoundHeal(s, w, gap);
      var rest := GetsThere(Step(s, Heal(w)), w, gap);
      es := [Heal(w)] + rest;
      ConsQuiet(s, Heal(w), rest);
    } else if SlotOf(s.rule, s.runs[w].nextRun) < gap {
      RoundClash(s, w, gap);
      ClashAt(s, w);
      var rest := GetsThere(Step(s, Clash(w)), w, gap);
      es := [Clash(w)] + rest;
      ConsQuiet(s, Clash(w), rest);
    } else {
      es := [];
      NoEvents(s);
      assert s == s.(runs := s.runs[w := s.runs[w]]);
    }
  }

  lemma WayParts(s: State, w: nat, gap: int)
    requires OnTheWay(s, w, gap)
    ensures w in s.runs && SlotOf(s.rule, s.runs[w].nextRun) <= gap
    ensures s.runs[w].phase == Healing ==> SlotOf(s.rule, s.runs[w].nextRun) < gap
  {
    hide Sound, SlotOf, CanReach, InIso, HasSlot;
  }

  lemma ClashAt(s: State, w: nat)
    requires Enabled(s, Clash(w))
    ensures w in s.runs && Step(s, Clash(w)) == s.(runs := s.runs[w := s.runs[w].(phase := Healing)])
  {
    hide InLoop, Posted, PeriodOf;
    InLoopRun(s, w);
  }

  lemma InIsoBetween(rule: Rule, a: int, k: int, b: int)
    requires ValidRule(rule) && InIso(rule, a) && InIso(rule, b) && a <= k <= b
    ensures InIso(rule, k)
  {
    hide DueAt, Slot, IsDue;
    DueAtIsDue(rule, a);
    DueAtIsDue(rule, k);
    DueAtIsDue(rule, b);
    SlotOrder(rule, DueAt(rule, a), DueAt(rule, k));
    SlotOrder(rule, DueAt(rule, k), DueAt(rule, b));
  }

  lemma {:induction false} UnusedRun(used: set<nat>) returns (w: nat)
    ensures w !in used && forall v :: v in used ==> v < w
    decreases |used|
  {
    if used == {} {
      w := 0;
    } else {
      var v :| v in used;
      var rest := UnusedRun(used - {v});
      w := if v < rest then rest else v + 1;
      assert used == used - {v} + {v};
    }
  }

  predicate Leads(s: State, es: seq<Event>, t: State) {
    Trace(s, es) && Quiet(es) && After(s, es) == t
  }

  /** Run `v` has posted or healed the stored `nextRun`, which is now one period further. */
  ghost predicate Overtaken(s: State, v: nat, t: State) {
    var a := SlotOf(s.rule, s.nextRun);
    && Sound(t) && t.rule == s.rule && InIso(s.rule, a + 1) && SlotOf(s.rule, t.nextRun) == a + 1
    && (t.rows == s.rows
        || (|t.rows| == |s.rows| + 1 && t.rows[..|s.rows|] == s.rows && t.rows[|s.rows|].slot == a))
    && v in t.runs && t.runs == s.runs[v := t.runs[v]]
  }

  /** A new run scans on the anchor's day. */
  lemma AnotherRunScans(s: State, v: nat) returns (t: State)
    requires Sound(s) && s.active && v !in s.runs && GoodDay(s.nextRun) && !Less(s.nextRun, s.today)
    ensures Leads(s, [Tick(s.nextRun), Scan(v, s.nextRun)], t) && Sound(t) && InLoop(t, v)
    ensures t == s.(today := s.nextRun, runs := s.runs[v := Run(s.nextRun, s.nextRun, 0, AtTop)])
  {
    hide InIso, DueText, ParseISO, KeyAt, SlotOf, PeriodKey, AnchorFrom, DueIso, Sound, Trace, After, Less, GoodDay;
    LessIrreflexive(s.nextRun);
    var s1 := Step(s, Tick(s.nextRun));
    SoundStep(s, Tick(s.nextRun));
    t := Step(s1, Scan(v, s.nextRun));
    SoundStep(s1, Scan(v, s.nextRun));
    TwoSteps(s, Tick(s.nextRun), s1, Scan(v, s.nextRun), t);
  }

  /** It posts the anchor, or finds it posted and heals. */
  lemma AnotherRunGoesOn(s: State, v: nat) returns (es: seq<Event>, t: State)
    requires Sound(s) && InLoop(s, v) && s.runs[v].nextRun == s.nextRun
    ensures Leads(s, es, t) && Overtaken(s, v, t)
  {
    hide InIso, DueText, ParseISO, KeyAt, SlotOf, PeriodKey, AnchorFrom, DueIso, Sound, Trace, After, Less, GoodDay,
         Posted, PeriodOf, Advance, InLoop;
    InLoopRun(s, v);
    LoopDue(s, v);
    if Posted(s, PeriodOf(s, s.runs[v].nextRun)) {
      var s1 := Step(s, Clash(v));
      SoundStep(s, Clash(v));
      t := Step(s1, Heal(v));
      SoundStep(s1, Heal(v));
      TwoSteps(s, Clash(v), s1, Heal(v), t);
      es := [Clash(v), Heal(v)];
    } else {
      t := Step(s, Post(v));
      SoundStep(s, Post(v));
      NoEvents(t);
      Cons(s, Post(v), []);
      es := [Post(v)];
      assert [Post(v)] + [] == es;
    }
  }

  lemma TwoSteps(s: State, a: Event, s1: State, b: Event, s2: State)
    requires Enabled(s, a) && Step(s, a) == s1 && Enabled(s1, b) && Step(s1, b) == s2
    ensures Trace(s, [a, b]) && After(s, [a, b]) == s2
  {
    hide Enabled, Step;
    NoEvents(s2);
    Cons(s1, b, []);
    Cons(s, a, [b] + []);
    assert [a] + ([b] + []) == [a, b];
  }

  lemma {:induction false} Joined(s: State, a: seq<Event>, b: seq<Event>)
    requires Trace(s, a) && Trace(After(s, a), b) && Quiet(a) && Quiet(b)
    ensures Trace(s, a + b) && After(s, a + b) == After(After(s, a), b) && Quiet(a + b)
    decreases |a|
  {
    hide Enabled, Step;
    if a == [] {
      assert a + b == b;
    } else {
      assert (a + b)[1..] == a[1..] + b && forall x :: x in a[1..] ==> x in a;
      Joined(Step(s, a[0]), a[1..], b);
    }
    assert forall x :: x in a + b ==> x in a || x in b;
  }

  /** At the gap the run posts, and writes the period after the gap over the newer `nextRun`. */
  lemma PostsTheGap(s: State, w: nat, gap: int)
    requires OnTheWay(s, w, gap) && s.runs[w].phase == AtTop && SlotOf(s.rule, s.runs[w].nextRun) == gap
    requires !HasSlot(s.rows, gap) && gap + 1 < SlotOf(s.rule, s.nextRun)
    ensures Enabled(s, Post(w)) && Less(Step(s, Post(w)).nextRun, s.nextRun)
  {
    hide InIso, DueText, DueAt, Less, ParseISO, KeyAt, SlotOf, Sound, PeriodKey, CadenceOf, Advance, Posted, PeriodOf,
         AnchorFrom;
    RoundLoop(s, w, gap);
    LoopDue(s, w);
    RunInIso(s, w);
    PostedMeansSlot(s, gap);
    StoredNext(s);
    AdvanceIsNextSlot(s.rule, gap);
    DueTextOrder(s.rule, gap + 1, SlotOf(s.rule, s.nextRun));
  }

  /** A due date being healed is posted. */
  predicate HealsPosted(s: State) {
    forall w :: w in s.runs && s.runs[w].phase == Healing ==> HasSlot(s.rows, SlotOf(s.rule, s.runs[w].nextRun))
  }

  /** A resume over a run that can get to a gap before the anchor, in whatever state. */
  lemma GapRewinds(s: State, w: nat, gap: int)
    requires Sound(s) && HealsPosted(s) && Enabled(s, Resume) && Threatens(s, w, gap)
    requires GoodDay(AnchorFrom(s.rule, s.today))
    ensures exists es, e :: Rewinds(Step(s, Resume), es, e)
  {
    hide Sound, SlotOf, DueText, Less, AnchorFrom, GoodDay, CanReach, OnTheWay, InIso, HasSlot, Trace, After, Enabled,
         Step, InLoop, Quiet, HealsPosted, Threatens;
    var t := Step(s, Resume);
    ResumeFacts(s, w, gap);
    var v := UnusedRun(t.runs.Keys);
    var t1 := AnotherRunScans(t, v);
    var fs, t2 := AnotherRunGoesOn(t1, v);
    Joined(t, [Tick(t.nextRun), Scan(v, t.nextRun)], fs);
    var a := [Tick(t.nextRun), Scan(v, t.nextRun)] + fs;
    RunsKept(s, t, v, t1, t2, w);
    WayFrom(s, w, gap, t2);
    var es := GetsThere(t2, w, gap);
    Joined(t, a, es);
    NoGapRow(s.rows, gap, AnchorSlot(s), t2.rows);
    PostsTheGap(After(t2, es), w, gap);
    assert Rewinds(t, a + es, Post(w));
  }

  lemma RunsKept(s: State, t: State, v: nat, t1: State, t2: State, w: nat)
    requires w in s.runs && t.runs == s.runs && v !in t.runs && t.rows == s.rows && t.rule == s.rule
    requires t1 == t.(today := t.nextRun, runs := t.runs[v := Run(t.nextRun, t.nextRun, 0, AtTop)])
    requires Overtaken(t1, v, t2) && SlotOf(t.rule, t.nextRun) == AnchorSlot(s)
    ensures w in t2.runs && t2.runs[w] == s.runs[w] && t2.rule == s.rule && Sound(t2)
    ensures SlotOf(s.rule, t2.nextRun) == AnchorSlot(s) + 1
    ensures t2.rows == s.rows
            || (|t2.rows| == |s.rows| + 1 && t2.rows[..|s.rows|] == s.rows && t2.rows[|s.rows|].slot == AnchorSlot(s))
  {
    hide SlotOf, InIso, Sound, AnchorFrom;
  }

  /** What a resume leaves, and where the run stands. */
  lemma ResumeFacts(s: State, w: nat, gap: int)
    requires Sound(s) && HealsPosted(s) && Enabled(s, Resume) && Threatens(s, w, gap)
    ensures var t := Step(s, Resume);
            && Sound(t) && t.active && t.rule == s.rule && t.runs == s.runs && t.rows == s.rows
            && t.nextRun == AnchorFrom(s.rule, s.today) && !Less(t.nextRun, t.today)
            && SlotOf(t.rule, t.nextRun) == AnchorSlot(s)
    ensures w in s.runs && CanReach(s.rule, s.runs[w], gap) && gap < AnchorSlot(s)
    ensures FirstOpen(s.rows, SlotOf(s.rule, s.runs[w].nextRun), gap)
    ensures s.runs[w].phase == Healing ==> SlotOf(s.rule, s.runs[w].nextRun) < gap
    ensures InIso(s.rule, gap)
  {
    hide InIso, SlotOf, DueText, Less, ParseISO, KeyAt, AnchorFrom, DueIso, RowOk, DistinctSlots, CanReach, HasSlot;
    SoundStep(s, Resume);
    AnchorIsEarliest(s.rule, s.today);
    RunInIso(s, w);
    InIsoBetween(s.rule, SlotOf(s.rule, s.runs[w].nextRun), gap, AnchorSlot(s));
  }

  lemma WayFrom(s: State, w: nat, gap: int, t: State)
    requires w in s.runs && w in t.runs && t.runs[w] == s.runs[w] && t.rule == s.rule && Sound(t)
    requires |t.rows| >= |s.rows| && t.rows[..|s.rows|] == s.rows
    requires FirstOpen(s.rows, SlotOf(s.rule, s.runs[w].nextRun), gap) && gap < SlotOf(s.rule, t.nextRun)
    requires s.runs[w].phase == Healing ==> SlotOf(s.rule, s.runs[w].nextRun) < gap
    requires CanReach(s.rule, s.runs[w], gap) && InIso(s.rule, gap)
    ensures OnTheWay(t, w, gap)
  {
    hide Sound, SlotOf, CanReach, InIso;
    forall k | SlotOf(s.rule, s.runs[w].nextRun) <= k < gap
      ensures HasSlot(t.rows, k)
    {
      assert HasSlot(s.rows, k);
      var i :| 0 <= i < |s.rows| && s.rows[i].slot == k;
      assert t.rows[i] == t.rows[..|s.rows|][i];
    }
  }

  lemma NoGapRow(rows: seq<Row>, gap: int, anchor: int, more: seq<Row>)
    requires !HasSlot(rows, gap) && gap < anchor
    requires more == rows || (|more| == |rows| + 1 && more[..|rows|] == rows && more[|rows|].slot == anchor)
    ensures !HasSlot(more, gap)
  {
    forall i | 0 <= i < |more|
      ensures more[i].slot != gap
    {
      assert i < |rows| ==> more[i] == more[..|rows|][i];
    }
  }

  lemma FrontHeals(s: State, low: int, top: int)
    requires Front(s, low, top)
    ensures HealsPosted(s)
  {
    hide Sound, SlotOf, AnchorSlot, FirstOpen, Below, CanReach, HasSlot;
    forall w | w in s.runs && s.runs[w].phase == Healing
      ensures HasSlot(s.rows, SlotOf(s.rule, s.runs[w].nextRun))
    {
      assert Placed(s.rule, s.rows, s.runs[w], low, top);
    }
  }

  /**
   A resume lets the stored `nextRun` move back if and only if a run in flight can still post a
   due date before the anchor: the first unposted one from where it stands, due on the run's day,
   with rounds left, one for each posted period on the way.
   */
  lemma ResumeRewindsIff(s: State)
    requires Orderly(s) && Enabled(s, Resume) && GoodDay(AnchorFrom(s.rule, s.today))
    ensures Endangers(s) <==> exists es, e :: Rewinds(Step(s, Resume), es, e)
  {
    hide Sound, Front, GoodDay, Rewinds, Enabled, Step, AnchorFrom, Threatens, HealsPosted;
    var low, top :| Front(s, low, top);
    if Endangers(s) {
      var w, gap :| Threatens(s, w, gap);
      FrontParts(s, low, top);
      FrontHeals(s, low, top);
      GapRewinds(s, w, gap);
    } else {
      var low', top' := FrontResume(s, low, top);
      forall es, e { FrontNeverRewinds(Step(s, Resume), low', top', es, e); }
    }
  }
}
